/** The save flow of the connection-replication editor: deciding whether a
    submitted catalog counts as changed, asking for reset confirmation when it
    does, and sending the connection update with the resulting `skipReset`. */
module ConnectionReplication {
  import opened Wrappers
  import opened Catalog
  import opened JsonValues

  /* ---------------------------------------------------------------------- */
  /* Change classification                                                  */
  /* ---------------------------------------------------------------------- */

  datatype TransformKind = AddStream | RemoveStream | UpdateStream

  datatype StreamDescriptor = StreamDescriptor(name: string, namespace: Option<string>)

  datatype StreamTransform = StreamTransform(transformType: TransformKind, streamDescriptor: StreamDescriptor)

  /** The backend's diff between the last synced schema and the refreshed one. */
  datatype CatalogDiff = CatalogDiff(transforms: seq<StreamTransform>)

  /** The descriptor names the stream: a stream without source identity is never named. */
  predicate Describes(d: StreamDescriptor, s: SyncStream) {
    s.stream.Some? && d.name == s.stream.value.name && d.namespace == s.stream.value.namespace
  }

  /** Position `i` holds the first stream the descriptor names. */
  predicate IsFirstDescribed(d: StreamDescriptor, streams: seq<SyncStream>, i: int) {
    0 <= i < |streams| && Describes(d, streams[i]) && forall j :: 0 <= j < i ==> !Describes(d, streams[j])
  }

  /** The first stream the descriptor names, as `Array.prototype.find` picks it. */
  function FindStream(streams: seq<SyncStream>, d: StreamDescriptor): (r: Option<SyncStream>)
    ensures r.None? <==> forall i :: 0 <= i < |streams| ==> !Describes(d, streams[i])
    ensures r.Some? ==> exists i :: IsFirstDescribed(d, streams, i) && streams[i] == r.value
  {
    if |streams| == 0 then None
    else if Describes(d, streams[0]) then
      assert IsFirstDescribed(d, streams, 0);
      Some(streams[0])
    else
      var r := FindStream(streams[1..], d);
      assert forall i :: 1 <= i < |streams| ==> streams[i] == streams[1..][i - 1];
      assert r.Some? ==> exists i :: IsFirstDescribed(d, streams, i) && streams[i] == r.value by {
        if r.Some? {
          var i :| IsFirstDescribed(d, streams[1..], i) && streams[1..][i] == r.value;
          assert IsFirstDescribed(d, streams, i + 1);
        }
      }
      r
  }

  /** The transform touches a stream that is enabled in the form. */
  predicate HitsEnabledStream(t: StreamTransform, streams: seq<SyncStream>) {
    var s := FindStream(streams, t.streamDescriptor);
    s.Some? && IsSelected(s.value)
  }

  /** `transforms.some(...)`, evaluated front to back. */
  function SomeTransformHits(transforms: seq<StreamTransform>, streams: seq<SyncStream>): bool
  {
    if |transforms| == 0 then false
    else HitsEnabledStream(transforms[0], streams) || SomeTransformHits(transforms[1..], streams)
  }

  lemma {:induction false} SomeTransformHitsIff(transforms: seq<StreamTransform>, streams: seq<SyncStream>)
    ensures SomeTransformHits(transforms, streams) <==>
              exists k :: 0 <= k < |transforms| && HitsEnabledStream(transforms[k], streams)
  {
    if |transforms| > 0 {
      var rest := transforms[1..];
      SomeTransformHitsIff(rest, streams);
      if exists k :: 0 <= k < |rest| && HitsEnabledStream(rest[k], streams) {
        var k :| 0 <= k < |rest| && HitsEnabledStream(rest[k], streams);
        assert transforms[k + 1] == rest[k];
      }
      if exists k :: 0 <= k < |transforms| && HitsEnabledStream(transforms[k], streams) {
        var k :| 0 <= k < |transforms| && HitsEnabledStream(transforms[k], streams);
        if k > 0 {
          assert rest[k - 1] == transforms[k];
        }
      }
    }
  }

  /** The backend diff names a stream that is enabled in the submitted form; no diff means no hit. */
  predicate HasDiffInEnabledStream(streams: seq<SyncStream>, diff: Option<CatalogDiff>) {
    diff.Some? && SomeTransformHits(diff.value.transforms, streams)
  }

  /** The user's catalog differs from the persisted one once both are cut down to their enabled streams. */
  predicate HasUserChangesInEnabledStreams(form: seq<SyncStream>, persisted: seq<SyncStream>) {
    SelectedOnly(form) != SelectedOnly(persisted)
  }

  /** The submitted catalog requires confirmation before it is saved. */
  predicate CatalogHasChanged(form: seq<SyncStream>, persisted: seq<SyncStream>, diff: Option<CatalogDiff>)
    ensures CatalogHasChanged(form, persisted, diff) <==>
              || SelectedOnly(form) != SelectedOnly(persisted)
              || (diff.Some? &&
                  exists k, i :: 0 <= k < |diff.value.transforms|
                                 && IsFirstDescribed(diff.value.transforms[k].streamDescriptor, form, i)
                                 && IsSelected(form[i]))
  {
    HasDiffInEnabledStreamIff(form, diff);
    HasDiffInEnabledStream(form, diff) || HasUserChangesInEnabledStreams(form, persisted)
  }

  /** The diff check holds exactly when some transform names a stream whose first
      occurrence in the form is selected. */
  lemma HasDiffInEnabledStreamIff(streams: seq<SyncStream>, diff: Option<CatalogDiff>)
    ensures HasDiffInEnabledStream(streams, diff) <==>
              diff.Some? &&
              exists k, i :: 0 <= k < |diff.value.transforms|
                             && IsFirstDescribed(diff.value.transforms[k].streamDescriptor, streams, i)
                             && IsSelected(streams[i])
  {
    if diff.Some? {
      var ts := diff.value.transforms;
      SomeTransformHitsIff(ts, streams);
      if HasDiffInEnabledStream(streams, diff) {
        var k :| 0 <= k < |ts| && HitsEnabledStream(ts[k], streams);
        var i :| IsFirstDescribed(ts[k].streamDescriptor, streams, i)
                 && streams[i] == FindStream(streams, ts[k].streamDescriptor).value;
        assert IsSelected(streams[i]);
      }
      if exists k, i :: 0 <= k < |ts| && IsFirstDescribed(ts[k].streamDescriptor, streams, i) && IsSelected(streams[i]) {
        var k, i :| 0 <= k < |ts| && IsFirstDescribed(ts[k].streamDescriptor, streams, i) && IsSelected(streams[i]);
        var d := ts[k].streamDescriptor;
        FirstDescribedIsUnique(d, streams, i);
        assert HitsEnabledStream(ts[k], streams);
      }
    }
  }

  /** `find` returns the stream at the first position the descriptor names. */
  lemma FirstDescribedIsUnique(d: StreamDescriptor, streams: seq<SyncStream>, i: int)
    requires IsFirstDescribed(d, streams, i)
    ensures FindStream(streams, d) == Some(streams[i])
  {
    assert Describes(d, streams[i]);
    assert FindStream(streams, d).Some?;
    var i' :| IsFirstDescribed(d, streams, i') && streams[i'] == FindStream(streams, d).value;
    assert i' == i;
  }

  /** Some position enabled in the form holds a stream that differs from the persisted one. */
  predicate EnabledStreamEdited(form: seq<SyncStream>, persisted: seq<SyncStream>) {
    exists i :: 0 <= i < |form| && i < |persisted| && IsSelected(form[i]) && form[i] != persisted[i]
  }

  lemma EnabledStreamEditedUnfold(form: seq<SyncStream>, persisted: seq<SyncStream>)
    requires |form| == |persisted| > 0
    ensures EnabledStreamEdited(form, persisted) <==>
              (IsSelected(form[0]) && form[0] != persisted[0]) || EnabledStreamEdited(form[1..], persisted[1..])
  {
    if EnabledStreamEdited(form[1..], persisted[1..]) {
      var i :| 0 <= i < |form[1..]| && i < |persisted[1..]| && IsSelected(form[1..][i]) && form[1..][i] != persisted[1..][i];
      assert IsSelected(form[i + 1]) && form[i + 1] != persisted[i + 1];
    }
    if EnabledStreamEdited(form, persisted) {
      var i :| 0 <= i < |form| && i < |persisted| && IsSelected(form[i]) && form[i] != persisted[i];
      if i > 0 {
        assert form[1..][i - 1] == form[i] && persisted[1..][i - 1] == persisted[i];
      }
    }
  }

  lemma ConsEquality(x: SyncStream, y: SyncStream, a: seq<SyncStream>, b: seq<SyncStream>)
    ensures [x] + a == [y] + b <==> x == y && a == b
  {
    if [x] + a == [y] + b {
      assert x == ([x] + a)[0] && y == ([y] + b)[0];
      assert a == ([x] + a)[1..] && b == ([y] + b)[1..];
    }
  }

  /** When form and persisted catalog enable the same positions, the user-change
      check fires exactly when some enabled stream was edited; edits to disabled
      streams are ignored. */
  lemma {:induction false} UserChangesIffEnabledStreamEdited(form: seq<SyncStream>, persisted: seq<SyncStream>)
    requires |form| == |persisted|
    requires forall i :: 0 <= i < |form| ==> IsSelected(form[i]) == IsSelected(persisted[i])
    ensures HasUserChangesInEnabledStreams(form, persisted) <==> EnabledStreamEdited(form, persisted)
  {
    if |form| > 0 {
      var f, p := form[1..], persisted[1..];
      assert forall i :: 0 <= i < |f| ==> f[i] == form[i + 1] && p[i] == persisted[i + 1];
      UserChangesIffEnabledStreamEdited(f, p);
      EnabledStreamEditedUnfold(form, persisted);
      if IsSelected(form[0]) {
        assert SelectedOnly(form) == [form[0]] + SelectedOnly(f);
        assert SelectedOnly(persisted) == [persisted[0]] + SelectedOnly(p);
        ConsEquality(form[0], persisted[0], SelectedOnly(f), SelectedOnly(p));
      } else {
        assert SelectedOnly(form) == SelectedOnly(f);
        assert SelectedOnly(persisted) == SelectedOnly(p);
      }
    }
  }

  /** The comparison is order-sensitive: swapping two distinct enabled streams is a change. */
  lemma ReorderingEnabledStreamsIsAChange(a: SyncStream, b: SyncStream)
    requires IsSelected(a) && IsSelected(b) && a != b
    ensures HasUserChangesInEnabledStreams([a, b], [b, a])
  {
    assert SelectedOnly([a, b]) == [a] + SelectedOnly([b]);
    assert SelectedOnly([b, a]) == [b] + SelectedOnly([a]);
  }

  /** The comparison is deep: editing only a setting the core does not
      interpret, such as the column selection, of an enabled stream is a change. */
  lemma OtherSettingEditIsAChange(s: SyncStream, settings: map<string, Json>)
    requires IsSelected(s) && settings != s.config.value.otherSettings
    ensures HasUserChangesInEnabledStreams([s.(config := Some(s.config.value.(otherSettings := settings)))], [s])
  {
    var edited := s.(config := Some(s.config.value.(otherSettings := settings)));
    SelectedOnlySingleton(s);
    SelectedOnlySingleton(edited);
    assert edited.config.value.otherSettings != s.config.value.otherSettings;
  }

  /* ---------------------------------------------------------------------- */
  /* Save flow                                                              */
  /* ---------------------------------------------------------------------- */

  /** A field of the connection update body. */
  datatype FieldValue =
    | StrField(s: string)
    | BoolField(b: bool)
    | CatalogField(streams: seq<SyncStream>)
    | OpaqueField(tag: string)

  type Fields = map<string, FieldValue>

  /** The loaded connection: its id, persisted catalog, backend diff, and its
      remaining fields as they appear in an update request. */
  datatype Connection = Connection(
    connectionId: string,
    syncCatalog: seq<SyncStream>,
    catalogDiff: Option<CatalogDiff>,
    asUpdate: Fields)

  /** The tidied form values: the edited catalog and every other form field. */
  datatype FormValues = FormValues(syncCatalog: seq<SyncStream>, otherFields: Fields)

  function FormFields(values: FormValues): Fields {
    values.otherFields["syncCatalog" := CatalogField(values.syncCatalog)]
  }

  /** The keys the payload sets last, over anything the connection or form hold. */
  const ReservedKeys: set<string> := {"connectionId", "skipReset"}

  /** The update body `{...connectionAsUpdate, ...values, connectionId, skipReset}`. */
  function UpdatePayload(conn: Connection, values: FormValues, skipReset: bool): (r: Fields)
    ensures r.Keys == conn.asUpdate.Keys + FormFields(values).Keys + ReservedKeys
    ensures "connectionId" in r && r["connectionId"] == StrField(conn.connectionId)
    ensures "skipReset" in r && r["skipReset"] == BoolField(skipReset)
    ensures forall k :: k in FormFields(values) && k !in ReservedKeys ==> r[k] == FormFields(values)[k]
    ensures forall k :: k in conn.asUpdate && k !in FormFields(values) && k !in ReservedKeys ==> r[k] == conn.asUpdate[k]
  {
    (conn.asUpdate + FormFields(values))["connectionId" := StrField(conn.connectionId)]["skipReset" := BoolField(skipReset)]
  }

  /** How an awaited backend call ended. */
  datatype CallOutcome = Succeeds | Throws(error: string)

  /** How the reset-warning modal was closed; `reason` is true when the user asked for a reset. */
  datatype ModalResult = Canceled | Completed(reason: bool)

  /** The page state the submit handler writes. */
  datatype PageState = PageState(saved: bool, submitError: Option<string>)

  /** The collaborators a submission reaches, in the order it reaches them. */
  datatype Effects = Effects(
    stateTypeRequests: nat,
    modalsOpened: nat,
    updates: seq<Fields>,
    analyticsEvents: nat)

  datatype SubmitOutcome = SubmitOutcome(effects: Effects, page: PageState)

  /** Sends the update, then tracks a catalog edit when the update went through;
      the page is marked saved after a successful update, and a thrown update
      becomes the submit error. */
  function SaveConnection(conn: Connection, values: FormValues, skipReset: bool, catalogHasChanged: bool,
                          update: CallOutcome, page: PageState, stateTypeRequests: nat, modalsOpened: nat): (r: SubmitOutcome)
    // exactly one update is sent, whatever its outcome, and it carries the caller's skipReset
    ensures r.effects.updates == [UpdatePayload(conn, values, skipReset)]
    ensures r.effects.updates[0]["skipReset"] == BoolField(skipReset)
    // the earlier steps' counts are kept
    ensures r.effects.stateTypeRequests == stateTypeRequests && r.effects.modalsOpened == modalsOpened
    // the catalog edit is tracked only once the update went through
    ensures r.effects.analyticsEvents == (if catalogHasChanged && update.Succeeds? then 1 else 0)
    ensures r.page.saved <==> update.Succeeds? || page.saved
    ensures r.page.submitError.Some? <==> update.Throws?
    ensures update.Throws? ==> r.page.submitError == Some(update.error)
  {
    var payload := UpdatePayload(conn, values, skipReset);
    match update
    case Succeeds =>
      SubmitOutcome(Effects(stateTypeRequests, modalsOpened, [payload], if catalogHasChanged then 1 else 0),
                    PageState(true, None))
    case Throws(e) =>
      SubmitOutcome(Effects(stateTypeRequests, modalsOpened, [payload], 0), PageState(page.saved, Some(e)))
  }

  /** The form submit handler. The submit error is cleared first; a changed
      catalog fetches the state type and opens the reset modal, an unchanged one
      is saved straight away with `skipReset`; every thrown error becomes the
      submit error. */
  function OnFormSubmit(conn: Connection, values: FormValues, page: PageState,
                        stateType: CallOutcome, modal: ModalResult, update: CallOutcome): (r: SubmitOutcome)
    ensures var changed := CatalogHasChanged(values.syncCatalog, conn.syncCatalog, conn.catalogDiff);
            var sent := |r.effects.updates| == 1;
            // the state type is fetched and the modal opened only for a changed catalog
            && r.effects.stateTypeRequests == (if changed then 1 else 0)
            && r.effects.modalsOpened == (if changed && stateType.Succeeds? then 1 else 0)
            // at most one update, sent unless a change was canceled or its state-type fetch failed
            && |r.effects.updates| <= 1
            && (sent <==> !changed || (stateType.Succeeds? && modal.Completed?))
            // an unchanged catalog skips the reset; a confirmed one skips it unless a reset was asked for
            && (sent ==> r.effects.updates[0] == UpdatePayload(conn, values, if changed then !modal.reason else true))
            // saved only after an update went through; otherwise the previous flag stays
            && (r.page.saved <==> page.saved || (sent && update.Succeeds?))
            // the previous submit error never survives; a new one comes from the call that threw
            && (r.page.submitError.Some? <==> (changed && stateType.Throws?) || (sent && update.Throws?))
            && (changed && stateType.Throws? ==> r.page.submitError == Some(stateType.error))
            && (sent && update.Throws? ==> r.page.submitError == Some(update.error))
            // one analytics event exactly for a saved catalog change
            && r.effects.analyticsEvents == (if changed && sent && update.Succeeds? then 1 else 0)
  {
    var changed := CatalogHasChanged(values.syncCatalog, conn.syncCatalog, conn.catalogDiff);
    var cleared := page.(submitError := None);
    if !changed then
      SaveConnection(conn, values, true, changed, update, cleared, 0, 0)
    else if stateType.Throws? then
      SubmitOutcome(Effects(1, 0, [], 0), cleared.(submitError := Some(stateType.error)))
    else
      match modal
      case Canceled => SubmitOutcome(Effects(1, 1, [], 0), cleared)
      case Completed(reason) => SaveConnection(conn, values, !reason, changed, update, cleared, 1, 1)
  }

  /** A stream whose sync mode the user switched, with no backend diff, still asks for confirmation. */
  lemma SyncModeEditAsksForConfirmation(conn: Connection, values: FormValues, page: PageState,
                                        stateType: CallOutcome, modal: ModalResult, update: CallOutcome)
    requires |values.syncCatalog| == 1 && |conn.syncCatalog| == 1
    requires IsSelected(values.syncCatalog[0]) && IsSelected(conn.syncCatalog[0])
    requires values.syncCatalog[0].config.value.syncMode == Some(Incremental)
    requires conn.syncCatalog[0].config.value.syncMode == Some(FullRefresh)
    requires conn.catalogDiff == Some(CatalogDiff([]))
    ensures OnFormSubmit(conn, values, page, stateType, modal, update).effects.stateTypeRequests == 1
    ensures stateType.Succeeds? ==> OnFormSubmit(conn, values, page, stateType, modal, update).effects.modalsOpened == 1
  {
    UserChangesIffEnabledStreamEdited(values.syncCatalog, conn.syncCatalog);
    assert IsSelected(values.syncCatalog[0]) && values.syncCatalog[0] != conn.syncCatalog[0];
  }

  /* ---------------------------------------------------------------------- */
  /* Schema-change banner                                                   */
  /* ---------------------------------------------------------------------- */

  datatype SchemaChange = NoChange | NonBreaking | Breaking

  datatype BannerType = WarningBanner | ErrorBanner

  /** The banner's action: a plain refresh, or a refresh that first confirms discarding unsaved edits. */
  datatype BannerAction = Refresh | RefreshWithConfirmationOnDirty

  datatype SchemaChangeBanner = SchemaChangeBanner(bannerType: BannerType, action: BannerAction)

  /** The banner shown above the form for the connection's schema-change status. */
  function SchemaChangeMessage(schemaHasBeenRefreshed: bool, change: SchemaChange): (r: Option<SchemaChangeBanner>)
    ensures r.Some? <==> !schemaHasBeenRefreshed && change != NoChange
    ensures r.Some? ==> (r.value.bannerType == WarningBanner <==> change == NonBreaking)
    ensures r.Some? ==> (r.value.bannerType == WarningBanner <==> r.value.action == Refresh)
  {
    if schemaHasBeenRefreshed then None
    else
      match change
      case NonBreaking => Some(SchemaChangeBanner(WarningBanner, Refresh))
      case Breaking => Some(SchemaChangeBanner(ErrorBanner, RefreshWithConfirmationOnDirty))
      case NoChange => None
  }
}
