/** The header row of the streams table: the "sync all streams" switch and the
    two form rewrites behind the destination namespace and stream-name modals. */
module StreamsConfigTableHeader {
  import opened Wrappers
  import opened Catalog

  /* ---------------------------------------------------------------------- */
  /* Sync-all switch                                                        */
  /* ---------------------------------------------------------------------- */

  /** `setIn(stream, "config", {...stream.config, selected: checked})`. */
  function WithSelected(s: SyncStream, checked: bool): SyncStream {
    s.(config := Some(s.config.GetOr(EmptyConfig).(selected := Some(checked))))
  }

  /** The bulk toggle: every stream gets `selected := checked`, nothing else moves. */
  function ToggleAllStreamsSync(streams: seq<SyncStream>, checked: bool): (r: seq<SyncStream>)
    ensures |r| == |streams|
    ensures forall i :: 0 <= i < |r| ==>
              && r[i].id == streams[i].id
              && r[i].stream == streams[i].stream
              && r[i].config.Some?
              && r[i].config.value.selected == Some(checked)
              && (streams[i].config.Some? ==> r[i].config.value == streams[i].config.value.(selected := Some(checked)))
              && (streams[i].config.None? ==> r[i].config.value == EmptyConfig.(selected := Some(checked)))
  {
    seq(|streams|, i requires 0 <= i < |streams| => WithSelected(streams[i], checked))
  }

  /** `isPartOfStreamsSyncEnabled`: some stream is selected and the selected
      streams are fewer than all; that is, some stream is selected and some is not. */
  predicate IsPartOfStreamsSyncEnabled(streams: seq<SyncStream>)
    ensures IsPartOfStreamsSyncEnabled(streams) <==>
              (exists i :: 0 <= i < |streams| && IsSelected(streams[i])) &&
              (exists i :: 0 <= i < |streams| && !IsSelected(streams[i]))
  {
    SelectedOnlyKeepsAll(streams);
    (exists i :: 0 <= i < |streams| && IsSelected(streams[i])) && |SelectedOnly(streams)| != |streams|
  }

  /** `areAllStreamsSyncEnabled`: there are streams and every one is selected,
      so the selected streams are all of them. */
  predicate AreAllStreamsSyncEnabled(streams: seq<SyncStream>)
    ensures AreAllStreamsSyncEnabled(streams) <==> 0 < |SelectedOnly(streams)| == |streams|
  {
    SelectedOnlyKeepsAll(streams);
    (forall i :: 0 <= i < |streams| ==> IsSelected(streams[i])) && |streams| > 0
  }

  /** The switch is never both on and indeterminate, and an empty table shows neither. */
  lemma SwitchStatesExclusive(streams: seq<SyncStream>)
    ensures !(AreAllStreamsSyncEnabled(streams) && IsPartOfStreamsSyncEnabled(streams))
    ensures |streams| == 0 ==> !AreAllStreamsSyncEnabled(streams) && !IsPartOfStreamsSyncEnabled(streams)
  {
  }

  /** What the header switch displays. */
  datatype SwitchView = SwitchView(indeterminate: bool, checked: bool, disabled: bool)

  /** The header switch: on when every stream is selected, indeterminate when
      only some are, disabled when the caller says so or there is nothing to toggle. */
  function SyncAllSwitch(streams: seq<SyncStream>, syncSwitchDisabled: bool): (r: SwitchView)
    ensures r.checked <==> |streams| > 0 && forall i :: 0 <= i < |streams| ==> IsSelected(streams[i])
    ensures r.indeterminate <==>
              (exists i :: 0 <= i < |streams| && IsSelected(streams[i])) &&
              (exists i :: 0 <= i < |streams| && !IsSelected(streams[i]))
    ensures !(r.checked && r.indeterminate)
    ensures r.checked || r.indeterminate <==> exists i :: 0 <= i < |streams| && IsSelected(streams[i])
    ensures |streams| == 0 ==> r.disabled && !r.checked && !r.indeterminate
    ensures r.disabled <==> syncSwitchDisabled || |streams| == 0
  {
    SwitchStatesExclusive(streams);
    assert AreAllStreamsSyncEnabled(streams) ==> IsSelected(streams[0]);
    SwitchView(IsPartOfStreamsSyncEnabled(streams), AreAllStreamsSyncEnabled(streams),
               syncSwitchDisabled || |streams| == 0)
  }

  /** Toggling on turns a non-empty table fully on; toggling off leaves nothing selected. */
  lemma ToggleAllDecidesSwitch(streams: seq<SyncStream>, checked: bool)
    ensures var r := ToggleAllStreamsSync(streams, checked);
            && (checked ==> (AreAllStreamsSyncEnabled(r) <==> |streams| > 0))
            && (!checked ==> !AreAllStreamsSyncEnabled(r) && !IsPartOfStreamsSyncEnabled(r))
            && !IsPartOfStreamsSyncEnabled(r)
  {
    var r := ToggleAllStreamsSync(streams, checked);
    SelectedOnlyKeepsAll(r);
  }

  /** A second toggle overrides the first. */
  lemma ToggleAllLastWins(streams: seq<SyncStream>, first: bool, second: bool)
    ensures ToggleAllStreamsSync(ToggleAllStreamsSync(streams, first), second) == ToggleAllStreamsSync(streams, second)
  {
  }

  /* ---------------------------------------------------------------------- */
  /* Destination namespace and stream-name modals                           */
  /* ---------------------------------------------------------------------- */

  datatype NamespaceDefinitionType = SourceNamespace | DestinationNamespace | CustomFormat

  datatype NamespaceFormValue = NamespaceFormValue(namespaceDefinition: NamespaceDefinitionType, namespaceFormat: Option<string>)

  datatype StreamNameDefinition = Mirror | Prefix

  datatype StreamNamesFormValue = StreamNamesFormValue(streamNameDefinition: StreamNameDefinition, prefix: string)

  /** A `setFieldValue` call on the connection form. */
  datatype FieldWrite =
    | SetNamespaceDefinition(definition: NamespaceDefinitionType)
    | SetNamespaceFormat(format: Option<string>)
    | SetPrefix(prefix: string)

  /** The connection-form fields the two modals write. */
  datatype HeaderFormFields = HeaderFormFields(
    namespaceDefinition: NamespaceDefinitionType,
    namespaceFormat: Option<string>,
    prefix: string)

  function ApplyWrite(f: HeaderFormFields, w: FieldWrite): HeaderFormFields {
    match w
    case SetNamespaceDefinition(d) => f.(namespaceDefinition := d)
    case SetNamespaceFormat(fmt) => f.(namespaceFormat := fmt)
    case SetPrefix(p) => f.(prefix := p)
  }

  function ApplyWrites(f: HeaderFormFields, ws: seq<FieldWrite>): HeaderFormFields
    decreases |ws|
  {
    if |ws| == 0 then f else ApplyWrites(ApplyWrite(f, ws[0]), ws[1..])
  }

  /** The namespace modal's submit: the definition is always written, the format
      only for a custom format. */
  function DestinationNamespaceChange(value: NamespaceFormValue): (r: seq<FieldWrite>)
    ensures 1 <= |r| <= 2 && r[0] == SetNamespaceDefinition(value.namespaceDefinition)
    ensures (exists i :: 0 <= i < |r| && r[i].SetNamespaceFormat?) <==> value.namespaceDefinition == CustomFormat
    ensures forall i :: 0 <= i < |r| ==> !r[i].SetPrefix?
  {
    if value.namespaceDefinition == CustomFormat then
      var r := [SetNamespaceDefinition(value.namespaceDefinition), SetNamespaceFormat(value.namespaceFormat)];
      assert r[1].SetNamespaceFormat?;
      r
    else [SetNamespaceDefinition(value.namespaceDefinition)]
  }

  /** The stream-name modal's submit: one prefix write, empty unless the definition is a prefix. */
  function DestinationStreamNamesChange(value: StreamNamesFormValue): (r: seq<FieldWrite>)
    ensures |r| == 1 && r[0].SetPrefix?
    ensures r[0].prefix == (if value.streamNameDefinition == Prefix then value.prefix else "")
  {
    [SetPrefix(if value.streamNameDefinition == Prefix then value.prefix else "")]
  }

  /** The form after the namespace modal: a definition change keeps the old format
      unless the new definition is a custom format, and the prefix is untouched. */
  lemma NamespaceChangeEffect(f: HeaderFormFields, value: NamespaceFormValue)
    ensures var g := ApplyWrites(f, DestinationNamespaceChange(value));
            && g.namespaceDefinition == value.namespaceDefinition
            && g.namespaceFormat == (if value.namespaceDefinition == CustomFormat then value.namespaceFormat else f.namespaceFormat)
            && g.prefix == f.prefix
  {
    var ws := DestinationNamespaceChange(value);
    var f1 := ApplyWrite(f, ws[0]);
    assert ApplyWrites(f, ws) == ApplyWrites(f1, ws[1..]);
    if value.namespaceDefinition == CustomFormat {
      assert ws[1..] == [SetNamespaceFormat(value.namespaceFormat)];
      assert ApplyWrites(f1, ws[1..]) == ApplyWrites(ApplyWrite(f1, ws[1]), []);
    } else {
      assert ws[1..] == [];
    }
  }

  /** The form after the stream-name modal: only the prefix changes. */
  lemma StreamNamesChangeEffect(f: HeaderFormFields, value: StreamNamesFormValue)
    ensures var g := ApplyWrites(f, DestinationStreamNamesChange(value));
            g == f.(prefix := if value.streamNameDefinition == Prefix then value.prefix else "")
  {
    assert DestinationStreamNamesChange(value)[1..] == [];
  }
}
