/** The sync catalog as the connection form holds it: a list of streams, each
    with an optional source-side identity and an optional sync configuration. */
module Catalog {
  import opened Wrappers
  import opened JsonValues

  datatype SyncMode = FullRefresh | Incremental

  datatype DestinationSyncMode = Append | Overwrite | AppendDedup

  /** The source-side description of a stream: its identity, and every other
      property (its JSON schema, supported sync modes, source-defined cursor and
      keys) kept as opaque JSON, so that equality still compares all of them. */
  datatype StreamInfo = StreamInfo(name: string, namespace: Option<string>, otherProperties: map<string, Json>)

  /** A stream's sync settings; every field may be absent from the form value.
      Settings the core does not interpret (column selection, for one) are kept
      as opaque JSON, so that equality still compares them. */
  datatype StreamConfig = StreamConfig(
    selected: Option<bool>,
    syncMode: Option<SyncMode>,
    destinationSyncMode: Option<DestinationSyncMode>,
    cursorField: Option<seq<string>>,
    primaryKey: Option<seq<seq<string>>>,
    aliasName: Option<string>,
    otherSettings: map<string, Json>)

  /** The configuration obtained by spreading an absent configuration. */
  const EmptyConfig := StreamConfig(None, None, None, None, None, None, map[])

  datatype SyncStream = SyncStream(id: Option<string>, stream: Option<StreamInfo>, config: Option<StreamConfig>)

  /** `stream.config?.selected` is truthy. */
  predicate IsSelected(s: SyncStream) {
    s.config.Some? && s.config.value.selected == Some(true)
  }

  /** The selected streams, in catalog order (`streams.filter((s) => s.config?.selected)`). */
  function SelectedOnly(streams: seq<SyncStream>): (r: seq<SyncStream>)
    ensures |r| <= |streams|
    ensures forall s :: s in r <==> s in streams && IsSelected(s)
  {
    if |streams| == 0 then []
    else if IsSelected(streams[0]) then [streams[0]] + SelectedOnly(streams[1..])
    else SelectedOnly(streams[1..])
  }

  /** Filtering keeps every stream exactly when every stream is selected. */
  lemma {:induction false} SelectedOnlyKeepsAll(streams: seq<SyncStream>)
    ensures |SelectedOnly(streams)| == |streams| <==> forall i :: 0 <= i < |streams| ==> IsSelected(streams[i])
  {
    if |streams| > 0 {
      SelectedOnlyKeepsAll(streams[1..]);
      assert forall i :: 1 <= i < |streams| ==> streams[i] == streams[1..][i - 1];
      if !IsSelected(streams[0]) {
        assert |SelectedOnly(streams)| < |streams|;
      }
    }
  }

  /** A single stream is kept exactly when it is selected. */
  lemma SelectedOnlySingleton(s: SyncStream)
    ensures SelectedOnly([s]) == if IsSelected(s) then [s] else []
  {
    assert [s][1..] == [];
  }

  /** The filter commutes with concatenation. Together with the singleton case
      this fixes the result completely: kept streams stay in catalog order and
      duplicates are kept. */
  lemma {:induction false} SelectedOnlyAppend(a: seq<SyncStream>, b: seq<SyncStream>)
    ensures SelectedOnly(a + b) == SelectedOnly(a) + SelectedOnly(b)
  {
    if |a| == 0 {
      assert a + b == b;
    } else {
      assert (a + b)[1..] == a[1..] + b;
      SelectedOnlyAppend(a[1..], b);
    }
  }
}
