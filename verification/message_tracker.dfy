/** The worker's bookkeeping of the messages a sync's source and destination
    emit: error traces collected per origin, the latest source state, the
    destination's aggregated state, and the calls forwarded to the stats
    tracker. The failure blamed for a sync is the earlier of the two sides'
    first error traces, a tie going to the source. */
module MessageTracker {
  import opened Wrappers

  datatype Origin = Source | Destination

  datatype TraceType = Estimate | Error | StreamStatus

  /** `emittedAt` is a double in the protocol; it is an integer here. */
  datatype TraceMessage = TraceMessage(traceType: TraceType, emittedAt: int, detail: string)

  datatype RecordMessage = RecordMessage(stream: string, data: string, emittedAt: int)

  datatype StateMessage = StateMessage(data: string)

  /** A protocol message, by type; the untracked kinds carry no payload here. */
  datatype AirbyteMessage =
    | Record(record: RecordMessage)
    | State(state: StateMessage)
    | Trace(trace: TraceMessage)
    | Control
    | Log
    | Spec
    | ConnectionStatus
    | Catalog

  /** The calls forwarded to the stats tracker and the state aggregator. */
  datatype StatsCall =
    | UpdateStats(record: RecordMessage)
    | UpdateSourceStatesStats(state: StateMessage)
    | UpdateDestinationStateStats(state: StateMessage)
    | UpdateEstimates(estimate: TraceMessage)

  /** The persisted state of a side. The destination's is whatever the state
      aggregator makes of every destination state ingested so far. */
  datatype OutputState = SourceOutput(data: string) | Aggregated(ingested: seq<StateMessage>)

  datatype Tracker = Tracker(
    sourceOutputState: Option<OutputState>,
    destinationOutputState: Option<OutputState>,
    aggregatorIngested: seq<StateMessage>,
    sourceErrorTraces: seq<TraceMessage>,
    destinationErrorTraces: seq<TraceMessage>,
    statsCalls: seq<StatsCall>)

  const Initial := Tracker(None, None, [], [], [], [])

  /** The error traces collected for one origin. */
  function ErrorTraces(t: Tracker, origin: Origin): seq<TraceMessage> {
    match origin
    case Source => t.sourceErrorTraces
    case Destination => t.destinationErrorTraces
  }

  /** Routes a trace message: an error goes to its origin's list, an estimate to the stats tracker. */
  function HandleEmittedTrace(t: Tracker, trace: TraceMessage, origin: Origin): (r: Tracker)
    ensures trace.traceType == Error ==> ErrorTraces(r, origin) == ErrorTraces(t, origin) + [trace]
    ensures forall o :: (trace.traceType != Error || o != origin) ==> ErrorTraces(r, o) == ErrorTraces(t, o)
    ensures r.sourceOutputState == t.sourceOutputState && r.destinationOutputState == t.destinationOutputState
    ensures r.aggregatorIngested == t.aggregatorIngested
    ensures r.statsCalls == t.statsCalls + (if trace.traceType == Estimate then [UpdateEstimates(trace)] else [])
  {
    match trace.traceType
    case Estimate => t.(statsCalls := t.statsCalls + [UpdateEstimates(trace)])
    case Error =>
      (match origin
       case Destination => t.(destinationErrorTraces := t.destinationErrorTraces + [trace])
       case Source => t.(sourceErrorTraces := t.sourceErrorTraces + [trace]))
    case StreamStatus => t
  }

  /** `acceptFromSource`: a trace is routed as a source trace, a record reaches
      the stats tracker, a state becomes the source output state and reaches the
      stats tracker; every other kind, control included, changes nothing. */
  function AcceptFromSource(t: Tracker, m: AirbyteMessage): (r: Tracker)
    // the destination's side is never touched by a source message
    ensures r.destinationOutputState == t.destinationOutputState
    ensures r.aggregatorIngested == t.aggregatorIngested
    ensures r.destinationErrorTraces == t.destinationErrorTraces
    ensures m.Trace? ==> r == HandleEmittedTrace(t, m.trace, Source)
    ensures m.Record? ==> r.statsCalls == t.statsCalls + [UpdateStats(m.record)] && r.(statsCalls := t.statsCalls) == t
    ensures m.State? ==>
              && r.sourceOutputState == Some(SourceOutput(m.state.data))
              && r.statsCalls == t.statsCalls + [UpdateSourceStatesStats(m.state)]
              && r.sourceErrorTraces == t.sourceErrorTraces
    ensures !(m.Trace? || m.Record? || m.State?) ==> r == t
  {
    match m
    case Trace(trace) => HandleEmittedTrace(t, trace, Source)
    case Record(record) => t.(statsCalls := t.statsCalls + [UpdateStats(record)])
    case State(state) =>
      t.(sourceOutputState := Some(SourceOutput(state.data)),
         statsCalls := t.statsCalls + [UpdateSourceStatesStats(state)])
    case _ => t
  }

  /** `acceptFromDestination`: a trace is routed as a destination trace; a state
      is ingested by the aggregator, whose aggregate becomes the destination
      output state, and reaches the stats tracker. A destination has no records
      to track: records and every other kind change nothing. */
  function AcceptFromDestination(t: Tracker, m: AirbyteMessage): (r: Tracker)
    // the source's side is never touched by a destination message
    ensures r.sourceOutputState == t.sourceOutputState
    ensures r.sourceErrorTraces == t.sourceErrorTraces
    ensures m.Trace? ==> r == HandleEmittedTrace(t, m.trace, Destination)
    ensures m.State? ==>
              && r.aggregatorIngested == t.aggregatorIngested + [m.state]
              && r.destinationOutputState == Some(Aggregated(r.aggregatorIngested))
              && r.statsCalls == t.statsCalls + [UpdateDestinationStateStats(m.state)]
              && r.destinationErrorTraces == t.destinationErrorTraces
    ensures !(m.Trace? || m.State?) ==> r == t
  {
    match m
    case Trace(trace) => HandleEmittedTrace(t, trace, Destination)
    case State(state) =>
      var ingested := t.aggregatorIngested + [state];
      t.(aggregatorIngested := ingested,
         destinationOutputState := Some(Aggregated(ingested)),
         statsCalls := t.statsCalls + [UpdateDestinationStateStats(state)])
    case _ => t
  }

  /** One incoming message and the side it came from. */
  datatype Incoming = Incoming(origin: Origin, message: AirbyteMessage)

  function Accept(t: Tracker, m: Incoming): Tracker {
    match m.origin
    case Source => AcceptFromSource(t, m.message)
    case Destination => AcceptFromDestination(t, m.message)
  }

  /** The tracker after ingesting `ms` in order. */
  function Run(t: Tracker, ms: seq<Incoming>): Tracker {
    if |ms| == 0 then t else Accept(Run(t, ms[..|ms| - 1]), ms[|ms| - 1])
  }

  /** Per message: where each message kind lands, and that nothing else moves. */
  lemma AcceptRouting(t: Tracker, m: Incoming)
    ensures var r := Accept(t, m);
            // an error trace lands in its own origin's list and no other
            && (forall o :: ErrorTraces(r, o) ==
                  ErrorTraces(t, o) + (if IsErrorFrom(m, o) then [m.message.trace] else []))
            // only a source state moves the source output state
            && r.sourceOutputState ==
                 (if m.origin == Source && m.message.State? then Some(SourceOutput(m.message.state.data))
                  else t.sourceOutputState)
            // only a destination state reaches the aggregator, whose aggregate becomes the destination output state
            && r.aggregatorIngested == t.aggregatorIngested + DestinationStatesIn([m])
            && r.destinationOutputState ==
                 (if IsDestinationState(m) then Some(Aggregated(r.aggregatorIngested)) else t.destinationOutputState)
            // the stats tracker hears of source records, states from either side and estimates
            && r.statsCalls == t.statsCalls + StatsCallsFor(m)
            // every other message, a destination record or any control or log message included, is ignored
            && (!m.message.Trace? && !m.message.State? && !(m.origin == Source && m.message.Record?) ==> r == t)
  {
  }

  /** The message is a state message from the destination. */
  predicate IsDestinationState(m: Incoming) {
    m.origin == Destination && m.message.State?
  }

  /** The destination states among `ms`, in arrival order. */
  function DestinationStatesIn(ms: seq<Incoming>): seq<StateMessage> {
    if |ms| == 0 then []
    else DestinationStatesIn(ms[..|ms| - 1]) + (if IsDestinationState(ms[|ms| - 1]) then [ms[|ms| - 1].message.state] else [])
  }

  /** The stats-tracker calls one message is owed, by kind and origin. */
  function StatsCallsFor(m: Incoming): seq<StatsCall> {
    match m.message
    case Record(record) => if m.origin == Source then [UpdateStats(record)] else []
    case State(state) =>
      if m.origin == Source then [UpdateSourceStatesStats(state)] else [UpdateDestinationStateStats(state)]
    case Trace(trace) => if trace.traceType == Estimate then [UpdateEstimates(trace)] else []
    case _ => []
  }

  /** The message is an error trace from `origin`. */
  predicate IsErrorFrom(m: Incoming, origin: Origin) {
    m.origin == origin && m.message.Trace? && m.message.trace.traceType == Error
  }

  /** The error traces among `ms` from `origin`, in arrival order. */
  function ErrorTracesIn(ms: seq<Incoming>, origin: Origin): seq<TraceMessage> {
    if |ms| == 0 then []
    else ErrorTracesIn(ms[..|ms| - 1], origin)
         + (if IsErrorFrom(ms[|ms| - 1], origin) then [ms[|ms| - 1].message.trace] else [])
  }

  /** The tracker's error list is exactly the origin's error traces, in arrival order. */
  lemma {:induction false} RunCollectsErrorTraces(t: Tracker, ms: seq<Incoming>, origin: Origin)
    ensures ErrorTraces(Run(t, ms), origin) == ErrorTraces(t, origin) + ErrorTracesIn(ms, origin)
  {
    if |ms| > 0 {
      RunCollectsErrorTraces(t, ms[..|ms| - 1], origin);
      AcceptRouting(Run(t, ms[..|ms| - 1]), ms[|ms| - 1]);
    }
  }

  /** The first error trace an origin sent, as `getFirstSourceErrorTraceMessage` and
      `getFirstDestinationErrorTraceMessage` return it (`None` for null). */
  function FirstErrorTrace(t: Tracker, origin: Origin): (r: Option<TraceMessage>)
    ensures r.None? <==> |ErrorTraces(t, origin)| == 0
    ensures r.Some? ==> r.value == ErrorTraces(t, origin)[0]
  {
    var errors := ErrorTraces(t, origin);
    if |errors| == 0 then None else Some(errors[0])
  }

  /** Position `i` holds the earliest error trace from `origin`. */
  predicate IsEarliestError(ms: seq<Incoming>, origin: Origin, i: int) {
    0 <= i < |ms| && IsErrorFrom(ms[i], origin) && forall j :: 0 <= j < i ==> !IsErrorFrom(ms[j], origin)
  }

  lemma {:induction false} ErrorTracesInFirst(ms: seq<Incoming>, origin: Origin)
    ensures |ErrorTracesIn(ms, origin)| == 0 <==> forall i :: 0 <= i < |ms| ==> !IsErrorFrom(ms[i], origin)
    ensures |ErrorTracesIn(ms, origin)| > 0 ==>
              exists i :: IsEarliestError(ms, origin, i) && ErrorTracesIn(ms, origin)[0] == ms[i].message.trace
  {
    if |ms| > 0 {
      var init := ms[..|ms| - 1];
      ErrorTracesInFirst(init, origin);
      assert forall i :: 0 <= i < |init| ==> init[i] == ms[i];
      if |ErrorTracesIn(init, origin)| > 0 {
        var i :| IsEarliestError(init, origin, i) && ErrorTracesIn(init, origin)[0] == init[i].message.trace;
        assert IsEarliestError(ms, origin, i);
      } else if IsErrorFrom(ms[|ms| - 1], origin) {
        assert IsEarliestError(ms, origin, |ms| - 1);
      }
    }
  }

  /** Starting from a fresh tracker, the first-error getter returns the earliest
      error trace its origin sent, and null when it sent none. */
  lemma FirstErrorIsEarliest(ms: seq<Incoming>, origin: Origin)
    ensures FirstErrorTrace(Run(Initial, ms), origin).None? <==> forall i :: 0 <= i < |ms| ==> !IsErrorFrom(ms[i], origin)
    ensures FirstErrorTrace(Run(Initial, ms), origin).Some? ==>
              exists i :: IsEarliestError(ms, origin, i) && FirstErrorTrace(Run(Initial, ms), origin).value == ms[i].message.trace
  {
    RunCollectsErrorTraces(Initial, ms, origin);
    ErrorTracesInFirst(ms, origin);
    assert ErrorTraces(Initial, origin) == [];
    assert ErrorTraces(Run(Initial, ms), origin) == ErrorTracesIn(ms, origin);
  }

  /** The failure attributed to a sync. */
  datatype FailureReason = FailureReason(origin: Origin, trace: TraceMessage, jobId: int, attempt: int)

  /** `errorTraceMessageFailure`: no failure without error traces; otherwise the
      side whose first error trace is earlier, the source winning a tie. */
  function ErrorTraceMessageFailure(t: Tracker, jobId: int, attempt: int): (r: Option<FailureReason>)
    ensures r.None? <==> |t.sourceErrorTraces| == 0 && |t.destinationErrorTraces| == 0
    ensures r.Some? ==> r.value.jobId == jobId && r.value.attempt == attempt
    ensures r.Some? ==> FirstErrorTrace(t, r.value.origin) == Some(r.value.trace)
    ensures r.Some? && r.value.origin == Source <==>
              |t.sourceErrorTraces| > 0 &&
              (|t.destinationErrorTraces| == 0 ||
               t.sourceErrorTraces[0].emittedAt <= t.destinationErrorTraces[0].emittedAt)
  {
    var sourceMessage := FirstErrorTrace(t, Source);
    var destinationMessage := FirstErrorTrace(t, Destination);
    if sourceMessage.None? && destinationMessage.None? then None
    else if destinationMessage.None? then Some(FailureReason(Source, sourceMessage.value, jobId, attempt))
    else if sourceMessage.None? then Some(FailureReason(Destination, destinationMessage.value, jobId, attempt))
    else if sourceMessage.value.emittedAt <= destinationMessage.value.emittedAt then
      Some(FailureReason(Source, sourceMessage.value, jobId, attempt))
    else Some(FailureReason(Destination, destinationMessage.value, jobId, attempt))
  }

  /** The blamed trace is emitted no later than either side's first error trace. */
  lemma FailureIsEarliestFirstError(t: Tracker, jobId: int, attempt: int, o: Origin)
    requires FirstErrorTrace(t, o).Some?
    ensures var r := ErrorTraceMessageFailure(t, jobId, attempt);
            r.Some? && r.value.trace.emittedAt <= FirstErrorTrace(t, o).value.emittedAt
  {
  }

  /** The source's last state message among `ms`, or `None` when it sent none. */
  function LastSourceState(ms: seq<Incoming>): Option<StateMessage> {
    if |ms| == 0 then None
    else if ms[|ms| - 1].origin == Source && ms[|ms| - 1].message.State? then Some(ms[|ms| - 1].message.state)
    else LastSourceState(ms[..|ms| - 1])
  }

  /** The source output state is empty until the source sends a state, and then
      holds the latest one. */
  lemma {:induction false} SourceOutputStateIsLatest(ms: seq<Incoming>)
    ensures Run(Initial, ms).sourceOutputState.None? <==> LastSourceState(ms).None?
    ensures LastSourceState(ms).Some? ==>
              Run(Initial, ms).sourceOutputState == Some(SourceOutput(LastSourceState(ms).value.data))
  {
    if |ms| > 0 {
      SourceOutputStateIsLatest(ms[..|ms| - 1]);
      AcceptRouting(Run(Initial, ms[..|ms| - 1]), ms[|ms| - 1]);
    }
  }

  /** The aggregator ingests exactly the destination states, in arrival order. */
  lemma {:induction false} AggregatorIngestsDestinationStates(t: Tracker, ms: seq<Incoming>)
    ensures Run(t, ms).aggregatorIngested == t.aggregatorIngested + DestinationStatesIn(ms)
  {
    if |ms| > 0 {
      var init := ms[..|ms| - 1];
      AggregatorIngestsDestinationStates(t, init);
      AcceptRouting(Run(t, init), ms[|ms| - 1]);
      assert [ms[|ms| - 1]][..0] == [];
    }
  }

  /** From a fresh tracker, the destination output state is empty until the
      destination sends a state, and then is the aggregate of all its states. */
  lemma {:induction false} DestinationOutputStateAggregatesAll(ms: seq<Incoming>)
    ensures Run(Initial, ms).destinationOutputState ==
              if |DestinationStatesIn(ms)| == 0 then None else Some(Aggregated(DestinationStatesIn(ms)))
  {
    if |ms| > 0 {
      var init := ms[..|ms| - 1];
      var last := ms[|ms| - 1];
      DestinationOutputStateAggregatesAll(init);
      AggregatorIngestsDestinationStates(Initial, ms);
      AcceptRouting(Run(Initial, init), last);
      assert [last][..0] == [];
      assert Run(Initial, ms) == Accept(Run(Initial, init), last);
      if IsDestinationState(last) {
        assert DestinationStatesIn(ms) == DestinationStatesIn(init) + [last.message.state];
        assert Initial.aggregatorIngested + DestinationStatesIn(ms) == DestinationStatesIn(ms);
        assert Run(Initial, ms).destinationOutputState == Some(Aggregated(Run(Initial, ms).aggregatorIngested));
      } else {
        assert DestinationStatesIn(ms) == DestinationStatesIn(init);
      }
    }
  }
}
