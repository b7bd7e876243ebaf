/** The client's cursor bookkeeping (web/src/App.tsx): refs and closure variables as fields, each
    callback as one atomic step on values. */
module CursorMachine {
  import opened Shared
  import opened Sorting
  import opened LiveCursor
  import opened LiveOrder

  /** Fetching covers a recovery from its start to its result, under the generation it started in;
      Ending is the moment before its final handler runs. */
  datatype Recovery = Idle | Fetching(origin: nat, requested: Option<int>) | Ending(failed: bool)

  datatype Status = CaughtUp | Empty | ResetRequired | UnrecoverableGap

  datatype Outcome = Outcome(status: Status, cursor: int, latestSeq: int)

  datatype Message =
    | Hello(observedSeq: int)
    | Pong(observedSeq: int)
    | Lagged(observedSeq: int, toSeq: int)
    | LiveEvent(observedSeq: int, envelope: Envelope)

  /** What was handed to the state since the last snapshot: the snapshot's number, the durable
      numbers in order, and under which generations recovery pages came. */
  datatype History = History(base: int, applied: seq<int>, origins: set<nat>)

  datatype Refs = Refs(
    pending: seq<Envelope>, lastApplied: int, lastQueued: int, latestObserved: int, latestInbound: int,
    generation: nat, epochReset: bool, resetActive: bool, refreshFloor: int, refreshIsReset: bool,
    queuedTarget: int, queuedPoll: bool, recovery: Recovery, seen: History)

  function Hand(h: History, numbers: seq<int>): History { h.(applied := h.applied + numbers) }

  // ---------------------------------------------------------------------------
  // The callbacks on values
  // ---------------------------------------------------------------------------

  function ClearQueue(s: Refs): Refs { s.(pending := [], lastQueued := s.lastApplied) }

  /** The head of the recovery loop: another round, or the end of it. */
  function LoopHead(s: Refs): Refs {
    if s.queuedPoll || s.queuedTarget > s.lastApplied
    then s.(recovery := Fetching(s.generation, if s.queuedTarget > 0 then Some(s.queuedTarget) else None),
            queuedTarget := 0, queuedPoll := false)
    else s.(recovery := Ending(false))
  }

  function Backfill(s: Refs, latestSeq: int): Refs {
    var target := PublicSequence(latestSeq);
    var q := if target > 0 then s.(queuedTarget := Max(s.queuedTarget, target)) else s.(queuedPoll := true);
    if !q.recovery.Idle? || q.resetActive then q else LoopHead(q)
  }

  function Enqueue(s: Refs, m: Envelope): Refs {
    var k := Classify(m);
    var target := Max(if k.Durable? then k.seqNo else 0, PublicSequence(m.latestSeq));
    if k.Invalid? then Backfill(ClearQueue(s), target)
    else if k.Durable? && s.resetActive then Backfill(s, target)
    else if k.Durable? && !ShouldQueue(k.seqNo, s.lastApplied, s.lastQueued) then s
    else if |s.pending| + 1 > MAX_PENDING then Backfill(ClearQueue(s), target)
    else
      var q := s.(pending := s.pending + [m]);
      if k.Durable? then q.(lastQueued := k.seqNo) else q
  }

  function Mentioned(m: Envelope): int {
    if PublicSequence(m.latestSeq) > 0 then PublicSequence(m.latestSeq)
    else if Classify(m).Durable? then Classify(m).seqNo else 0
  }

  function HighestMentioned(messages: seq<Envelope>, start: int): int {
    if messages == [] then start
    else Max(HighestMentioned(messages[..|messages| - 1], start), Mentioned(messages[|messages| - 1]))
  }

  function Highest(numbers: seq<int>, start: int): int {
    if numbers == [] then start else Max(Highest(numbers[..|numbers| - 1], start), numbers[|numbers| - 1])
  }

  function Flush(s: Refs, ordered: seq<Envelope>): Refs
    requires |ordered| == |s.pending|
  {
    if s.pending == [] then s
    else
      var cut := Min(MAX_BATCH, |ordered|);
      var batch := Take(ordered[..cut], s.lastApplied);
      if batch.invalid then Backfill(ClearQueue(s), HighestMentioned(ordered, s.latestObserved))
      else
        var a := if batch.accepted == [] then s
                 else s.(lastApplied := batch.cursor, seen := Hand(s.seen, Durables(batch.accepted)));
        a.(pending := Retain(ordered[cut..], a.lastApplied))
  }

  function RaiseCursor(s: Refs, cursor: int): Refs {
    var pending := Retain(s.pending, cursor);
    s.(lastApplied := cursor, pending := pending, lastQueued := Highest(Durables(pending), cursor))
  }

  /** A recovery page of event numbers reaches applyPage. */
  function ApplyPage(s: Refs, events: seq<int>): Refs
    requires s.recovery.Fetching?
  {
    var unapplied := SortBy(Less(), Beyond(events, s.lastApplied));
    if s.recovery.origin != s.generation || unapplied == [] then s
    else
      var seen := Hand(s.seen, unapplied);
      RaiseCursor(s, unapplied[|unapplied| - 1]).(seen := seen.(origins := seen.origins + {s.recovery.origin}))
  }

  function Refresh(s: Refs, minimumSeq: int, reset: bool): Refs {
    var q := if reset then s.(refreshFloor := Max(0, minimumSeq), refreshIsReset := true)
             else if !s.refreshIsReset then s.(refreshFloor := Max(s.refreshFloor, minimumSeq)) else s;
    q.(resetActive := q.refreshIsReset || q.refreshFloor > 0)
  }

  function BeginReset(s: Refs, serverLatest: int): Refs {
    var target := ResetTarget(serverLatest, s.lastApplied, s.latestInbound);
    Refresh(s.(epochReset := true, latestObserved := target, latestInbound := target, queuedTarget := target,
               queuedPoll := false, pending := [], lastQueued := target, resetActive := true), target, true)
  }

  function Recovered(s: Refs, r: Outcome): Refs
    requires s.recovery.Fetching?
  {
    if s.recovery.origin != s.generation then
      var again := if s.recovery.requested.Some? then s.recovery.requested.value else s.latestObserved;
      LoopHead(s.(queuedTarget := Max(s.queuedTarget, again)))
    else if r.status.ResetRequired? || r.status.UnrecoverableGap? then
      BeginReset(s, r.latestSeq).(recovery := Ending(false))
    else
      var c := if r.status.CaughtUp? then RaiseCursor(s, Max(s.lastApplied, r.cursor)) else s;
      LoopHead(c.(latestObserved := Max(c.latestObserved, r.latestSeq)))
  }

  function RecoveryFailed(s: Refs): Refs
    requires s.recovery.Fetching?
  {
    var q := if s.recovery.requested.Some? then s.(queuedTarget := Max(s.queuedTarget, s.recovery.requested.value))
             else s.(queuedPoll := true);
    q.(recovery := Ending(true))
  }

  function Settle(s: Refs): Refs
    requires s.recovery.Ending?
  {
    var q := s.(recovery := Idle);
    if !s.recovery.failed && !q.resetActive && (q.queuedPoll || q.queuedTarget > q.lastApplied)
    then Backfill(q, q.queuedTarget) else q
  }

  function Install(s: Refs, snapshotSeq: nat): Refs {
    s.(latestObserved := Max(s.latestObserved, snapshotSeq), latestInbound := Max(s.latestInbound, snapshotSeq),
       generation := s.generation + 1, pending := [], lastApplied := snapshotSeq, lastQueued := snapshotSeq,
       seen := History(snapshotSeq, [], {}))
  }

  /** applyPublicSnapshot, without a floor from first hydration or with one from a refresh. */
  function ApplySnapshot(s: Refs, snapshotSeq: nat, floor: Option<int>, stateSeq: int, sameSignature: bool): Refs {
    var required := if floor.Some? then Max(0, floor.value) else Max(PublicSequence(stateSeq), s.latestObserved);
    if snapshotSeq < required || (floor.None? && sameSignature) then s else Install(s, snapshotSeq)
  }

  function RefreshDone(s: Refs, snapshotSeq: nat): Refs {
    if snapshotSeq < s.refreshFloor then s
    else
      var q := ApplySnapshot(s, snapshotSeq, Some(s.refreshFloor), 0, false);
      Backfill(q.(refreshFloor := 0, refreshIsReset := false, resetActive := false, epochReset := false),
               q.latestObserved)
  }

  function Receive(s: Refs, m: Message): Refs {
    var inbound := if m.Hello? then m.observedSeq
                   else if m.observedSeq > 0 then Max(s.latestInbound, m.observedSeq) else s.latestInbound;
    var q := s.(latestInbound := inbound, latestObserved := Max(s.latestObserved, m.observedSeq));
    match m
    case Hello(n) => Backfill(q, if HelloNeedsProbe(n, q.lastApplied) then 0 else n)
    case Pong(_) => q
    case Lagged(n, toSeq) => Backfill(ClearQueue(q), Max(n, PublicSequence(toSeq)))
    case LiveEvent(_, e) => Enqueue(q, e)
  }

  function Rendered(s: Refs, stateSeq: int): Refs {
    if s.epochReset then s else s.(latestObserved := Max(s.latestObserved, PublicSequence(stateSeq)))
  }

  function Initial(): Refs {
    Refs([], 0, 0, 0, 0, 0, false, false, 0, false, 0, false, Idle, History(0, [], {}))
  }
}
