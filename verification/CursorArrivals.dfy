/** Live events whose numbers arrive increasing are never dropped above the cursor. */
module CursorArrivals {
  import opened Shared
  import opened LiveCursor
  import opened LiveOrder
  import opened CursorMachine
  import opened CursorSafety
  import opened CursorOrder
  import opened CursorCallbacks

  /** Outside a reset, the queue's cursor is at the applied one or at a number delivered so far. */
  predicate QueuedAtMost(s: Refs, top: int) { s.resetActive || s.lastQueued <= Max(s.lastApplied, top) }

  /** The highest number delivered after one more step. */
  function TopAfter(top: int, step: Step): int { Highest(Durables(Delivered([step])), top) }

  lemma {:induction false} HighestAtMost(s: seq<int>, start: int, b: int)
    requires start <= b && forall n | n in s :: n <= b
    ensures Highest(s, start) <= b
  {
    if s != [] {
      var init := s[..|s| - 1];
      assert s[|s| - 1] in s;
      forall n | n in init ensures n <= b { assert n in s; }
      HighestAtMost(init, start, b);
    }
  }

  lemma BackfillQueued(s: Refs, n: int)
    ensures var t := Backfill(s, n);
            t.resetActive == s.resetActive && t.lastQueued == s.lastQueued && t.lastApplied == s.lastApplied
  {
  }

  lemma EnqueueQueued(s: Refs, m: Envelope, top: int)
    requires QueuedAtMost(s, top)
    ensures QueuedAtMost(Enqueue(s, m), if Classify(m).Durable? then Max(top, Classify(m).seqNo) else top)
  {
    var target := Max(if Classify(m).Durable? then Classify(m).seqNo else 0, PublicSequence(m.latestSeq));
    BackfillQueued(s, target);
    BackfillQueued(ClearQueue(s), target);
  }

  lemma OneDelivered(step: Step, top: int)
    ensures TopAfter(top, step) ==
            if step.Socket? && step.message.LiveEvent? && Classify(step.message.envelope).Durable?
            then Max(top, Classify(step.message.envelope).seqNo) else top
  {
    assert [step][..0] == [] && Delivered([]) == [] && Durables([]) == [];
    if step.Socket? && step.message.LiveEvent? {
      var e := step.message.envelope;
      assert [] + [e] == [e];
      DurablesSnoc([], e);
      if Classify(e).Durable? { HighestOne(Classify(e), top); }
    }
  }

  lemma HighestOne(k: Kind, top: int)
    requires k.Durable?
    ensures Highest([k.seqNo], top) == Max(top, k.seqNo)
  {
    assert [k.seqNo][..0] == [] && Highest([], top) == top;
  }

  lemma ReceiveQueued(s: Refs, m: Message, top: int)
    requires QueuedAtMost(s, top)
    ensures QueuedAtMost(Receive(s, m), TopAfter(top, Socket(m)))
  {
    OneDelivered(Socket(m), top);
    var q := Noticed(s, m);
    match m
    case Hello(n) => BackfillQueued(q, if HelloNeedsProbe(n, q.lastApplied) then 0 else n);
    case Pong(_) =>
    case Lagged(n, toSeq) => BackfillQueued(ClearQueue(q), Max(n, PublicSequence(toSeq)));
    case LiveEvent(_, e) => EnqueueQueued(q, e, top);
  }

  lemma RaiseQueued(s: Refs, cursor: int, top: int)
    requires Inv(s) && !s.resetActive && s.lastApplied <= cursor <= MAX_SAFE && QueuedAtMost(s, top)
    ensures QueuedAtMost(RaiseCursor(s, cursor), top)
  {
    RaiseKeeps(s, cursor);
    BeyondMembers(Durables(s.pending), cursor);
    HighestAtMost(Durables(RaiseCursor(s, cursor).pending), cursor, Max(cursor, top));
  }

  lemma FrameQueued(s: Refs, ordered: seq<Envelope>, top: int)
    requires Inv(s) && MaySort(s.pending, ordered) && |ordered| == |s.pending| && QueuedAtMost(s, top)
    ensures QueuedAtMost(Flush(s, ordered), top)
  {
    if s.pending != [] {
      FlushNumbers(s, ordered);
      FlushKeepsApplied(s, ordered);
    }
  }

  lemma PageQueued(s: Refs, events: seq<int>, top: int)
    requires Inv(s) && s.recovery.Fetching? && Follows(events, 0) && LastOr(events, 0) <= MAX_SAFE
    requires QueuedAtMost(s, top)
    ensures QueuedAtMost(ApplyPage(s, events), top)
  {
    var unapplied := Beyond(events, s.lastApplied);
    PageNumbers(s, events);
    if s.recovery.origin == s.generation && unapplied != [] {
      FollowsWithin(unapplied, s.lastApplied);
      RaiseQueued(s, LastOr(unapplied, s.lastApplied), top);
    }
  }

  lemma LoopHeadQueued(s: Refs)
    ensures var t := LoopHead(s);
            t.resetActive == s.resetActive && t.lastQueued == s.lastQueued && t.lastApplied == s.lastApplied
  {
  }

  lemma ResultQueued(s: Refs, r: Outcome, top: int)
    requires Inv(s) && s.recovery.Fetching? && r.cursor <= MAX_SAFE && QueuedAtMost(s, top)
    ensures QueuedAtMost(Recovered(s, r), top)
  {
    if s.recovery.origin != s.generation {
      var again := if s.recovery.requested.Some? then s.recovery.requested.value else s.latestObserved;
      LoopHeadQueued(s.(queuedTarget := Max(s.queuedTarget, again)));
    } else if r.status.CaughtUp? || r.status.Empty? {
      RaiseQueued(s, Max(s.lastApplied, r.cursor), top);
      var c := if r.status.CaughtUp? then RaiseCursor(s, Max(s.lastApplied, r.cursor)) else s;
      LoopHeadQueued(c.(latestObserved := Max(c.latestObserved, r.latestSeq)));
    }
  }

  lemma FetchedQueued(s: Refs, n: nat, top: int)
    requires Inv(s) && QueuedAtMost(s, top)
    ensures QueuedAtMost(RefreshDone(s, n), top)
  {
    if n >= s.refreshFloor {
      var q := Install(s, n).(refreshFloor := 0, refreshIsReset := false, resetActive := false, epochReset := false);
      BackfillQueued(q, q.latestObserved);
    }
  }

  lemma StepQueued(s: Refs, step: Step, top: int)
    requires Inv(s) && Enabled(s, step) && QueuedAtMost(s, top)
    ensures QueuedAtMost(Do(s, step), TopAfter(top, step))
  {
    OneDelivered(step, top);
    match step
    case Socket(m) => ReceiveQueued(s, m, top);
    case Frame(ordered) => SameLength(s.pending, ordered); FrameQueued(s, ordered, top);
    case Page(events) => PageQueued(s, events, top);
    case Result(outcome) => ResultQueued(s, outcome, top);
    case Failure =>
    case Settled => BackfillQueued(s.(recovery := Idle), s.queuedTarget);
    case Poll(n) => BackfillQueued(s, n);
    case RefreshTimer =>
    case Fetched(n) => FetchedQueued(s, n, top);
    case Hydrate(n, stateSeq, same) =>
    case Render(n) =>
  }

  lemma HighestSnoc(steps: seq<Step>, k: nat)
    requires k < |steps|
    ensures Highest(Durables(Delivered(steps[..k + 1])), 0) ==
            TopAfter(Highest(Durables(Delivered(steps[..k])), 0), steps[k])
  {
    var before, step := Delivered(steps[..k]), steps[k];
    assert steps[..k + 1][..k] == steps[..k];
    OneDelivered(step, Highest(Durables(before), 0));
    if step.Socket? && step.message.LiveEvent? {
      DurablesSnoc(before, step.message.envelope);
      var d := Durables(before + [step.message.envelope]);
      if Classify(step.message.envelope).Durable? { assert d[..|d| - 1] == Durables(before); }
    }
  }

  lemma {:induction false} RunQueued(states: seq<Refs>, steps: seq<Step>, k: nat)
    requires Run(states, steps) && Inv(states[0]) && QueuedAtMost(states[0], 0) && k < |states|
    ensures Inv(states[k]) && QueuedAtMost(states[k], Highest(Durables(Delivered(steps[..k])), 0))
  {
    if k > 0 {
      RunQueued(states, steps, k - 1);
      assert Leads(states[k - 1], steps[k - 1], states[k - 1 + 1]);
      StepKeepsInv(states[k - 1], steps[k - 1]);
      StepQueued(states[k - 1], steps[k - 1], Highest(Durables(Delivered(steps[..k - 1])), 0));
      HighestSnoc(steps, k - 1);
    } else {
      assert steps[..0] == [] && Delivered([]) == [] && Durables([]) == [];
    }
  }

  /** In every run from a fresh page, a delivered number above the cursor and above every number
      delivered before it is queued or asked for. */
  lemma IncreasingArrivalIsKept(states: seq<Refs>, steps: seq<Step>, k: nat, m: Envelope)
    requires Run(states, steps) && Inv(states[0]) && QueuedAtMost(states[0], 0) && k < |steps|
    requires steps[k].Socket? && steps[k].message.LiveEvent? && m == steps[k].message.envelope && Classify(m).Durable?
    requires Classify(m).seqNo > states[k].lastApplied
    requires forall n | n in Durables(Delivered(steps[..k])) :: n < Classify(m).seqNo
    ensures Classify(m).seqNo in Durables(states[k + 1].pending) || AskedFor(states[k + 1], Classify(m).seqNo)
  {
    var s, n := states[k], Classify(m).seqNo;
    RunQueued(states, steps, k);
    assert Leads(s, steps[k], states[k + 1]);
    HighestAtMost(Durables(Delivered(steps[..k])), 0, n - 1);
    EventMeans(s, steps[k].message);
  }
}
