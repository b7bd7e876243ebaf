/** What the comparator of the live queue means for the client's flushes. */
module CursorOrder {
  import opened Shared
  import opened LiveCursor
  import opened LiveOrder
  import opened CursorMachine
  import opened CursorSafety
  import opened CursorProgress

  // ---------------------------------------------------------------------------
  // A flush is safe exactly when nothing in the queue crosses
  // ---------------------------------------------------------------------------

  /** Whatever the sort returns, a flush hands on or keeps every queued number. */
  ghost predicate FlushIsSafe(s: Refs) {
    forall ordered | MaySort(s.pending, ordered) && |ordered| == |s.pending| :: NothingLost(s, Flush(s, ordered))
  }

  lemma OrderedIsInOrder(s: Refs, ordered: seq<Envelope>)
    requires Inv(s) && multiset(ordered) == multiset(s.pending) && InCompareOrder(ordered)
    ensures InOrder(s, ordered)
  {
    var cut := Min(MAX_BATCH, |ordered|);
    OrderedNumbers(ordered);
    DurablesPermute(s.pending, ordered);
    DistinctPermutation(Durables(s.pending), Durables(ordered));
    DistinctAscends(Durables(ordered));
    if Durables(ordered) != [] { PermutationMembers(Durables(s.pending), Durables(ordered), Durables(ordered)[0]); }
    CutDurables(ordered, cut);
    PartsFollow(Durables(ordered[..cut]), Durables(ordered[cut..]), s.lastApplied);
  }

  lemma UncrossedIsSafe(s: Refs, ordered: seq<Envelope>)
    requires Inv(s) && !Crossed(s.pending) && MaySort(s.pending, ordered) && |ordered| == |s.pending|
    ensures NothingLost(s, Flush(s, ordered))
  {
    if s.pending != [] {
      OrderIff(s.pending);
      OrderedIsInOrder(s, ordered);
      FlushLosesNothingIff(s, ordered);
    }
  }

  lemma PullOut(queue: seq<Envelope>, a: Envelope) returns (rest: seq<Envelope>)
    requires a in queue
    ensures multiset(queue) == multiset{a} + multiset(rest)
  {
    var i :| 0 <= i < |queue| && queue[i] == a;
    TakeOut(queue, i);
    rest := queue[..i] + queue[i + 1..];
    assert a in multiset(queue);
  }

  lemma BringForward(queue: seq<Envelope>, a: Envelope, b: Envelope) returns (rest: seq<Envelope>)
    requires a in queue && b in queue && a != b
    ensures multiset([a, b] + rest) == multiset(queue)
  {
    var without := PullOut(queue, a);
    assert b in multiset(without) by { assert b in multiset(queue); }
    rest := PullOut(without, b);
  }

  lemma TwoFirst(a: Envelope, b: Envelope, rest: seq<Envelope>)
    requires Classify(a).Durable? && Classify(b).Durable?
    ensures Durables([a, b] + rest) == [Classify(a).seqNo, Classify(b).seqNo] + Durables(rest)
  {
    DurablesSnoc([], a);
    DurablesSnoc([a], b);
    assert [] + [a] == [a] && [a] + [b] == [a, b];
    DurablesConcat([a, b], rest);
  }

  lemma FirstTwoDescend(s: Refs, high: Envelope, low: Envelope, rest: seq<Envelope>)
    requires Classify(high).Durable? && Classify(low).Durable? && DurableNumber(low) < DurableNumber(high)
    ensures !InOrder(s, [high, low] + rest)
  {
    var ordered := [high, low] + rest;
    var cut := Min(MAX_BATCH, |ordered|);
    assert ordered[..cut] == [high, low] + rest[..cut - 2];
    TwoFirst(high, low, rest[..cut - 2]);
    var d := Durables(ordered[..cut]);
    assert d[0] > d[1];
  }

  lemma NumbersDiffer(queue: seq<Envelope>, a: Envelope, b: Envelope, rest: seq<Envelope>)
    requires Classify(a).Durable? && Classify(b).Durable? && Distinct(Durables(queue))
    requires multiset([a, b] + rest) == multiset(queue)
    ensures DurableNumber(a) != DurableNumber(b)
  {
    var numbers := Durables([a, b] + rest);
    TwoFirst(a, b, rest);
    DurablesPermute(queue, [a, b] + rest);
    DistinctPermutation(Durables(queue), numbers);
    assert numbers[0] != numbers[1];
  }

  /** A crossing leaves the sort free to put the higher number first. */
  lemma CrossedLoses(s: Refs)
    requires Inv(s) && Crossed(s.pending)
    ensures !FlushIsSafe(s)
  {
    var low, high, f :| low in s.pending && high in s.pending && f in s.pending && Crosses(low, high, f);
    var rest := BringForward(s.pending, high, low);
    var ordered := [high, low] + rest;
    SameLength(s.pending, ordered);
    OrderIff(s.pending);
    NumbersDiffer(s.pending, high, low, rest);
    FirstTwoDescend(s, high, low, rest);
    FlushLosesNothingIff(s, ordered);
    assert MaySort(s.pending, ordered);
  }

  /** A flush is safe whatever the sort exactly when no two durable envelopes in the queue have
      times that run against their numbers around a best-effort one. */
  lemma FlushIsSafeIff(s: Refs)
    requires Inv(s)
    ensures FlushIsSafe(s) <==> !Crossed(s.pending)
  {
    if Crossed(s.pending) {
      CrossedLoses(s);
    } else {
      forall ordered | MaySort(s.pending, ordered) && |ordered| == |s.pending|
        ensures NothingLost(s, Flush(s, ordered))
      {
        UncrossedIsSafe(s, ordered);
      }
    }
  }

  // ---------------------------------------------------------------------------
  // Runs with times in number order
  // ---------------------------------------------------------------------------

  function Delivered(steps: seq<Step>): seq<Envelope> {
    if steps == [] then []
    else
      var init, last := Delivered(steps[..|steps| - 1]), steps[|steps| - 1];
      if last.Socket? && last.message.LiveEvent? then init + [last.message.envelope] else init
  }

  ghost predicate Among(pending: seq<Envelope>, known: seq<Envelope>) { forall m | m in pending :: m in known }

  lemma BackfillPending(s: Refs, n: int)
    ensures Backfill(s, n).pending == s.pending
  {
  }

  lemma EnqueuePending(s: Refs, m: Envelope)
    ensures Among(Enqueue(s, m).pending, s.pending + [m])
  {
  }

  lemma ReceivePending(s: Refs, m: Message)
    ensures Among(Receive(s, m).pending, s.pending + if m.LiveEvent? then [m.envelope] else [])
  {
    if m.LiveEvent? {
      var inbound := if m.observedSeq > 0 then Max(s.latestInbound, m.observedSeq) else s.latestInbound;
      EnqueuePending(s.(latestInbound := inbound, latestObserved := Max(s.latestObserved, m.observedSeq)), m.envelope);
    }
  }

  lemma LoopHeadPending(s: Refs)
    ensures LoopHead(s).pending == s.pending
  {
  }

  lemma ResultPending(s: Refs, r: Outcome)
    requires s.recovery.Fetching?
    ensures Among(Recovered(s, r).pending, s.pending)
  {
    if s.recovery.origin != s.generation {
      var again := if s.recovery.requested.Some? then s.recovery.requested.value else s.latestObserved;
      LoopHeadPending(s.(queuedTarget := Max(s.queuedTarget, again)));
    } else if r.status.CaughtUp? || r.status.Empty? {
      RetainedAreOld(s.pending, Max(s.lastApplied, r.cursor));
      var c := if r.status.CaughtUp? then RaiseCursor(s, Max(s.lastApplied, r.cursor)) else s;
      LoopHeadPending(c.(latestObserved := Max(c.latestObserved, r.latestSeq)));
    }
  }

  lemma PagePending(s: Refs, events: seq<int>)
    requires s.recovery.Fetching?
    ensures Among(ApplyPage(s, events).pending, s.pending)
  {
    RetainedAreOld(s.pending, ApplyPage(s, events).lastApplied);
  }

  lemma FetchedPending(s: Refs, n: nat)
    ensures Among(RefreshDone(s, n).pending, s.pending)
  {
  }

  /** A step leaves in the queue only what was there or is being delivered. */
  lemma StepPending(s: Refs, step: Step)
    requires Enabled(s, step)
    ensures Among(Do(s, step).pending, s.pending + Delivered([step]))
  {
    assert [step][..0] == [] && Delivered([]) == [];
    match step
    case Socket(m) => ReceivePending(s, m);
    case Frame(ordered) => FlushPending(s, ordered);
    case Page(events) => PagePending(s, events);
    case Result(outcome) => ResultPending(s, outcome);
    case Failure =>
    case Settled => BackfillPending(s.(recovery := Idle), s.queuedTarget);
    case Poll(n) => BackfillPending(s, n);
    case RefreshTimer =>
    case Fetched(n) => FetchedPending(s, n);
    case Hydrate(n, stateSeq, same) =>
    case Render(n) =>
  }

  lemma FlushPending(s: Refs, ordered: seq<Envelope>)
    requires MaySort(s.pending, ordered)
    ensures |ordered| == |s.pending| && Among(Flush(s, ordered).pending, s.pending)
  {
    SameLength(s.pending, ordered);
    var cut := Min(MAX_BATCH, |ordered|);
    var t := Flush(s, ordered);
    RetainedAreOld(ordered[cut..], t.lastApplied);
    forall m | m in t.pending ensures m in s.pending {
      if m in ordered[cut..] { PermutationMembers(s.pending, ordered, m); }
    }
  }

  /** A step leaves the queue among envelopes that hold it and what is being delivered. */
  lemma StaysAmong(s: Refs, step: Step, t: Refs, all: seq<Envelope>)
    requires Leads(s, step, t) && Among(s.pending, all) && Among(Delivered([step]), all)
    ensures Among(t.pending, all)
  {
    StepPending(s, step);
  }

  lemma {:induction false} PendingWasDelivered(states: seq<Refs>, steps: seq<Step>, k: nat)
    requires Run(states, steps) && states[0].pending == [] && k < |states|
    ensures Among(states[k].pending, Delivered(steps))
  {
    if k > 0 {
      PendingWasDelivered(states, steps, k - 1);
      assert Leads(states[k - 1], steps[k - 1], states[k - 1 + 1]);
      DeliveredAt(steps, k - 1);
      StaysAmong(states[k - 1], steps[k - 1], states[k], Delivered(steps));
    }
  }

  lemma {:induction false} DeliveredAt(steps: seq<Step>, k: nat)
    requires k < |steps|
    ensures Among(Delivered([steps[k]]), Delivered(steps))
  {
    assert [steps[k]][..0] == [] && Delivered([]) == [];
    if k < |steps| - 1 { DeliveredAt(steps[..|steps| - 1], k); }
  }

  /** When the times of the delivered durable events run with their numbers, no frame of any run
      loses a queued number, whatever best-effort events come between and however they sort. */
  lemma StampedRunLosesNothing(states: seq<Refs>, steps: seq<Step>, k: nat)
    requires Run(states, steps) && Inv(states[0]) && states[0].pending == [] && StampedInOrder(Delivered(steps))
    requires k < |steps| && steps[k].Frame?
    ensures NothingLost(states[k], states[k + 1])
  {
    RunKeepsInv(states, steps, k);
    PendingWasDelivered(states, steps, k);
    assert Leads(states[k], steps[k], states[k + 1]);
    SameLength(states[k].pending, steps[k].ordered);
    assert StampedInOrder(states[k].pending);
    StampedNeverCross(states[k].pending);
    UncrossedIsSafe(states[k], steps[k].ordered);
  }

  // ---------------------------------------------------------------------------
  // A run that loses a number
  // ---------------------------------------------------------------------------

  function BestEffort(at: int): Envelope { Envelope(Absent, 0, at, "") }

  function Stamped(n: int, at: int): Envelope { Envelope(Number(n), n, at, "") }

  function LossyQueue(): seq<Envelope> {
    [BestEffort(7), BestEffort(8), Stamped(1, 10), BestEffort(9), Stamped(2, 5)]
  }

  function LossyOrder(): seq<Envelope> {
    [Stamped(2, 5), BestEffort(7), BestEffort(8), BestEffort(9), Stamped(1, 10)]
  }

  /** The engine keeps the ascending run of three and inserts the others among it. */
  lemma EngineSortsLossy()
    ensures EngineSort(LossyQueue()) == LossyOrder()
  {
    var q := LossyQueue();
    assert Compare(q[1], q[0]) == 1 && Compare(q[2], q[1]) == 2 && Compare(q[3], q[2]) == -1;
    assert RunLength(q, 3) == 3;
    assert RunLength(q, 1) == 3;
    var run := [q[0], q[1], q[2]];
    assert q[..3] == run && q[3..] == [q[3], q[4]];
    PlaceThird();
    PlaceFirst();
    assert [q[3], q[4]][1..] == [q[4]] && [q[4]][1..] == [];
  }

  lemma PlaceThird()
    ensures var s := [BestEffort(7), BestEffort(8), Stamped(1, 10)];
            && SearchPlace(s, BestEffort(9), 0, 3) == 2
            && InsertAt(s, 2, BestEffort(9)) == [BestEffort(7), BestEffort(8), BestEffort(9), Stamped(1, 10)]
  {
    var s := [BestEffort(7), BestEffort(8), Stamped(1, 10)];
    assert SearchPlace(s, BestEffort(9), 2, 2) == 2;
    assert SearchPlace(s, BestEffort(9), 2, 3) == 2;
  }

  lemma PlaceFirst()
    ensures var s := [BestEffort(7), BestEffort(8), BestEffort(9), Stamped(1, 10)];
            SearchPlace(s, Stamped(2, 5), 0, 4) == 0 && InsertAt(s, 0, Stamped(2, 5)) == LossyOrder()
  {
    var s := [BestEffort(7), BestEffort(8), BestEffort(9), Stamped(1, 10)];
    assert SearchPlace(s, Stamped(2, 5), 0, 0) == 0;
    assert SearchPlace(s, Stamped(2, 5), 0, 1) == 0;
    assert SearchPlace(s, Stamped(2, 5), 0, 2) == 0;
  }

  lemma LossySort()
    ensures !IsOrderOn(LossyQueue()) && MaySort(LossyQueue(), LossyOrder())
  {
    var q := LossyQueue();
    assert Crosses(q[2], q[4], q[3]);
    assert q[2] in q && q[4] in q && q[3] in q;
    OrderIff(q);
  }

  function LossySteps(): seq<Step> {
    var q := LossyQueue();
    [Socket(LiveEvent(0, q[0])), Socket(LiveEvent(0, q[1])), Socket(LiveEvent(1, q[2])), Socket(LiveEvent(0, q[3])),
     Socket(LiveEvent(2, q[4])), Frame(LossyOrder())]
  }

  function Holding(n: nat, observed: int): Refs
    requires n <= 5
  {
    Initial().(pending := LossyQueue()[..n], lastQueued := observed, latestObserved := observed,
               latestInbound := observed)
  }

  function Lossy(): Refs {
    Holding(5, 2).(pending := [], lastApplied := 2, seen := History(0, [2], {}))
  }

  function LossyStates(): seq<Refs> {
    [Holding(0, 0), Holding(1, 0), Holding(2, 0), Holding(3, 1), Holding(4, 1), Holding(5, 2), Lossy()]
  }

  lemma Arrivals()
    ensures var q := LossyQueue();
            && Leads(Holding(0, 0), Socket(LiveEvent(0, q[0])), Holding(1, 0))
            && Leads(Holding(1, 0), Socket(LiveEvent(0, q[1])), Holding(2, 0))
            && Leads(Holding(2, 0), Socket(LiveEvent(1, q[2])), Holding(3, 1))
            && Leads(Holding(3, 1), Socket(LiveEvent(0, q[3])), Holding(4, 1))
            && Leads(Holding(4, 1), Socket(LiveEvent(2, q[4])), Holding(5, 2))
  {
  }

  lemma LossyTake()
    ensures var b := Take(LossyOrder(), 0);
            b.cursor == 2 && !b.invalid && b.accepted == LossyOrder()[..4] && Durables(b.accepted) == [2]
  {
    var o := LossyOrder();
    var d, f := o[0], [o[1], o[2], o[3]];
    assert o[..4] == [d] + f;
    assert Take([], 0) == Batch([], 0, false, false);
    assert [d][..0] == [] && o[..5] == o;
    assert o[..1] == [d] && o[..2][..1] == o[..1] && o[..3][..2] == o[..2] && o[..4][..3] == o[..3];
    assert Take(o[..1], 0) == Batch(o[..1], 2, false, false);
    assert Take(o[..2], 0) == Batch(o[..2], 2, false, false);
    assert Take(o[..3], 0) == Batch(o[..3], 2, false, false);
    assert Take(o[..4], 0) == Batch(o[..4], 2, false, false);
    assert Durables(o[..1]) == [2];
    assert Durables(o[..2]) == [2];
    assert Durables(o[..3]) == [2];
  }

  lemma FlushLossy()
    ensures |LossyOrder()| == |Holding(5, 2).pending| == 5 && Flush(Holding(5, 2), LossyOrder()) == Lossy()
  {
    var o := LossyOrder();
    LossyTake();
    assert o[..5] == o && o[5..] == [];
    TakeLast(o[..4], o[4], 0);
    assert Retain([], 2) == [];
  }

  lemma TakeLast(init: seq<Envelope>, m: Envelope, c: int)
    ensures Take(init + [m], c) == TakeOne(Take(init, c), m)
  {
    assert (init + [m])[..|init|] == init;
  }

  lemma FrameLeads(s: Refs, ordered: seq<Envelope>, t: Refs)
    requires MaySort(s.pending, ordered) && |ordered| == |s.pending| && Flush(s, ordered) == t
    ensures Leads(s, Frame(ordered), t)
  {
  }

  lemma LossyFrame()
    ensures Leads(Holding(5, 2), Frame(LossyOrder()), Lossy())
  {
    LossySort();
    FlushLossy();
    assert LossyQueue()[..5] == LossyQueue();
    FrameLeads(Holding(5, 2), LossyOrder(), Lossy());
  }

  lemma LossyBegins()
    ensures Run(LossyStates()[..6], LossySteps()[..5])
  {
    Arrivals();
  }

  lemma LossyRuns()
    ensures |LossySteps()| == 6 && Run(LossyStates(), LossySteps())
  {
    LossyBegins();
    LossyFrame();
    RunSnoc(LossyStates()[..6], LossySteps()[..5], LossySteps()[5], Lossy());
    assert LossyStates() == LossyStates()[..6] + [Lossy()];
    assert LossySteps() == LossySteps()[..5] + [LossySteps()[5]];
  }

  lemma OneIsLost()
    ensures 1 in Durables(Holding(5, 2).pending) && !NothingLost(Holding(5, 2), Lossy())
  {
    LossyNumbers();
    assert 1 in [1, 2];
    assert 1 !in Lossy().seen.applied && Durables(Lossy().pending) == [];
  }

  /** From a fresh page, two durable events stamped against their numbers and three best-effort
      ones: the engine's sort puts number 2 first, the flush takes it and passes number 1 over.
      The machine rests without knowing: nothing is queued, asked for or under way. */
  lemma SortLosesANumber() returns (states: seq<Refs>, steps: seq<Step>)
    ensures |steps| == 6 && Run(states, steps) && states[0] == Initial()
    ensures steps[5] == Frame(EngineSort(LossyQueue())) && states[5].pending == LossyQueue()
    ensures 1 in Durables(states[5].pending) && !NothingLost(states[5], states[6])
    ensures var last := states[6];
            && last.seen.applied == [2] && last.lastApplied == 2 && last.pending == []
            && last.recovery == Idle && last.queuedTarget == 0 && !last.queuedPoll && !last.resetActive
  {
    steps, states := LossySteps(), LossyStates();
    LossyRuns();
    EngineSortsLossy();
    LossyNumbers();
    OneIsLost();
  }

  lemma LossyNumbers()
    ensures LossyQueue()[..5] == LossyQueue() && Durables(LossyQueue()) == [1, 2]
    ensures Holding(0, 0) == Initial()
  {
    var q := LossyQueue();
    assert q[..5] == q && q[..0] == [];
    assert q[..5][..4] == q[..4] && q[..4][..3] == q[..3] && q[..3][..2] == q[..2] && q[..2][..1] == q[..1]
           && q[..1][..0] == [];
    assert Durables(q[..1]) == [];
    assert Durables(q[..2]) == [];
    assert Durables(q[..3]) == [1];
    assert Durables(q[..4]) == [1];
  }
}
