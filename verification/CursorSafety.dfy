/** What every run of the client's cursor machine keeps. */
module CursorSafety {
  import opened Shared
  import opened Sorting
  import opened LiveCursor
  import opened LiveOrder
  import opened CursorMachine

  datatype Step =
    | Socket(message: Message)
    | Frame(ordered: seq<Envelope>)
    | Page(events: seq<int>)
    | Result(outcome: Outcome)
    | Failure
    | Settled
    | Poll(latestSeq: int)
    | RefreshTimer
    | Fetched(snapshotSeq: nat)
    | Hydrate(snapshotSeq: nat, stateSeq: int, sameSignature: bool)
    | Render(stateSeq: int)

  /** Pages carry ascending event numbers, as the server's log does. */
  predicate Enabled(s: Refs, step: Step) {
    match step
    case Frame(ordered) => MaySort(s.pending, ordered)
    case Page(events) => s.recovery.Fetching? && Follows(events, 0) && LastOr(events, 0) <= MAX_SAFE
    case Result(outcome) => s.recovery.Fetching? && outcome.cursor <= MAX_SAFE
    case Failure => s.recovery.Fetching?
    case Settled => s.recovery.Ending?
    case Fetched(n) => n <= MAX_SAFE
    case Hydrate(n, _, _) => n <= MAX_SAFE
    case _ => true
  }

  function Do(s: Refs, step: Step): Refs
    requires Enabled(s, step)
  {
    match step
    case Socket(m) => Receive(s, m)
    case Frame(ordered) => SameLength(s.pending, ordered); Flush(s, ordered)
    case Page(events) => ApplyPage(s, events)
    case Result(outcome) => Recovered(s, outcome)
    case Failure => RecoveryFailed(s)
    case Settled => Settle(s)
    case Poll(n) => Backfill(s, n)
    case RefreshTimer => Refresh(s, s.refreshFloor, false)
    case Fetched(n) => RefreshDone(s, n)
    case Hydrate(n, stateSeq, same) => ApplySnapshot(s, n, None, stateSeq, same)
    case Render(n) => Rendered(s, n)
  }

  // ---------------------------------------------------------------------------
  // The invariant
  // ---------------------------------------------------------------------------

  /** What was applied since the snapshot increases from the snapshot's number up to the cursor,
      and came from no page of an older generation. */
  ghost predicate AppliedOk(s: Refs) {
    && 0 <= s.seen.base <= s.lastApplied <= MAX_SAFE
    && Follows(s.seen.applied, s.seen.base) && LastOr(s.seen.applied, s.seen.base) <= s.lastApplied
    && s.seen.origins <= {s.generation}
  }

  /** The queue holds each durable number once, all between the two cursors. */
  ghost predicate QueueOk(s: Refs) {
    && NoInvalid(s.pending) && |s.pending| <= MAX_PENDING
    && Distinct(Durables(s.pending)) && Within(Durables(s.pending), s.lastApplied, s.lastQueued)
  }

  /** During an epoch reset nothing durable is queued and no recovery runs. */
  ghost predicate ResetOk(s: Refs) {
    && s.resetActive == s.refreshIsReset && s.refreshFloor >= 0 && (s.refreshFloor > 0 ==> s.resetActive)
    && (s.resetActive ==> Durables(s.pending) == [] && !s.recovery.Fetching?)
    && (!s.resetActive ==> s.lastApplied <= s.lastQueued)
    && (s.recovery.Fetching? ==> s.recovery.origin <= s.generation)
  }

  ghost predicate Inv(s: Refs) { AppliedOk(s) && QueueOk(s) && ResetOk(s) }

  lemma BackfillKeeps(s: Refs, n: int)
    requires Inv(s)
    ensures Inv(Backfill(s, n))
  {
  }

  lemma QueueOne(s: Refs, m: Envelope)
    requires Inv(s) && |s.pending| < MAX_PENDING && !Classify(m).Invalid?
    requires Classify(m).Durable? ==> !s.resetActive && ShouldQueue(Classify(m).seqNo, s.lastApplied, s.lastQueued)
    ensures var q := s.(pending := s.pending + [m]);
            Inv(if Classify(m).Durable? then q.(lastQueued := Classify(m).seqNo) else q)
  {
    DurablesSnoc(s.pending, m);
    if Classify(m).Durable? {
      var n := Classify(m).seqNo;
      DistinctSnoc(Durables(s.pending), n);
    }
  }

  lemma EnqueueKeeps(s: Refs, m: Envelope)
    requires Inv(s)
    ensures Inv(Enqueue(s, m))
  {
    var k := Classify(m);
    var target := Max(if k.Durable? then k.seqNo else 0, PublicSequence(m.latestSeq));
    if k.Invalid? {
      BackfillKeeps(ClearQueue(s), target);
    } else if k.Durable? && s.resetActive {
      BackfillKeeps(s, target);
    } else if k.Durable? && !ShouldQueue(k.seqNo, s.lastApplied, s.lastQueued) {
    } else if |s.pending| + 1 > MAX_PENDING {
      BackfillKeeps(ClearQueue(s), target);
    } else {
      QueueOne(s, m);
    }
  }

  lemma ReceiveKeeps(s: Refs, m: Message)
    requires Inv(s)
    ensures Inv(Receive(s, m))
  {
    var inbound := if m.Hello? then m.observedSeq
                   else if m.observedSeq > 0 then Max(s.latestInbound, m.observedSeq) else s.latestInbound;
    var q := s.(latestInbound := inbound, latestObserved := Max(s.latestObserved, m.observedSeq));
    match m
    case Hello(n) => BackfillKeeps(q, if HelloNeedsProbe(n, q.lastApplied) then 0 else n);
    case Pong(_) =>
    case Lagged(n, toSeq) =>
      BackfillKeeps(ClearQueue(q), Max(n, PublicSequence(toSeq)));
    case LiveEvent(_, e) => EnqueueKeeps(q, e);
  }

  // ---------------------------------------------------------------------------
  // Flushing
  // ---------------------------------------------------------------------------

  lemma FollowsConcat(s: seq<int>, t: seq<int>, base: int, c: int)
    requires Follows(s, base) && LastOr(s, base) <= c && Follows(t, c)
    ensures Follows(s + t, base) && LastOr(s + t, base) <= LastOr(t, c)
  {
    FollowsWithin(s, base);
    FollowsWithin(t, c);
    forall i, j | 0 <= i < j < |s + t| ensures (s + t)[i] < (s + t)[j] {
      if i < |s| <= j { assert s[i] in s && t[j - |s|] in t; }
    }
  }

  lemma {:induction false} NoInvalidTaken(messages: seq<Envelope>, c: int)
    requires NoInvalid(messages)
    ensures !Take(messages, c).invalid
  {
    if messages != [] { NoInvalidTaken(messages[..|messages| - 1], c); }
  }

  lemma {:induction false} AllFallback(messages: seq<Envelope>, c: int)
    ensures Take(messages, c).accepted == [] ==> Take(messages, c).cursor == Max(0, c)
  {
    if messages != [] { AllFallback(messages[..|messages| - 1], c); }
  }

  lemma SortedIsValid(pending: seq<Envelope>, ordered: seq<Envelope>)
    requires multiset(ordered) == multiset(pending) && NoInvalid(pending)
    ensures NoInvalid(ordered)
  {
    forall m | m in ordered ensures !Classify(m).Invalid? { PermutationMembers(ordered, pending, m); }
  }

  lemma CutDurables(ordered: seq<Envelope>, cut: nat)
    requires cut <= |ordered|
    ensures Durables(ordered) == Durables(ordered[..cut]) + Durables(ordered[cut..])
  {
    assert ordered == ordered[..cut] + ordered[cut..];
    DurablesConcat(ordered[..cut], ordered[cut..]);
  }

  /** The sorted queue, cut after the batch: same numbers, each once. */
  lemma CutQueue(pending: seq<Envelope>, ordered: seq<Envelope>, cut: nat)
    requires multiset(ordered) == multiset(pending) && cut <= |ordered|
    requires NoInvalid(pending) && Distinct(Durables(pending))
    ensures var d, r := Durables(ordered[..cut]), Durables(ordered[cut..]);
            && NoInvalid(ordered[..cut])
            && Durables(ordered) == d + r && Distinct(d + r)
            && (forall n :: n in Durables(pending) <==> n in d || n in r)
  {
    var d, r := Durables(ordered[..cut]), Durables(ordered[cut..]);
    SortedIsValid(pending, ordered);
    CutDurables(ordered, cut);
    DurablesPermute(pending, ordered);
    DistinctPermutation(Durables(pending), d + r);
    forall n ensures n in Durables(pending) <==> n in d || n in r {
      PermutationMembers(Durables(pending), d + r, n);
    }
  }

  lemma DistinctTail(d: seq<int>, r: seq<int>)
    requires Distinct(d + r)
    ensures Distinct(d) && Distinct(r) && forall n | n in d :: n !in r
  {
    forall i, j | 0 <= i < j < |r| ensures r[i] != r[j] { assert (d + r)[|d| + i] != (d + r)[|d| + j]; }
    forall i, j | 0 <= i < j < |d| ensures d[i] != d[j] { assert (d + r)[i] != (d + r)[j]; }
    forall i, j | 0 <= i < |d| && 0 <= j < |r| ensures d[i] != r[j] {
      assert (d + r)[i] == d[i] && (d + r)[|d| + j] == r[j];
    }
  }

  /** A flush in numbers: the batch's numbers are taken increasingly from the cursor, what lies
      beyond the new cursor stays. */
  lemma FlushNumbers(s: Refs, ordered: seq<Envelope>)
    requires Inv(s) && multiset(ordered) == multiset(s.pending) && |ordered| == |s.pending| > 0
    ensures var cut := Min(MAX_BATCH, |ordered|);
            var t := Flush(s, ordered);
            var taken := Durables(Take(ordered[..cut], s.lastApplied).accepted);
            && t == s.(lastApplied := LastOr(taken, s.lastApplied), seen := Hand(s.seen, taken), pending := t.pending)
            && t.pending == Retain(ordered[cut..], t.lastApplied)
            && Follows(taken, s.lastApplied)
            && Durables(t.pending) == Beyond(Durables(ordered[cut..]), t.lastApplied)
  {
    var cut := Min(MAX_BATCH, |ordered|);
    CutQueue(s.pending, ordered, cut);
    NoInvalidTaken(ordered[..cut], s.lastApplied);
    TakenIncrease(ordered[..cut], s.lastApplied);
    AllFallback(ordered[..cut], s.lastApplied);
    var batch := Take(ordered[..cut], s.lastApplied);
    RetainedDurables(ordered[cut..], batch.cursor);
    if batch.accepted == [] { assert s.seen.applied + [] == s.seen.applied; }
  }

  lemma FlushKeepsApplied(s: Refs, ordered: seq<Envelope>)
    requires Inv(s) && multiset(ordered) == multiset(s.pending) && |ordered| == |s.pending| > 0
    ensures var t := Flush(s, ordered);
            && AppliedOk(t) && s.lastApplied <= t.lastApplied
            && (t.lastApplied == s.lastApplied || t.lastApplied in Durables(s.pending))
  {
    var cut := Min(MAX_BATCH, |ordered|);
    var taken := Durables(Take(ordered[..cut], s.lastApplied).accepted);
    FlushNumbers(s, ordered);
    TakesAllIff(ordered[..cut], s.lastApplied);
    CutQueue(s.pending, ordered, cut);
    FollowsConcat(s.seen.applied, taken, s.seen.base, s.lastApplied);
    FollowsWithin(taken, s.lastApplied);
    if taken != [] {
      assert taken[|taken| - 1] in Durables(ordered[..cut]);
      DurablesAreSafe(s.pending);
    }
  }

  lemma {:induction false} DurablesAreSafe(messages: seq<Envelope>)
    ensures Within(Durables(messages), 0, MAX_SAFE)
  {
    if messages != [] { DurablesAreSafe(messages[..|messages| - 1]); }
  }

  lemma FlushKeepsQueue(s: Refs, ordered: seq<Envelope>)
    requires Inv(s) && multiset(ordered) == multiset(s.pending) && |ordered| == |s.pending| > 0
    ensures QueueOk(Flush(s, ordered))
    ensures forall n | n in Durables(Flush(s, ordered).pending) :: n in Durables(s.pending)
  {
    var cut := Min(MAX_BATCH, |ordered|);
    var t := Flush(s, ordered);
    var d, r := Durables(ordered[..cut]), Durables(ordered[cut..]);
    FlushNumbers(s, ordered);
    CutQueue(s.pending, ordered, cut);
    DistinctTail(d, r);
    BeyondMembers(r, t.lastApplied);
    BeyondDistinct(r, t.lastApplied);
    RetainedAreOld(ordered[cut..], t.lastApplied);
  }

  lemma FlushKeeps(s: Refs, ordered: seq<Envelope>)
    requires Inv(s) && MaySort(s.pending, ordered) && |ordered| == |s.pending|
    ensures Inv(Flush(s, ordered))
  {
    if s.pending != [] {
      FlushKeepsApplied(s, ordered);
      FlushKeepsQueue(s, ordered);
      FlushNumbers(s, ordered);
      LessQueued(s, Flush(s, ordered));
    }
  }

  lemma LessQueued(s: Refs, t: Refs)
    requires Inv(s) && t == s.(lastApplied := t.lastApplied, seen := t.seen, pending := t.pending)
    requires t.lastApplied == s.lastApplied || t.lastApplied in Durables(s.pending)
    requires forall n | n in Durables(t.pending) :: n in Durables(s.pending)
    ensures ResetOk(t)
  {
    var left := Durables(t.pending);
    if left != [] {
      var n := left[0];
      assert n in Durables(t.pending);
      assert n in Durables(s.pending);
    }
  }

  // ---------------------------------------------------------------------------
  // Recovery
  // ---------------------------------------------------------------------------

  lemma {:induction false} HighestBounds(s: seq<int>, start: int)
    ensures start <= Highest(s, start) && forall n | n in s :: n <= Highest(s, start)
  {
    if s != [] {
      HighestBounds(s[..|s| - 1], start);
      assert s == s[..|s| - 1] + [s[|s| - 1]];
    }
  }

  /** Raising the cursor drops exactly the queued numbers it reaches. */
  lemma RaiseKeeps(s: Refs, cursor: int)
    requires Inv(s) && !s.resetActive && s.lastApplied <= cursor <= MAX_SAFE
    ensures Inv(RaiseCursor(s, cursor))
    ensures Durables(RaiseCursor(s, cursor).pending) == Beyond(Durables(s.pending), cursor)
  {
    var t := RaiseCursor(s, cursor);
    RetainedDurables(s.pending, cursor);
    RetainedAreOld(s.pending, cursor);
    BeyondDistinct(Durables(s.pending), cursor);
    BeyondMembers(Durables(s.pending), cursor);
    HighestBounds(Durables(t.pending), cursor);
  }

  lemma {:induction false} BeyondFollows(events: seq<int>, lo: int, c: int)
    requires Follows(events, lo)
    ensures Follows(Beyond(events, c), c) && LastOr(Beyond(events, c), c) <= Max(c, LastOr(events, lo))
    ensures Beyond(events, c) != [] ==> LastOr(Beyond(events, c), c) == LastOr(events, lo)
  {
    if events != [] {
      var init, last := events[..|events| - 1], events[|events| - 1];
      assert events == init + [last];
      FollowsSnoc(init, lo, last);
      BeyondFollows(init, lo, c);
      FollowsWithin(init, lo);
      FollowsSnoc(Beyond(init, c), c, last);
    }
  }

  lemma {:induction false} SortFollows(s: seq<int>, c: int)
    requires Follows(s, c)
    ensures SortBy(Less(), s) == s
  {
    if s != [] {
      var init, last := s[..|s| - 1], s[|s| - 1];
      assert s == init + [last];
      FollowsSnoc(init, c, last);
      SortFollows(init, c);
      FollowsWithin(init, c);
      InsertLast(init, last);
    }
  }

  lemma {:induction false} InsertLast(s: seq<int>, n: int)
    requires forall i | 0 <= i < |s| :: s[i] < n
    ensures InsertBy(Less(), s, n) == s + [n]
  {
    if s != [] {
      assert s == [s[0]] + s[1..];
      InsertLast(s[1..], n);
    }
  }

  /** A page in numbers. */
  lemma PageNumbers(s: Refs, events: seq<int>)
    requires s.recovery.Fetching? && Follows(events, 0)
    ensures SortBy(Less(), Beyond(events, s.lastApplied)) == Beyond(events, s.lastApplied)
    ensures Follows(Beyond(events, s.lastApplied), s.lastApplied)
    ensures Beyond(events, s.lastApplied) != [] ==>
              LastOr(Beyond(events, s.lastApplied), s.lastApplied) == LastOr(events, 0)
  {
    BeyondFollows(events, 0, s.lastApplied);
    SortFollows(Beyond(events, s.lastApplied), s.lastApplied);
  }

  lemma PageKeeps(s: Refs, events: seq<int>)
    requires Inv(s) && s.recovery.Fetching? && Follows(events, 0) && LastOr(events, 0) <= MAX_SAFE
    ensures Inv(ApplyPage(s, events))
  {
    PageNumbers(s, events);
    var unapplied := Beyond(events, s.lastApplied);
    if s.recovery.origin == s.generation && unapplied != [] {
      FollowsWithin(unapplied, s.lastApplied);
      RaiseKeeps(s, LastOr(unapplied, s.lastApplied));
      FollowsConcat(s.seen.applied, unapplied, s.seen.base, s.lastApplied);
    }
  }

  lemma LoopHeadKeeps(s: Refs)
    requires Inv(s) && !s.resetActive
    ensures Inv(LoopHead(s))
  {
  }

  lemma ResetKeeps(s: Refs, serverLatest: int)
    requires Inv(s)
    ensures Inv(BeginReset(s, serverLatest).(recovery := Ending(false)))
  {
  }

  lemma ResultKeeps(s: Refs, r: Outcome)
    requires Inv(s) && s.recovery.Fetching? && r.cursor <= MAX_SAFE
    ensures Inv(Recovered(s, r))
  {
    if s.recovery.origin != s.generation {
      var again := if s.recovery.requested.Some? then s.recovery.requested.value else s.latestObserved;
      LoopHeadKeeps(s.(queuedTarget := Max(s.queuedTarget, again)));
    } else if r.status.ResetRequired? || r.status.UnrecoverableGap? {
      ResetKeeps(s, r.latestSeq);
    } else {
      RaiseKeeps(s, Max(s.lastApplied, r.cursor));
      var c := if r.status.CaughtUp? then RaiseCursor(s, Max(s.lastApplied, r.cursor)) else s;
      LoopHeadKeeps(c.(latestObserved := Max(c.latestObserved, r.latestSeq)));
    }
  }

  lemma FetchedKeeps(s: Refs, n: nat)
    requires Inv(s) && n <= MAX_SAFE
    ensures Inv(RefreshDone(s, n))
  {
    if n >= s.refreshFloor {
      var q := ApplySnapshot(s, n, Some(s.refreshFloor), 0, false);
      BackfillKeeps(q.(refreshFloor := 0, refreshIsReset := false, resetActive := false, epochReset := false),
                    q.latestObserved);
    }
  }

  lemma SettleKeeps(s: Refs)
    requires Inv(s) && s.recovery.Ending?
    ensures Inv(Settle(s))
  {
    BackfillKeeps(s.(recovery := Idle), s.queuedTarget);
  }

  lemma FailureKeeps(s: Refs)
    requires Inv(s) && s.recovery.Fetching?
    ensures Inv(RecoveryFailed(s))
  {
  }

  lemma SnapshotKeeps(s: Refs, n: nat, floor: Option<int>, stateSeq: int, same: bool)
    requires Inv(s) && n <= MAX_SAFE
    ensures Inv(ApplySnapshot(s, n, floor, stateSeq, same))
  {
  }

  lemma StepKeepsInv(s: Refs, step: Step)
    requires Inv(s) && Enabled(s, step)
    ensures Inv(Do(s, step))
  {
    match step
    case Socket(m) => ReceiveKeeps(s, m);
    case Frame(ordered) => SameLength(s.pending, ordered); FlushKeeps(s, ordered);
    case Page(events) => PageKeeps(s, events);
    case Result(outcome) => ResultKeeps(s, outcome);
    case Failure => FailureKeeps(s);
    case Settled => SettleKeeps(s);
    case Poll(n) => BackfillKeeps(s, n);
    case Fetched(n) => FetchedKeeps(s, n);
    case Hydrate(n, stateSeq, same) => SnapshotKeeps(s, n, None, stateSeq, same);
    case _ =>
  }

  lemma InitialInv()
    ensures Inv(Initial())
  {
  }

  ghost predicate Leads(s: Refs, step: Step, t: Refs) { Enabled(s, step) && t == Do(s, step) }

  ghost predicate Run(states: seq<Refs>, steps: seq<Step>) {
    && |states| == |steps| + 1
    && forall i | 0 <= i < |steps| :: Leads(states[i], steps[i], states[i + 1])
  }

  lemma RunSnoc(states: seq<Refs>, steps: seq<Step>, step: Step, t: Refs)
    requires Run(states, steps) && Leads(states[|steps|], step, t)
    ensures Run(states + [t], steps + [step])
  {
    var after := states + [t];
    forall i | 0 <= i < |steps| + 1 ensures Leads(after[i], (steps + [step])[i], after[i + 1]) {
      if i < |steps| { assert Leads(states[i], steps[i], states[i + 1]); }
    }
  }

  /** In every state of every run from a good one, and so from a fresh page load (InitialInv), what
      was applied since the last snapshot is strictly increasing and above the snapshot, no page
      fetched under an older generation was applied, and what is queued lies between the cursors,
      each once. */
  lemma {:induction false} RunKeepsInv(states: seq<Refs>, steps: seq<Step>, k: nat)
    requires Run(states, steps) && Inv(states[0]) && k < |states|
    ensures Inv(states[k])
  {
    if k > 0 {
      RunKeepsInv(states, steps, k - 1);
      assert Leads(states[k - 1], steps[k - 1], states[k - 1 + 1]);
      StepKeepsInv(states[k - 1], steps[k - 1]);
    }
  }

  // ---------------------------------------------------------------------------
  // The highest number observed
  // ---------------------------------------------------------------------------

  /** The server refused a recovery of the current generation. */
  predicate Refused(s: Refs, step: Step) {
    && step.Result? && s.recovery.Fetching? && s.recovery.origin == s.generation
    && (step.outcome.status.ResetRequired? || step.outcome.status.UnrecoverableGap?)
  }

  /** n is a number the step tells: the socket's, a recovery's, a snapshot's, or the rendered state's
      while no epoch reset hides it. */
  predicate Tells(s: Refs, step: Step, n: int) {
    match step
    case Socket(m) => n == m.observedSeq
    case Result(outcome) => s.recovery.Fetching? && s.recovery.origin == s.generation && n == outcome.latestSeq
    case Fetched(seqNo) => seqNo >= s.refreshFloor && n == seqNo
    case Hydrate(seqNo, stateSeq, same) =>
      !same && seqNo >= s.latestObserved && (seqNo < stateSeq ==> stateSeq > MAX_SAFE) && n == seqNo
    case Render(stateSeq) => !s.epochReset && n == (if 0 < stateSeq <= MAX_SAFE then stateSeq else 0)
    case _ => false
  }

  /** The highest number observed is the higher of what it was and what the step tells. */
  ghost predicate Observes(s: Refs, step: Step, t: Refs) {
    && s.latestObserved <= t.latestObserved
    && (forall n | Tells(s, step, n) :: n <= t.latestObserved)
    && (t.latestObserved == s.latestObserved || Tells(s, step, t.latestObserved))
  }

  lemma ReceiveObserves(s: Refs, m: Message)
    ensures Receive(s, m).latestObserved == Max(s.latestObserved, m.observedSeq)
  {
    match m
    case Hello(_) =>
    case Pong(_) =>
    case Lagged(_, _) =>
    case LiveEvent(_, _) =>
  }

  lemma SocketObserves(s: Refs, m: Message)
    ensures Observes(s, Socket(m), Receive(s, m))
  {
    ReceiveObserves(s, m);
  }

  lemma SnapshotObserves(s: Refs, step: Step)
    requires Inv(s) && (step.Fetched? || step.Hydrate? || step.Render?) && Enabled(s, step)
    ensures Observes(s, step, Do(s, step))
  {
    match step
    case Fetched(n) =>
      assert Do(s, step).latestObserved == if n < s.refreshFloor then s.latestObserved else Max(s.latestObserved, n);
    case Hydrate(n, stateSeq, same) =>
      assert PublicSequence(stateSeq) == if 0 < stateSeq <= MAX_SAFE then stateSeq else 0;
      var installed := !same && n >= s.latestObserved && (n < stateSeq ==> stateSeq > MAX_SAFE);
      assert Do(s, step) == if installed then Install(s, n) else s;
    case Render(n) =>
      assert PublicSequence(n) == if 0 < n <= MAX_SAFE then n else 0;
  }

  lemma RecoveryObserves(s: Refs, step: Step)
    requires step.Result? && Enabled(s, step) && !Refused(s, step)
    ensures Observes(s, step, Do(s, step))
  {
  }

  /** Only a refused recovery lowers the highest number observed. */
  lemma ObservedIsHighest(s: Refs, step: Step)
    requires Inv(s) && Enabled(s, step) && !Refused(s, step)
    ensures Observes(s, step, Do(s, step))
  {
    match step
    case Socket(m) => SocketObserves(s, m);
    case Frame(ordered) => SameLength(s.pending, ordered); assert Flush(s, ordered).latestObserved == s.latestObserved;
    case Result(_) => RecoveryObserves(s, step);
    case Fetched(_) => SnapshotObserves(s, step);
    case Hydrate(_, _, _) => SnapshotObserves(s, step);
    case Render(_) => SnapshotObserves(s, step);
    case _ => assert Do(s, step).latestObserved == s.latestObserved;
  }

  /** So in a run without refusals it never falls, and nothing told on the way is forgotten. */
  lemma {:induction false} ObservedNeverFalls(states: seq<Refs>, steps: seq<Step>, i: nat, j: nat)
    requires Run(states, steps) && Inv(states[0]) && i <= j < |states|
    requires forall k | i <= k < j :: !Refused(states[k], steps[k])
    ensures states[i].latestObserved <= states[j].latestObserved
    ensures i < j ==> forall n | Tells(states[i], steps[i], n) :: n <= states[j].latestObserved
    decreases j - i
  {
    if i < j {
      RunKeepsInv(states, steps, i);
      assert Leads(states[i], steps[i], states[i + 1]);
      ObservedIsHighest(states[i], steps[i]);
      ObservedNeverFalls(states, steps, i + 1, j);
    }
  }
}
