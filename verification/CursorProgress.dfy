/** What the client's cursor machine delivers, and exactly when it does not. */
module CursorProgress {
  import opened Shared
  import opened Sorting
  import opened LiveCursor
  import opened LiveOrder
  import opened CursorMachine
  import opened CursorSafety

  // ---------------------------------------------------------------------------
  // A flush delivers or keeps every number, exactly when its order is right
  // ---------------------------------------------------------------------------

  /** Every queued number is handed to the state or still queued. */
  ghost predicate NothingLost(s: Refs, t: Refs) {
    forall n | n in Durables(s.pending) :: n in t.seen.applied || n in Durables(t.pending)
  }

  /** The batch's numbers increase, and none left behind lies below the batch. */
  ghost predicate InOrder(s: Refs, ordered: seq<Envelope>) {
    var cut := Min(MAX_BATCH, |ordered|);
    var d := Durables(ordered[..cut]);
    Follows(d, s.lastApplied) && forall n | n in Durables(ordered[cut..]) :: n > LastOr(d, s.lastApplied)
  }

  lemma {:induction false} Pigeonhole(s: seq<int>, t: seq<int>)
    requires Distinct(s) && forall n | n in s :: n in t
    ensures |s| <= |t|
  {
    if s != [] {
      var init, last := s[..|s| - 1], s[|s| - 1];
      assert s == init + [last];
      DistinctSnoc(init, last);
      assert last in s;
      var k :| 0 <= k < |t| && t[k] == last;
      TakeOut(t, k);
      forall n | n in init ensures n in t[..k] + t[k + 1..] { assert n in s; }
      Pigeonhole(init, t[..k] + t[k + 1..]);
    }
  }

  lemma MissesOne(d: seq<int>, taken: seq<int>) returns (n: int)
    requires Distinct(d) && |taken| < |d|
    ensures n in d && n !in taken
  {
    if forall n | n in d :: n in taken { Pigeonhole(d, taken); assert false; }
    n :| n in d && n !in taken;
  }

  lemma FlushLosesOne(s: Refs, ordered: seq<Envelope>) returns (n: int)
    requires Inv(s) && s.pending != [] && multiset(ordered) == multiset(s.pending) && |ordered| == |s.pending|
    requires !InOrder(s, ordered)
    ensures n in Durables(s.pending) && n !in Flush(s, ordered).seen.applied
            && n !in Durables(Flush(s, ordered).pending)
  {
    var cut := Min(MAX_BATCH, |ordered|);
    var t := Flush(s, ordered);
    var d, r := Durables(ordered[..cut]), Durables(ordered[cut..]);
    var taken := Durables(Take(ordered[..cut], s.lastApplied).accepted);
    FlushNumbers(s, ordered);
    CutQueue(s.pending, ordered, cut);
    DistinctTail(d, r);
    TakesAllIff(ordered[..cut], s.lastApplied);
    BeyondMembers(r, t.lastApplied);
    FollowsWithin(s.seen.applied, s.seen.base);
    if Follows(d, s.lastApplied) {
      n :| n in r && n <= t.lastApplied;
    } else {
      n := MissesOne(d, taken);
    }
  }

  /** A flush loses nothing exactly when the sort put the queue in order; a queue of durable
      envelopes always is (SortsInOrder), one with fallbacks among them need not be. */
  lemma FlushLosesNothingIff(s: Refs, ordered: seq<Envelope>)
    requires Inv(s) && MaySort(s.pending, ordered) && |ordered| == |s.pending| > 0
    ensures NothingLost(s, Flush(s, ordered)) <==> InOrder(s, ordered)
  {
    if InOrder(s, ordered) {
      var cut := Min(MAX_BATCH, |ordered|);
      FlushNumbers(s, ordered);
      CutQueue(s.pending, ordered, cut);
      TakesAllIff(ordered[..cut], s.lastApplied);
      BeyondMembers(Durables(ordered[cut..]), Flush(s, ordered).lastApplied);
    } else {
      var n := FlushLosesOne(s, ordered);
    }
  }

  // ---------------------------------------------------------------------------
  // A durable-only queue drains in order
  // ---------------------------------------------------------------------------

  /** The queued numbers, ascending. */
  function Sorted(queue: seq<Envelope>): seq<int> { SortBy(Less(), Durables(queue)) }

  lemma LastIsHighest(s: seq<int>, n: int)
    requires NonDecreasing(s) && n in s
    ensures n <= s[|s| - 1]
  {
    var k :| 0 <= k < |s| && s[k] == n;
    if k < |s| - 1 { assert s[k] <= s[|s| - 1]; }
  }

  lemma Unsnoc(s: seq<int>)
    requires s != []
    ensures var n := |s| - 1; s == s[..n] + [s[n]] && multiset(s[..n]) == multiset(s) - multiset{s[n]}
    ensures NonDecreasing(s) ==> NonDecreasing(s[..|s| - 1])
  {
    assert s == s[..|s| - 1] + [s[|s| - 1]];
  }

  lemma SameLast(s: seq<int>, t: seq<int>)
    requires multiset(s) == multiset(t) && NonDecreasing(s) && NonDecreasing(t) && s != [] && t != []
    ensures s[|s| - 1] == t[|t| - 1]
  {
    var x, y := s[|s| - 1], t[|t| - 1];
    assert x in multiset(s) && y in multiset(t);
    LastIsHighest(s, y);
    LastIsHighest(t, x);
  }

  lemma {:induction false} AscendingUnique(s: seq<int>, t: seq<int>)
    requires multiset(s) == multiset(t) && NonDecreasing(s) && NonDecreasing(t)
    ensures s == t
  {
    assert |s| == |multiset(s)| == |t|;
    if s != [] {
      SameLast(s, t);
      Unsnoc(s);
      Unsnoc(t);
      AscendingUnique(s[..|s| - 1], t[..|t| - 1]);
    }
  }

  lemma DistinctAscends(s: seq<int>)
    requires Distinct(s) && NonDecreasing(s)
    ensures Increasing(s)
  {
  }

  /** Sorting a durable-only queue of distinct numbers puts it in order. */
  lemma SortsInOrder(s: Refs, ordered: seq<Envelope>)
    requires Inv(s) && MaySort(s.pending, ordered) && DurableOnly(s.pending)
    ensures Increasing(Durables(ordered)) && Durables(ordered) == Sorted(s.pending)
    ensures Follows(Durables(ordered), s.lastApplied) && DurableOnly(ordered)
  {
    DurableOnlySorts(s.pending, ordered);
    DurablesPermute(s.pending, ordered);
    DistinctPermutation(Durables(s.pending), Durables(ordered));
    DistinctAscends(Durables(ordered));
    SortIsAscending(Durables(s.pending));
    SortPermutes(Less(), Durables(s.pending));
    AscendingUnique(Durables(ordered), Sorted(s.pending));
    forall m | m in ordered ensures Classify(m).Durable? { assert m in multiset(s.pending); }
    if Durables(ordered) != [] {
      var first := Durables(ordered)[0];
      assert first in multiset(Durables(ordered));
      assert first in Durables(s.pending);
    }
  }

  lemma SortIsAscending(s: seq<int>)
    ensures NonDecreasing(SortBy(Less(), s))
  {
    SortIsOrdered(Less(), s);
  }

  lemma {:induction false} DurableCount(messages: seq<Envelope>)
    requires DurableOnly(messages)
    ensures |Durables(messages)| == |messages|
  {
    if messages != [] {
      assert messages[|messages| - 1] in messages;
      DurableCount(messages[..|messages| - 1]);
    }
  }

  lemma {:induction false} RetainsAll(messages: seq<Envelope>, c: int)
    requires DurableOnly(messages) && forall i | 0 <= i < |Durables(messages)| :: Durables(messages)[i] > c
    ensures Retain(messages, c) == messages
  {
    if messages != [] {
      var init, last := messages[..|messages| - 1], messages[|messages| - 1];
      assert messages == init + [last] && last in messages;
      DurablesSnoc(init, last);
      assert Durables(messages)[..|Durables(init)|] == Durables(init);
      assert Durables(messages)[|Durables(init)|] == Classify(last).seqNo;
      assert DurableOnly(init) by { assert forall m | m in init :: m in messages; }
      RetainsAll(init, c);
    }
  }

  lemma PartsFollow(d: seq<int>, r: seq<int>, c: int)
    requires Follows(d + r, c)
    ensures Follows(d, c) && Increasing(r) && forall n | n in r :: n > LastOr(d, c)
  {
    assert forall i | 0 <= i < |d| :: (d + r)[i] == d[i];
    assert forall i | 0 <= i < |r| :: (d + r)[|d| + i] == r[i];
    FollowsWithin(d + r, c);
    forall i | 0 <= i < |r| ensures r[i] > LastOr(d, c) {
      if d == [] { assert r[i] in d + r; } else { assert (d + r)[|d| - 1] < (d + r)[|d| + i]; }
    }
  }

  lemma RestIsRetained(ordered: seq<Envelope>, cut: nat, c: int)
    requires cut <= |ordered| && DurableOnly(ordered) && forall n | n in Durables(ordered[cut..]) :: n > c
    ensures Retain(ordered[cut..], c) == ordered[cut..] && DurableOnly(ordered[cut..])
  {
    assert forall m | m in ordered[cut..] :: m in ordered;
    var r := Durables(ordered[cut..]);
    forall i | 0 <= i < |r| ensures r[i] > c {
      var n := r[i];
      assert n in r;
    }
    RetainsAll(ordered[cut..], c);
  }

  /** One frame moves the lowest numbers of the queue, up to a batch of them, to the state. */
  lemma FrameMoves(s: Refs, ordered: seq<Envelope>)
    requires Inv(s) && MaySort(s.pending, ordered) && |ordered| == |s.pending| > 0 && DurableOnly(s.pending)
    ensures var t, cut := Flush(s, ordered), Min(MAX_BATCH, |ordered|);
            && DurableOnly(t.pending) && t.pending == ordered[cut..]
            && t.seen.applied == s.seen.applied + Durables(ordered[..cut])
            && Durables(ordered[..cut]) + Durables(ordered[cut..]) == Sorted(s.pending)
            && Increasing(Durables(ordered[cut..]))
  {
    var cut := Min(MAX_BATCH, |ordered|);
    var d, r := Durables(ordered[..cut]), Durables(ordered[cut..]);
    SortsInOrder(s, ordered);
    CutQueue(s.pending, ordered, cut);
    FlushNumbers(s, ordered);
    PartsFollow(d, r, s.lastApplied);
    TakesAllIff(ordered[..cut], s.lastApplied);
    RestIsRetained(ordered, cut, LastOr(d, s.lastApplied));
  }

  lemma SortedAlready(r: seq<int>)
    requires Increasing(r)
    ensures SortBy(Less(), r) == r
  {
    SortIsAscending(r);
    SortPermutes(Less(), r);
    AscendingUnique(r, SortBy(Less(), r));
  }

  lemma Regroup(a: seq<int>, d: seq<int>, r: seq<int>)
    ensures (a + d) + r == a + (d + r)
  {
  }

  lemma FrameDrains(s: Refs, ordered: seq<Envelope>)
    requires Inv(s) && MaySort(s.pending, ordered) && |ordered| == |s.pending| > 0 && DurableOnly(s.pending)
    ensures var t := Flush(s, ordered);
            && DurableOnly(t.pending) && |t.pending| == |s.pending| - Min(MAX_BATCH, |s.pending|)
            && t.seen.applied + Sorted(t.pending) == s.seen.applied + Sorted(s.pending)
  {
    var cut := Min(MAX_BATCH, |ordered|);
    var d, r := Durables(ordered[..cut]), Durables(ordered[cut..]);
    FrameMoves(s, ordered);
    SortedAlready(r);
    Regroup(s.seen.applied, d, r);
  }

  ghost predicate Frames(states: seq<Refs>, orders: seq<seq<Envelope>>) {
    && |states| == |orders| + 1
    && forall i | 0 <= i < |orders| ::
         MaySort(states[i].pending, orders[i]) && |orders[i]| == |states[i].pending|
             && states[i + 1] == Flush(states[i], orders[i])
  }

  /** Frame after frame, a durable-only queue empties completely and in order. */
  lemma {:induction false} DrainsInOrder(states: seq<Refs>, orders: seq<seq<Envelope>>, k: nat)
    requires Frames(states, orders) && k < |states| && Inv(states[0]) && DurableOnly(states[0].pending)
    ensures Inv(states[k]) && DurableOnly(states[k].pending)
    ensures |states[k].pending| == Max(0, |states[0].pending| - MAX_BATCH * k)
    ensures states[k].seen.applied + Sorted(states[k].pending) == states[0].seen.applied + Sorted(states[0].pending)
    ensures MAX_BATCH * k >= |states[0].pending| ==>
              states[k].seen.applied == states[0].seen.applied + Sorted(states[0].pending)
  {
    if k > 0 {
      DrainsInOrder(states, orders, k - 1);
      var s := states[k - 1];
      FlushKeeps(s, orders[k - 1]);
      if s.pending != [] { FrameDrains(s, orders[k - 1]); }
    }
    if states[k].pending == [] { assert Sorted(states[k].pending) == []; }
  }

  // ---------------------------------------------------------------------------
  // Recovery pages
  // ---------------------------------------------------------------------------

  lemma Cancel(s: seq<int>, t: seq<int>, u: seq<int>)
    ensures s + t == s + u <==> t == u
  {
    if s + t == s + u { assert (s + t)[|s|..] == t && (s + u)[|s|..] == u; }
  }

  /** A current page is applied whole exactly when the cursor has not moved past its first event. */
  lemma PageAppliedWholeIff(s: Refs, events: seq<int>)
    requires Inv(s) && s.recovery.Fetching? && s.recovery.origin == s.generation && Follows(events, 0) && events != []
    ensures ApplyPage(s, events).seen.applied == s.seen.applied + events <==> s.lastApplied < events[0]
  {
    var unapplied := Beyond(events, s.lastApplied);
    PageNumbers(s, events);
    Cancel(s.seen.applied, unapplied, events);
    if unapplied == [] { assert s.seen.applied + unapplied == s.seen.applied; }
    if s.lastApplied < events[0] {
      BeyondAll(events, s.lastApplied);
    } else {
      BeyondMembers(events, s.lastApplied);
      assert events[0] in events;
    }
  }

  function PagesOf(steps: seq<Step>): seq<int> {
    if steps == [] then []
    else
      var last := steps[|steps| - 1];
      if last.Page? then PagesOf(steps[..|steps| - 1]) + last.events else PagesOf(steps[..|steps| - 1])
  }

  ghost predicate QuietStep(s: Refs, step: Step, t: Refs) {
    if step.Page? then
      && s.recovery.Fetching? && s.recovery.origin == s.generation && Follows(step.events, 0)
      && t == ApplyPage(s, step.events)
    else t.lastApplied == s.lastApplied && t.seen == s.seen
  }

  /** Between the pages, nothing moves the cursor or replaces the snapshot. */
  ghost predicate Quiet(states: seq<Refs>, steps: seq<Step>) {
    |states| == |steps| + 1 && forall i | 0 <= i < |steps| :: QuietStep(states[i], steps[i], states[i + 1])
  }

  lemma FirstAbove(events: seq<int>, c: int)
    requires Increasing(events) && events != [] && c < events[0]
    ensures forall i | 0 <= i < |events| :: events[i] > c
  {
    forall i | 0 <= i < |events| ensures events[i] > c {
      if i > 0 { assert events[0] < events[i]; }
    }
  }

  lemma AllNew(s: Refs, events: seq<int>)
    requires s.recovery.Fetching? && Follows(events, 0) && events != [] && s.lastApplied < events[0]
    ensures SortBy(Less(), Beyond(events, s.lastApplied)) == events
  {
    FirstAbove(events, s.lastApplied);
    BeyondAll(events, s.lastApplied);
    PageNumbers(s, events);
  }

  lemma PageExtends(s: Refs, events: seq<int>)
    requires Inv(s) && s.recovery.Fetching? && s.recovery.origin == s.generation && Follows(events, 0)
    requires events != [] ==> s.lastApplied < events[0]
    ensures var t := ApplyPage(s, events);
            t.seen.applied == s.seen.applied + events && t.lastApplied == LastOr(events, s.lastApplied)
  {
    if events == [] {
      assert s.seen.applied + events == s.seen.applied;
    } else {
      AllNew(s, events);
    }
  }

  lemma LastOrConcat(s: seq<int>, t: seq<int>, c: int)
    ensures LastOr(s + t, c) == LastOr(t, LastOr(s, c))
  {
  }

  /** The history after some pages, from a start. */
  ghost predicate Reached(s: Refs, start: Refs, pages: seq<int>) {
    s.seen.applied == start.seen.applied + pages && s.lastApplied == LastOr(pages, start.lastApplied)
  }

  lemma PageReaches(s: Refs, start: Refs, pages: seq<int>, events: seq<int>)
    requires Inv(s) && s.recovery.Fetching? && s.recovery.origin == s.generation && Follows(events, 0)
    requires Reached(s, start, pages) && Follows(pages + events, start.lastApplied)
    ensures Reached(ApplyPage(s, events), start, pages + events)
  {
    PartsFollow(pages, events, start.lastApplied);
    if events != [] {
      var first := events[0];
      assert first in events;
    }
    PageExtends(s, events);
    LastOrConcat(pages, events, start.lastApplied);
    Regroup(start.seen.applied, pages, events);
  }

  function More(pages: seq<int>, step: Step): seq<int> { if step.Page? then pages + step.events else pages }

  lemma QuietReaches(s: Refs, step: Step, t: Refs, start: Refs, pages: seq<int>)
    requires Inv(s) && QuietStep(s, step, t) && Reached(s, start, pages)
             && Follows(More(pages, step), start.lastApplied)
    ensures Reached(t, start, More(pages, step))
  {
    if step.Page? { PageReaches(s, start, pages, step.events); }
  }

  lemma MoreFollows(pages: seq<int>, step: Step, c: int)
    requires Follows(More(pages, step), c)
    ensures Follows(pages, c)
  {
    if step.Page? { PartsFollow(pages, step.events, c); }
  }

  lemma {:induction false} PagesUpTo(states: seq<Refs>, steps: seq<Step>, k: nat)
    requires Quiet(states, steps) && k <= |steps| && Follows(PagesOf(steps[..k]), states[0].lastApplied)
    requires forall i | 0 <= i < |states| :: Inv(states[i])
    ensures Reached(states[k], states[0], PagesOf(steps[..k]))
  {
    if k > 0 {
      assert steps[..k][..k - 1] == steps[..k - 1];
      var before := PagesOf(steps[..k - 1]);
      assert PagesOf(steps[..k]) == More(before, steps[k - 1]);
      MoreFollows(before, steps[k - 1], states[0].lastApplied);
      PagesUpTo(states, steps, k - 1);
      QuietReaches(states[k - 1], steps[k - 1], states[k - 1 + 1], states[0], before);
    }
  }

  /** In a quiet recovery the state receives every event of every page, in order. */
  lemma QuietRecoveryIsComplete(states: seq<Refs>, steps: seq<Step>)
    requires Run(states, steps) && Quiet(states, steps) && Inv(states[0])
    requires Follows(PagesOf(steps), states[0].lastApplied)
    ensures var last := states[|steps|];
            && last.seen.applied == states[0].seen.applied + PagesOf(steps)
            && last.lastApplied == LastOr(PagesOf(steps), states[0].lastApplied)
  {
    assert steps[..|steps|] == steps;
    forall k | 0 <= k < |states| ensures Inv(states[k]) { RunKeepsInv(states, steps, k); }
    PagesUpTo(states, steps, |steps|);
  }

  // ---------------------------------------------------------------------------
  // A live flush can outrun a page
  // ---------------------------------------------------------------------------

  function At(n: int): Envelope { Envelope(Number(n), n, n, "") }

  /** From a snapshot at 5, the server announces 9; while the page [6, 9] is on its way the live
      event 9 is flushed. The page then finds nothing new, and the machine comes to rest believing
      it is caught up: event 6 is never applied. */
  lemma LiveFlushSkipsPage() returns (states: seq<Refs>, steps: seq<Step>)
    ensures |steps| == 7 && Run(states, steps) && states[0] == Initial()
    ensures steps[4] == Page([6, 9]) && states[4].recovery == Fetching(states[4].generation, Some(9))
    ensures var last := states[7];
            && last.seen.base == 5 && last.seen.applied == [9] && last.lastApplied == 9 && last.pending == []
            && last.recovery == Idle && last.queuedTarget <= last.lastApplied && !last.queuedPoll && !last.resetActive
  {
    steps, states := SkippingSteps(), SkippingStates();
    SkippingRuns();
  }

  function SkippingSteps(): seq<Step> {
    [Hydrate(5, 0, false), Socket(Hello(9)), Socket(LiveEvent(9, At(9))), Frame([At(9)]), Page([6, 9]),
     Result(Outcome(CaughtUp, 9, 9)), Settled]
  }

  function SkippingStates(): seq<Refs> {
    [Initial(), Synced(), Asked(), Queued(), Flushed(), Flushed(), Over(), Over().(recovery := Idle)]
  }

  lemma SkippingBegins()
    ensures Run(SkippingStates()[..4], SkippingSteps()[..3])
  {
    Opening();
  }

  lemma SkippingEnds()
    ensures Run(SkippingStates()[..6], SkippingSteps()[..5])
  {
    var states, steps := SkippingStates(), SkippingSteps();
    SkippingBegins();
    FlushOne();
    RunSnoc(states[..4], steps[..3], steps[3], Flushed());
    assert states[..5] == states[..4] + [Flushed()] && steps[..4] == steps[..3] + [steps[3]];
    PageComesLate();
    RunSnoc(states[..5], steps[..4], steps[4], Flushed());
    assert states[..6] == states[..5] + [Flushed()] && steps[..5] == steps[..4] + [steps[4]];
  }

  lemma SkippingRuns()
    ensures Run(SkippingStates(), SkippingSteps())
  {
    var states, steps := SkippingStates(), SkippingSteps();
    SkippingEnds();
    Closing();
    RunSnoc(states[..6], steps[..5], steps[5], Over());
    assert states[..7] == states[..6] + [Over()] && steps[..6] == steps[..5] + [steps[5]];
    RunSnoc(states[..7], steps[..6], steps[6], Over().(recovery := Idle));
    assert states == states[..7] + [Over().(recovery := Idle)] && steps == steps[..6] + [steps[6]];
  }

  function Synced(): Refs { Refs([], 5, 5, 5, 5, 1, false, false, 0, false, 0, false, Idle, History(5, [], {})) }

  function Asked(): Refs { Synced().(latestInbound := 9, latestObserved := 9, recovery := Fetching(1, Some(9))) }

  function Queued(): Refs { Asked().(pending := [At(9)], lastQueued := 9) }

  function Flushed(): Refs { Queued().(pending := [], lastApplied := 9, seen := History(5, [9], {})) }

  function Over(): Refs { Flushed().(recovery := Ending(false)) }

  lemma Opening()
    ensures Leads(Initial(), Hydrate(5, 0, false), Synced())
    ensures Leads(Synced(), Socket(Hello(9)), Asked())
    ensures Leads(Asked(), Socket(LiveEvent(9, At(9))), Queued())
  {
  }

  lemma FlushOne()
    ensures Leads(Queued(), Frame([At(9)]), Flushed())
  {
    OneNumber(At(9), 5);
  }

  lemma PageComesLate()
    ensures Leads(Flushed(), Page([6, 9]), Flushed())
  {
    assert [6, 9][..1] == [6] && [6][..0] == [];
    assert Beyond([6], 9) == [];
    assert Beyond([6, 9], 9) == [];
  }

  lemma Closing()
    ensures Leads(Flushed(), Result(Outcome(CaughtUp, 9, 9)), Over())
    ensures Leads(Over(), Settled, Over().(recovery := Idle))
  {
  }

  lemma OneNumber(m: Envelope, c: int)
    requires Classify(m).Durable? && Classify(m).seqNo > c >= 0
    ensures Durables([m]) == [Classify(m).seqNo] && Take([m], c) == Batch([m], Classify(m).seqNo, false, false)
    ensures [m][..1] == [m] && [m][1..] == [] && Retain([], c) == []
  {
    assert [m][..0] == [];
    assert Durables([]) == [];
    assert Take([], c) == Batch([], c, false, false);
  }
}
