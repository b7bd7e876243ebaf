/** The client's cursor callbacks as they update the refs in place (web/src/App.tsx), and what
    each call means for the queue, the history and the recovery. */
module CursorCallbacks {
  import opened Shared
  import opened Sorting
  import opened LiveCursor
  import opened LiveOrder
  import opened CursorMachine
  import opened CursorSafety
  import opened CursorProgress
  import opened CursorOrder

  // ---------------------------------------------------------------------------
  // What a call means, from the state before to the state after
  // ---------------------------------------------------------------------------

  /** A recovery up to n is under way or will be started. */
  ghost predicate AskedFor(s: Refs, n: int) {
    || s.queuedTarget >= n || s.queuedPoll
    || (s.recovery.Fetching? && (s.recovery.requested.None? || s.recovery.requested.value >= n))
  }

  /** A recovery up to n, or a poll when n is no sequence number, is asked for on top of what was: when
      none is under way and no reset is active, everything asked for is fetched at once, unless it
      lies at or below the cursor. */
  ghost predicate Asks(s: Refs, n: int, t: Refs) {
    var valid := 0 < n <= MAX_SAFE;
    var target, poll := if valid && n > s.queuedTarget then n else s.queuedTarget, s.queuedPoll || !valid;
    if !s.recovery.Idle? || s.resetActive then t == s.(queuedTarget := target, queuedPoll := poll)
    else if poll || target > s.lastApplied then
      t == s.(queuedTarget := 0, queuedPoll := false,
              recovery := Fetching(s.generation, if target > 0 then Some(target) else None))
    else t == s.(queuedTarget := target, recovery := Ending(false))
  }

  lemma BackfillIsAsked(s: Refs, n: int)
    ensures Asks(s, n, Backfill(s, n))
  {
  }

  /** Only the queue and the wish to recover changed. */
  ghost predicate HandsNothing(s: Refs, t: Refs) {
    t.seen == s.seen && t.lastApplied == s.lastApplied && t.generation == s.generation
  }

  /** What was asked for stays asked for; a recovery under way is left alone. */
  ghost predicate KeepsAsking(s: Refs, t: Refs) {
    if s.recovery.Idle? then forall n | s.lastApplied < n <= s.queuedTarget :: AskedFor(t, n)
    else t.recovery == s.recovery && s.queuedTarget <= t.queuedTarget && (s.queuedPoll ==> t.queuedPoll)
  }

  /** A best-effort message, or a durable one above both cursors outside a reset. */
  predicate ForQueue(s: Refs, m: Envelope) {
    match Classify(m)
    case Fallback => true
    case Durable(n) => !s.resetActive && s.lastApplied < n && s.lastQueued < n
    case Invalid => false
  }

  /** Such a message joins the end of the queue while there is room, and nothing is asked for; without
      room, or for an invalid message, the queue is given up; any other message leaves it. */
  ghost predicate Enqueued(s: Refs, m: Envelope, t: Refs) {
    if Classify(m).Invalid? || (ForQueue(s, m) && |s.pending| >= 4096) then t.pending == []
    else if ForQueue(s, m) then t.pending == s.pending + [m] && t.recovery == s.recovery
    else t.pending == s.pending
  }

  /** A durable message's number is queued, or asked for, or lies at or below one of the cursors
      while no reset is active; and what such a message drops from the queue is asked for. */
  ghost predicate Accounted(s: Refs, m: Envelope, t: Refs) {
    && (Classify(m).Durable? ==>
          var n := Classify(m).seqNo;
          || n in Durables(t.pending) || AskedFor(t, n)
          || (!s.resetActive && n <= Max(s.lastApplied, s.lastQueued)))
    && (Classify(m).Durable? ==> forall n | n in Durables(s.pending) :: n in Durables(t.pending) || AskedFor(t, n))
  }

  lemma BackfillAsks(s: Refs, n: int)
    requires 0 < n <= MAX_SAFE && n > s.lastApplied
    ensures AskedFor(Backfill(s, n), n)
  {
  }

  lemma AskedBelow(s: Refs, n: int)
    ensures forall k | k <= n && AskedFor(s, n) :: AskedFor(s, k)
  {
  }

  lemma EnqueueAccounts(s: Refs, m: Envelope)
    requires Inv(s)
    ensures HandsNothing(s, Enqueue(s, m)) && Enqueued(s, m, Enqueue(s, m))
    ensures Accounted(s, m, Enqueue(s, m))
  {
    var k := Classify(m);
    var target := Max(if k.Durable? then k.seqNo else 0, PublicSequence(m.latestSeq));
    if k.Durable? {
      DurablesSnoc(s.pending, m);
      if s.resetActive {
        assert Durables(s.pending) == [];
        assert AskedFor(Backfill(s, target), target);
      } else if ShouldQueue(k.seqNo, s.lastApplied, s.lastQueued) {
        BackfillAsks(ClearQueue(s), target);
      }
    }
  }

  lemma BackfillKeepsAsking(s: Refs, n: int)
    ensures KeepsAsking(s, Backfill(s, n)) && KeepsAsking(s, Backfill(ClearQueue(s), n))
  {
  }

  lemma EnqueueKeepsAsking(s: Refs, m: Envelope)
    ensures KeepsAsking(s, Enqueue(s, m))
  {
    BackfillKeepsAsking(s, Max(if Classify(m).Durable? then Classify(m).seqNo else 0, PublicSequence(m.latestSeq)));
  }

  /** What a frame does: the history grows at its end, a batch leaves the queue, and nothing is
      lost exactly when the sort put the queue in order, as it does when nothing crosses. */
  ghost predicate FrameTaken(s: Refs, ordered: seq<Envelope>, t: Refs) {
    && Inv(t) && t.seen.base == s.seen.base && s.seen.applied <= t.seen.applied
    && |t.pending| <= |s.pending| - Min(MAX_BATCH, |s.pending|)
    && (s.pending != [] ==> (NothingLost(s, t) <==> InOrder(s, ordered)))
    && (!Crossed(s.pending) ==> NothingLost(s, t))
    && (s.pending != [] ==> BatchTaken(s, ordered, Min(MAX_BATCH, |ordered|), t))
  }

  /** Of the first n envelopes those that are due are handed on, of the others those still due stay. */
  ghost predicate BatchTaken(s: Refs, ordered: seq<Envelope>, n: nat, t: Refs)
    requires n <= |ordered|
  {
    && t.seen.applied == s.seen.applied + Durables(AllHandedOn(ordered[..n], n, s.lastApplied))
    && Selects(t.pending, ordered[n..], StillDue(t.lastApplied))
  }

  lemma FlushTakesBatch(s: Refs, ordered: seq<Envelope>)
    requires Inv(s) && MaySort(s.pending, ordered) && |ordered| == |s.pending| > 0
    ensures BatchTaken(s, ordered, Min(MAX_BATCH, |ordered|), Flush(s, ordered))
  {
    var cut := Min(MAX_BATCH, |ordered|);
    FlushNumbers(s, ordered);
    TakeTakesFrom(ordered[..cut], s.lastApplied, cut);
    assert ordered[..cut][..cut] == ordered[..cut];
    RetainSelects(ordered[cut..], Flush(s, ordered).lastApplied);
  }

  lemma FlushMeans(s: Refs, ordered: seq<Envelope>)
    requires Inv(s) && MaySort(s.pending, ordered) && |ordered| == |s.pending|
    ensures FrameTaken(s, ordered, Flush(s, ordered))
  {
    FlushKeeps(s, ordered);
    if !Crossed(s.pending) { UncrossedIsSafe(s, ordered); }
    if s.pending != [] {
      FlushTakesBatch(s, ordered);
      FlushLosesNothingIff(s, ordered);
      FlushNumbers(s, ordered);
      RetainedAreOld(ordered[Min(MAX_BATCH, |ordered|)..], Flush(s, ordered).lastApplied);
    }
  }

  /** The cursor stands at c, and just the queued numbers above it stayed. */
  ghost predicate RaisedTo(s: Refs, c: int, t: Refs) {
    t.lastApplied == c && Durables(t.pending) == Beyond(Durables(s.pending), c)
  }

  /** A page of the current generation: the events above the cursor are handed on, in order and
      once, and the queued copies of what the page covers go. A page of an older one is ignored. */
  ghost predicate PageTaken(s: Refs, events: seq<int>, t: Refs)
    requires s.recovery.Fetching?
  {
    if s.recovery.origin != s.generation then t == s
    else
      && Inv(t) && t.seen.applied == s.seen.applied + Beyond(events, s.lastApplied) && t.seen.base == s.seen.base
      && RaisedTo(s, Max(s.lastApplied, LastOr(events, 0)), t)
      && t.recovery == s.recovery
      && t.seen.origins == s.seen.origins + (if Beyond(events, s.lastApplied) == [] then {} else {s.generation})
  }

  lemma QueueIsBeyond(s: Refs)
    requires Inv(s)
    ensures RaisedTo(s, s.lastApplied, s)
  {
    forall i | 0 <= i < |Durables(s.pending)| ensures Durables(s.pending)[i] > s.lastApplied {
      var n := Durables(s.pending)[i];
      assert n in Durables(s.pending);
    }
    BeyondAll(Durables(s.pending), s.lastApplied);
  }

  lemma NothingBeyond(events: seq<int>, c: int)
    requires Follows(events, 0) && Beyond(events, c) == [] && c >= 0
    ensures LastOr(events, 0) <= c
  {
    BeyondMembers(events, c);
    if events != [] {
      var last := events[|events| - 1];
      assert last in events;
    }
  }

  lemma NothingNew(s: Refs, events: seq<int>)
    requires Inv(s) && s.recovery.Fetching? && Follows(events, 0) && s.recovery.origin == s.generation
    requires Beyond(events, s.lastApplied) == []
    ensures PageTaken(s, events, s)
  {
    NothingBeyond(events, s.lastApplied);
    QueueIsBeyond(s);
    assert s.seen.applied + [] == s.seen.applied;
  }

  lemma SomethingNew(s: Refs, events: seq<int>)
    requires Inv(s) && s.recovery.Fetching? && Follows(events, 0) && LastOr(events, 0) <= MAX_SAFE
    requires s.recovery.origin == s.generation && Beyond(events, s.lastApplied) != []
    ensures PageTaken(s, events, ApplyPage(s, events))
  {
    var unapplied := Beyond(events, s.lastApplied);
    PageNumbers(s, events);
    PageKeeps(s, events);
    FollowsWithin(unapplied, s.lastApplied);
    RaiseKeeps(s, LastOr(unapplied, s.lastApplied));
  }

  lemma PageMeans(s: Refs, events: seq<int>)
    requires Inv(s) && s.recovery.Fetching? && Follows(events, 0) && LastOr(events, 0) <= MAX_SAFE
    ensures PageTaken(s, events, ApplyPage(s, events))
  {
    if s.recovery.origin == s.generation {
      if Beyond(events, s.lastApplied) == [] {
        PageNumbers(s, events);
        NothingNew(s, events);
      } else {
        SomethingNew(s, events);
      }
    }
  }

  /** An epoch reset has begun: nothing is queued or fetched until a snapshot at the floor comes. */
  ghost predicate Resetting(s: Refs, floor: int) {
    && s.pending == [] && s.refreshFloor == floor && s.epochReset && s.resetActive && s.refreshIsReset
    && s.recovery == Ending(false) && s.latestObserved == s.queuedTarget == floor && !s.queuedPoll
  }

  /** The floor of a reset: the larger of what the server and the socket tell, but only what the server
      tells when that lies behind the cursor and the socket does not. */
  function FloorOf(server: int, cursor: int, inbound: int): int {
    if server < cursor <= inbound || inbound < server then server else inbound
  }

  /** Another round is under way, or there is nothing left to ask for. */
  ghost predicate Continues(s: Refs) {
    s.recovery.Fetching? || (s.recovery == Ending(false) && s.queuedTarget <= s.lastApplied && !s.queuedPoll)
  }

  /** A result hands nothing on. Under an older generation the request is repeated; the server's
      refusal starts a reset; a caught-up result raises the cursor to its own. */
  ghost predicate ResultTaken(s: Refs, r: Outcome, t: Refs)
    requires s.recovery.Fetching?
  {
    var again := if s.recovery.requested.Some? then s.recovery.requested.value else s.latestObserved;
    && Inv(t) && t.seen == s.seen && t.generation == s.generation
    && (if s.recovery.origin != s.generation then
          t.pending == s.pending && Continues(t) && (again > t.lastApplied ==> AskedFor(t, again))
        else if r.status.ResetRequired? || r.status.UnrecoverableGap? then
          Resetting(t, FloorOf(PublicSequence(r.latestSeq), s.lastApplied, PublicSequence(s.latestInbound)))
        else
          && RaisedTo(s, if r.status.CaughtUp? then Max(s.lastApplied, r.cursor) else s.lastApplied, t)
          && Continues(t) && t.latestObserved == Max(s.latestObserved, r.latestSeq))
  }

  lemma StaleMeans(s: Refs, r: Outcome)
    requires Inv(s) && s.recovery.Fetching? && s.recovery.origin != s.generation && Inv(Recovered(s, r))
    ensures ResultTaken(s, r, Recovered(s, r))
  {
  }

  lemma RefusalMeans(s: Refs, r: Outcome)
    requires Inv(s) && s.recovery.Fetching? && s.recovery.origin == s.generation && Inv(Recovered(s, r))
    requires r.status.ResetRequired? || r.status.UnrecoverableGap?
    ensures ResultTaken(s, r, Recovered(s, r))
  {
  }

  lemma ProgressMeans(s: Refs, r: Outcome)
    requires Inv(s) && s.recovery.Fetching? && s.recovery.origin == s.generation && Inv(Recovered(s, r))
    requires (r.status.CaughtUp? || r.status.Empty?) && r.cursor <= MAX_SAFE
    ensures ResultTaken(s, r, Recovered(s, r))
  {
    QueueIsBeyond(s);
    RaiseKeeps(s, Max(s.lastApplied, r.cursor));
  }

  lemma ResultMeans(s: Refs, r: Outcome)
    requires Inv(s) && s.recovery.Fetching? && r.cursor <= MAX_SAFE
    ensures ResultTaken(s, r, Recovered(s, r))
  {
    ResultKeeps(s, r);
    if s.recovery.origin != s.generation {
      StaleMeans(s, r);
    } else if r.status.ResetRequired? || r.status.UnrecoverableGap? {
      RefusalMeans(s, r);
    } else {
      ProgressMeans(s, r);
    }
  }

  /** A snapshot rebases everything: a new generation, an empty queue and history, one cursor. */
  ghost predicate Rebased(s: Refs, snapshotSeq: nat, t: Refs) {
    && t.generation == s.generation + 1 && t.pending == []
    && t.lastApplied == t.lastQueued == snapshotSeq && t.seen == History(snapshotSeq, [], {})
    && t.latestObserved == Max(s.latestObserved, snapshotSeq) && t.latestInbound == Max(s.latestInbound, snapshotSeq)
  }

  /** A refresh at its floor rebases, ends the reset and asks for what lies beyond the snapshot. */
  ghost predicate Refreshed(s: Refs, snapshotSeq: nat, t: Refs) {
    if snapshotSeq < s.refreshFloor then t == s
    else
      && Inv(t) && Rebased(s, snapshotSeq, t) && !t.resetActive && !t.epochReset && t.refreshFloor == 0
      && (snapshotSeq < t.latestObserved <= MAX_SAFE ==> AskedFor(t, t.latestObserved))
  }

  lemma RefreshMeans(s: Refs, snapshotSeq: nat)
    requires Inv(s) && snapshotSeq <= MAX_SAFE
    ensures Refreshed(s, snapshotSeq, RefreshDone(s, snapshotSeq))
  {
    FetchedKeeps(s, snapshotSeq);
    if snapshotSeq >= s.refreshFloor {
      var q := Install(s, snapshotSeq).(refreshFloor := 0, refreshIsReset := false, resetActive := false,
                                        epochReset := false);
      assert ApplySnapshot(s, snapshotSeq, Some(s.refreshFloor), 0, false) == Install(s, snapshotSeq);
      if snapshotSeq < q.latestObserved <= MAX_SAFE { BackfillAsks(q, q.latestObserved); }
    }
  }

  /** The number up to which a hello or a notice of lost messages makes the client recover. */
  function Announced(m: Message): int {
    match m
    case Hello(n) => n
    case Lagged(n, toSeq) => Max(n, PublicSequence(toSeq))
    case _ => 0
  }

  /** A message hands nothing on. What it announces beyond the cursor is asked for, a hello behind
      the cursor is followed up by a poll, and the number it carries is accounted for. */
  ghost predicate Heard(s: Refs, m: Message, t: Refs) {
    && Inv(t) && HandsNothing(s, t) && KeepsAsking(s, t) && t.latestObserved == Max(s.latestObserved, m.observedSeq)
    && t.latestInbound == (if m.Hello? || m.observedSeq > Max(0, s.latestInbound) then m.observedSeq
                           else s.latestInbound)
    && (s.lastApplied < Announced(m) <= MAX_SAFE ==> AskedFor(t, Announced(m)))
    && (m.Hello? && PublicSequence(m.observedSeq) < s.lastApplied ==> t.queuedPoll || t.recovery.Fetching?)
    && (m.Hello? || m.Pong? ==> t.pending == s.pending) && (m.Lagged? ==> t.pending == [])
    && (m.LiveEvent? ==> Enqueued(s, m.envelope, t) && Accounted(s, m.envelope, t))
    && Answered(s, m, t)
  }

  /** A pong is only noticed; a hello and a lag notice make the client ask. */
  ghost predicate Answered(s: Refs, m: Message, t: Refs) {
    var q := Noticed(s, m);
    match m
    case Hello(n) => Asks(q, if (if 0 < n <= MAX_SAFE then n else 0) < s.lastApplied then 0 else n, t)
    case Pong(_) => t == q
    case Lagged(n, toSeq) =>
      Asks(q.(pending := [], lastQueued := s.lastApplied), if 0 < toSeq <= MAX_SAFE && toSeq > n then toSeq else n, t)
    case LiveEvent(_, _) => true
  }

  lemma MessageIsAnswered(s: Refs, m: Message)
    requires Inv(s)
    ensures Answered(s, m, Receive(s, m))
  {
    var q := Noticed(s, m);
    match m
    case Hello(n) =>
      BackfillIsAsked(q, if HelloNeedsProbe(n, q.lastApplied) then 0 else n);
    case Lagged(n, toSeq) => BackfillIsAsked(ClearQueue(q), Max(n, PublicSequence(toSeq)));
    case _ =>
  }

  function Noticed(s: Refs, m: Message): Refs {
    var inbound := if m.Hello? then m.observedSeq
                   else if m.observedSeq > 0 then Max(s.latestInbound, m.observedSeq) else s.latestInbound;
    s.(latestInbound := inbound, latestObserved := Max(s.latestObserved, m.observedSeq))
  }

  lemma NoticedKeeps(s: Refs, m: Message)
    requires Inv(s)
    ensures Inv(Noticed(s, m))
  {
  }

  lemma HearMeans(s: Refs, m: Message)
    requires Inv(s)
    ensures Heard(s, m, Receive(s, m))
  {
    var q := Noticed(s, m);
    ReceiveKeeps(s, m);
    MessageIsAnswered(s, m);
    match m
    case Hello(n) => HelloMeans(q, n);
    case Pong(_) =>
    case Lagged(n, toSeq) => LaggedMeans(q, Max(n, PublicSequence(toSeq)));
    case LiveEvent(_, e) => EventMeans(s, m);
  }

  lemma LaggedMeans(q: Refs, target: int)
    ensures var t := Backfill(ClearQueue(q), target);
            && HandsNothing(q, t) && t.pending == [] && t.latestObserved == q.latestObserved
            && (q.lastApplied < target <= MAX_SAFE && 0 <= q.lastApplied ==> AskedFor(t, target))
            && KeepsAsking(q, t) && t.latestInbound == q.latestInbound
  {
    if 0 <= q.lastApplied < target <= MAX_SAFE { BackfillAsks(ClearQueue(q), target); }
  }

  lemma EventMeans(s: Refs, m: Message)
    requires Inv(s) && m.LiveEvent?
    ensures var t := Receive(s, m);
            && HandsNothing(s, t) && t.latestObserved == Max(s.latestObserved, m.observedSeq)
            && Enqueued(s, m.envelope, t) && Accounted(s, m.envelope, t)
            && KeepsAsking(s, t) && t.latestInbound == Noticed(s, m).latestInbound
  {
    var q := Noticed(s, m);
    EnqueueAccounts(q, m.envelope);
    EnqueueKeepsAsking(q, m.envelope);
    EnqueueObserves(q, m.envelope);
    AccountedTo(q, s, m.envelope, Receive(s, m));
  }

  lemma EnqueueObserves(s: Refs, m: Envelope)
    ensures Enqueue(s, m).latestObserved == s.latestObserved && Enqueue(s, m).latestInbound == s.latestInbound
  {
  }

  lemma AccountedTo(q: Refs, s: Refs, m: Envelope, t: Refs)
    requires q.pending == s.pending && q.lastApplied == s.lastApplied && q.lastQueued == s.lastQueued
    requires q.resetActive == s.resetActive
    requires Accounted(q, m, t)
    ensures Accounted(s, m, t)
  {
  }

  lemma HelloMeans(q: Refs, n: int)
    requires Inv(q)
    ensures var t := Backfill(q, if HelloNeedsProbe(n, q.lastApplied) then 0 else n);
            && HandsNothing(q, t) && t.pending == q.pending && t.latestObserved == q.latestObserved
            && (q.lastApplied < n <= MAX_SAFE ==> AskedFor(t, n))
            && (PublicSequence(n) < q.lastApplied ==> t.queuedPoll || t.recovery.Fetching?)
            && KeepsAsking(q, t) && t.latestInbound == q.latestInbound
  {
    if q.lastApplied < n <= MAX_SAFE { BackfillAsks(q, n); }
  }

  /** A failed recovery hands nothing on, and what it was to fetch is asked for again. */
  ghost predicate FailureTaken(s: Refs, t: Refs)
    requires s.recovery.Fetching?
  {
    && HandsNothing(s, t) && t.pending == s.pending && t.recovery == Ending(true)
    && s.queuedTarget <= t.queuedTarget && (s.queuedPoll ==> t.queuedPoll)
    && match s.recovery.requested
       case Some(n) => n <= t.queuedTarget
       case None => t.queuedPoll
  }

  /** When a recovery has ended well outside a reset and something is left to ask for, it is fetched at
      once; otherwise the client is idle and what is left stays asked for. */
  ghost predicate SettledTo(s: Refs, t: Refs)
    requires s.recovery.Ending?
  {
    if !s.recovery.failed && !s.resetActive && (s.queuedPoll || s.queuedTarget > s.lastApplied) then
      && HandsNothing(s, t) && t.pending == s.pending
      && t.recovery == Fetching(s.generation, if s.queuedTarget > 0 then Some(s.queuedTarget) else None)
      && t.queuedTarget == 0 && !t.queuedPoll
    else t == s.(recovery := Idle)
  }

  // ---------------------------------------------------------------------------
  // The refs
  // ---------------------------------------------------------------------------

  method HighestNumber(messages: seq<Envelope>, start: int) returns (n: int)
    ensures n == HighestMentioned(messages, start)
  {
    n := start;
    for i := 0 to |messages|
      invariant n == HighestMentioned(messages[..i], start)
    {
      assert messages[..i + 1][..i] == messages[..i];
      n := Max(n, Mentioned(messages[i]));
    }
    assert messages[..|messages|] == messages;
  }

  class CursorRefs {
    var pending: seq<Envelope>
    var lastApplied: int
    var lastQueued: int
    var latestObserved: int
    var latestInbound: int
    var generation: nat
    var epochReset: bool
    var resetActive: bool
    var refreshFloor: int
    var refreshIsReset: bool
    var queuedTarget: int
    var queuedPoll: bool
    var recovery: Recovery
    ghost var seen: History

    ghost function State(): Refs
      reads this
    {
      Refs(pending, lastApplied, lastQueued, latestObserved, latestInbound, generation, epochReset, resetActive,
           refreshFloor, refreshIsReset, queuedTarget, queuedPoll, recovery, seen)
    }

    constructor ()
      ensures State() == Initial() && Inv(State())
    {
      pending, lastApplied, lastQueued, latestObserved, latestInbound := [], 0, 0, 0, 0;
      generation, epochReset, resetActive, refreshFloor, refreshIsReset := 0, false, false, 0, false;
      queuedTarget, queuedPoll, recovery := 0, false, Idle;
      seen := History(0, [], {});
    }

    method NextRound()
      modifies this
      ensures State() == LoopHead(old(State()))
    {
      if queuedPoll || queuedTarget > lastApplied {
        recovery := Fetching(generation, if queuedTarget > 0 then Some(queuedTarget) else None);
        queuedTarget := 0;
        queuedPoll := false;
      } else {
        recovery := Ending(false);
      }
    }

    method BackfillOrRefresh(latestSeq: int)
      modifies this
      ensures State() == Backfill(old(State()), latestSeq) && Asks(old(State()), latestSeq, State())
    {
      BackfillIsAsked(State(), latestSeq);
      var recoveryTarget := PublicSequence(latestSeq);
      if recoveryTarget > 0 {
        queuedTarget := Max(queuedTarget, recoveryTarget);
      } else {
        queuedPoll := true;
      }
      if !recovery.Idle? || resetActive { return; }
      NextRound();
    }

    method DropQueue()
      modifies this`pending, this`lastQueued
      ensures State() == ClearQueue(old(State()))
    {
      pending := [];
      lastQueued := lastApplied;
    }

    /** Takes an event off the socket: nothing is handed on, and no number is forgotten over a durable
        one. */
    method EnqueueMessage(message: Envelope)
      requires Inv(State())
      modifies this
      ensures State() == Enqueue(old(State()), message) && Inv(State())
      ensures HandsNothing(old(State()), State()) && Enqueued(old(State()), message, State())
      ensures Accounted(old(State()), message, State()) && KeepsAsking(old(State()), State())
    {
      EnqueueKeeps(State(), message);
      EnqueueAccounts(State(), message);
      EnqueueKeepsAsking(State(), message);
      var sequence := Classify(message);
      var recoveryTarget := Max(if sequence.Durable? then sequence.seqNo else 0, PublicSequence(message.latestSeq));
      if sequence.Invalid? {
        DropQueue();
        BackfillOrRefresh(recoveryTarget);
        return;
      }
      if sequence.Durable? && resetActive {
        BackfillOrRefresh(recoveryTarget);
        return;
      }
      if sequence.Durable? && !ShouldQueue(sequence.seqNo, lastApplied, lastQueued) { return; }
      var nextPending := pending + [message];
      if |nextPending| > MAX_PENDING {
        DropQueue();
        BackfillOrRefresh(recoveryTarget);
        return;
      }
      pending := nextPending;
      if sequence.Durable? { lastQueued := sequence.seqNo; }
    }

    /** One animation frame; ordered is what the platform's sort made of the queue. */
    method FlushMessages(ordered: seq<Envelope>)
      requires Inv(State()) && MaySort(pending, ordered) && |ordered| == |pending|
      modifies this
      ensures State() == Flush(old(State()), ordered) && FrameTaken(old(State()), ordered, State())
    {
      ghost var before := State();
      FlushMeans(before, ordered);
      if |pending| == 0 { return; }
      var cut := Min(MAX_BATCH, |ordered|);
      var due, rest := ordered[..cut], ordered[cut..];
      var batch := TakeIncreasingLiveEnvelopes(due, lastApplied);
      if batch.invalid {
        var recoveryTarget := HighestNumber(ordered, latestObserved);
        DropQueue();
        BackfillOrRefresh(recoveryTarget);
        return;
      }
      if |batch.accepted| > 0 {
        lastApplied := batch.cursor;
        seen := Hand(seen, Durables(batch.accepted));
      }
      pending := Retain(rest, lastApplied);
      assert State() == Flush(before, ordered);
    }

    method MoveCursor(cursor: int)
      modifies this`lastApplied, this`pending, this`lastQueued
      ensures State() == RaiseCursor(old(State()), cursor)
    {
      lastApplied := cursor;
      pending := Retain(pending, cursor);
      lastQueued := Highest(Durables(pending), cursor);
    }

    method ApplyRecoveredPage(events: seq<int>)
      requires Inv(State()) && recovery.Fetching? && Follows(events, 0) && LastOr(events, 0) <= MAX_SAFE
      modifies this
      ensures State() == ApplyPage(old(State()), events) && PageTaken(old(State()), events, State())
    {
      PageMeans(State(), events);
      if recovery.origin != generation { return; }
      var unapplied := SortBy(Less(), Beyond(events, lastApplied));
      if |unapplied| == 0 { return; }
      MoveCursor(unapplied[|unapplied| - 1]);
      seen := Hand(seen, unapplied);
      seen := seen.(origins := seen.origins + {recovery.origin});
    }

    method RefreshState(minimumSeq: int, resetCursorEpoch: bool)
      modifies this`refreshFloor, this`refreshIsReset, this`resetActive
      ensures State() == Refresh(old(State()), minimumSeq, resetCursorEpoch)
      ensures refreshIsReset == (old(refreshIsReset) || resetCursorEpoch)
      ensures resetActive == (refreshIsReset || refreshFloor > 0)
      ensures old(refreshIsReset) && !resetCursorEpoch ==> refreshFloor == old(refreshFloor)
      ensures !old(refreshIsReset) || resetCursorEpoch ==> minimumSeq <= refreshFloor
      ensures refreshFloor in {0, minimumSeq, old(refreshFloor)}
    {
      if resetCursorEpoch {
        refreshFloor := Max(0, minimumSeq);
        refreshIsReset := true;
      } else if !refreshIsReset {
        refreshFloor := Max(refreshFloor, minimumSeq);
      }
      resetActive := refreshIsReset || refreshFloor > 0;
    }

    method Retarget(target: int)
      modifies this`epochReset, this`latestObserved, this`latestInbound, this`queuedTarget, this`queuedPoll
      ensures State() == old(State()).(epochReset := true, latestObserved := target, latestInbound := target,
                                       queuedTarget := target, queuedPoll := false)
    {
      epochReset := true;
      latestObserved := target;
      latestInbound := target;
      queuedTarget := target;
      queuedPoll := false;
    }

    method BeginCursorReset(serverLatest: int)
      modifies this
      ensures State() == BeginReset(old(State()), serverLatest)
    {
      var resetTarget := ResetTarget(serverLatest, lastApplied, latestInbound);
      Retarget(resetTarget);
      pending := [];
      lastQueued := resetTarget;
      resetActive := true;
      RefreshState(resetTarget, true);
    }

    method HandleResult(result: Outcome)
      requires Inv(State()) && recovery.Fetching? && result.cursor <= MAX_SAFE
      modifies this
      ensures State() == Recovered(old(State()), result) && ResultTaken(old(State()), result, State())
    {
      ResultMeans(State(), result);
      if recovery.origin != generation {
        var again := if recovery.requested.Some? then recovery.requested.value else latestObserved;
        queuedTarget := Max(queuedTarget, again);
        NextRound();
        return;
      }
      if result.status.ResetRequired? || result.status.UnrecoverableGap? {
        BeginCursorReset(result.latestSeq);
        recovery := Ending(false);
        return;
      }
      if result.status.CaughtUp? { MoveCursor(Max(lastApplied, result.cursor)); }
      latestObserved := Max(latestObserved, result.latestSeq);
      NextRound();
    }

    method HandleFailure()
      requires Inv(State()) && recovery.Fetching?
      modifies this
      ensures State() == RecoveryFailed(old(State())) && Inv(State()) && FailureTaken(old(State()), State())
    {
      FailureKeeps(State());
      if recovery.requested.Some? {
        queuedTarget := Max(queuedTarget, recovery.requested.value);
      } else {
        queuedPoll := true;
      }
      recovery := Ending(true);
    }

    method HandleSettled()
      requires Inv(State()) && recovery.Ending?
      modifies this
      ensures State() == Settle(old(State())) && Inv(State()) && SettledTo(old(State()), State())
    {
      SettleKeeps(State());
      var failed := recovery.failed;
      recovery := Idle;
      if !failed && !resetActive && (queuedPoll || queuedTarget > lastApplied) { BackfillOrRefresh(queuedTarget); }
    }

    method InstallSnapshot(snapshotSeq: nat)
      modifies this
      ensures State() == Install(old(State()), snapshotSeq)
    {
      latestObserved := Max(latestObserved, snapshotSeq);
      latestInbound := Max(latestInbound, snapshotSeq);
      generation := generation + 1;
      lastApplied := snapshotSeq;
      DropQueue();
      seen := History(snapshotSeq, [], {});
    }

    method ApplyPublicSnapshot(snapshotSeq: nat, recoveryFloor: Option<int>, stateSeq: int, sameSignature: bool)
      returns (done: bool)
      modifies this
      requires Inv(State()) && snapshotSeq <= MAX_SAFE
      ensures State() == ApplySnapshot(old(State()), snapshotSeq, recoveryFloor, stateSeq, sameSignature)
      ensures if done then Rebased(old(State()), snapshotSeq, State()) else State() == old(State())
      ensures recoveryFloor.Some? ==> (done <==> snapshotSeq >= recoveryFloor.value)
      ensures recoveryFloor.None? ==>
                (done <==> snapshotSeq >= old(latestObserved) && snapshotSeq >= PublicSequence(stateSeq) &&
                           !sameSignature)
      ensures Inv(State())
    {
      SnapshotKeeps(State(), snapshotSeq, recoveryFloor, stateSeq, sameSignature);
      var requiredSeq :=
        if recoveryFloor.None? then Max(PublicSequence(stateSeq), latestObserved) else Max(0, recoveryFloor.value);
      if snapshotSeq < requiredSeq { return false; }
      if recoveryFloor.None? && sameSignature { return false; }
      InstallSnapshot(snapshotSeq);
      return true;
    }

    method StateFetched(snapshotSeq: nat)
      requires Inv(State()) && snapshotSeq <= MAX_SAFE
      modifies this
      ensures State() == RefreshDone(old(State()), snapshotSeq) && Refreshed(old(State()), snapshotSeq, State())
    {
      ghost var before := State();
      RefreshMeans(before, snapshotSeq);
      if snapshotSeq < refreshFloor { return; }
      var done := ApplyPublicSnapshot(snapshotSeq, Some(refreshFloor), 0, false);
      if !done { return; }
      refreshFloor := 0;
      refreshIsReset := false;
      resetActive := false;
      epochReset := false;
      BackfillOrRefresh(latestObserved);
      assert State() == RefreshDone(before, snapshotSeq);
    }

    method Notice(message: Message)
      modifies this`latestInbound, this`latestObserved
      ensures State() == Noticed(old(State()), message)
    {
      var observedSeq := message.observedSeq;
      if message.Hello? {
        latestInbound := observedSeq;
      } else if observedSeq > 0 {
        latestInbound := Max(latestInbound, observedSeq);
      }
      latestObserved := Max(latestObserved, observedSeq);
    }

    method OnSocketMessage(message: Message)
      requires Inv(State())
      modifies this
      ensures State() == Receive(old(State()), message) && Heard(old(State()), message, State())
    {
      HearMeans(State(), message);
      NoticedKeeps(State(), message);
      Notice(message);
      match message
      case Hello(observedSeq) =>
        BackfillOrRefresh(if HelloNeedsProbe(observedSeq, lastApplied) then 0 else observedSeq);
      case Pong(_) =>
      case Lagged(observedSeq, toSeq) =>
        DropQueue();
        BackfillOrRefresh(Max(observedSeq, PublicSequence(toSeq)));
      case LiveEvent(_, envelope) =>
        EnqueueMessage(envelope);
    }
  }
}
