/** Conservation along the ingest pipeline, in every run. */
module IngestConservation {
  import opened Shared
  import opened IngestPipeline

  datatype Step =
    | Submitting(msg: Msg, now: int)
    | Receiving
    | Popping
    | Handling
    | Persisting(ok: bool)
    | Panicking
    | Enqueueing(now: int)
    | Sending
    | Counting
    | Picking
    | Completing

  predicate Enabled(c: Capacities, s: State, step: Step) {
    match step
    case Submitting(_, _) => true
    case Receiving => s.hand.Free? && s.queue != []
    case Popping => s.hand.Received?
    case Handling => s.hand.Judging?
    case Persisting(_) => s.hand.Saving?
    case Panicking => s.hand.Judging? || s.hand.Saving? || s.hand.Saved?
    case Enqueueing(_) => s.hand.Saved?
    case Sending => s.hand.Waiting? && |s.derived| < c.derived
    case Counting => s.hand.Ending?
    case Picking => s.worker.Resting? && s.derived != []
    case Completing => s.worker.Working?
  }

  function Do(c: Capacities, s: State, step: Step): State
    requires Enabled(c, s, step)
  {
    match step
    case Submitting(m, now) => Submit(c, s, m, now)
    case Receiving => Receive(s)
    case Popping => PopTime(s)
    case Handling => Judge(s)
    case Persisting(ok) => Save(s, ok)
    case Panicking => Panic(s)
    case Enqueueing(now) => Enqueue(c, s, now)
    case Sending => Send(s)
    case Counting => Count(s)
    case Picking => Work(s)
    case Completing => Finish(s)
  }

  // ---------------------------------------------------------------------------
  // What is where
  // ---------------------------------------------------------------------------

  function Msgs(q: seq<Queued>): seq<Msg> { seq(|q|, i requires 0 <= i < |q| => q[i].msg) }

  function Times(q: seq<Queued>): seq<int> { seq(|q|, i requires 0 <= i < |q| => q[i].at) }

  function Finished(entries: seq<Entry>): seq<Msg> { seq(|entries|, i requires 0 <= i < |entries| => entries[i].msg) }

  function InHand(h: Hand): seq<Msg> {
    match h
    case Free => []
    case Received(q) => [q.msg]
    case Ending(e) => [e.msg]
    case Judging(m) => [m]
    case Saving(m) => [m]
    case Saved(m) => [m]
    case Waiting(m, _) => [m]
  }

  function InWork(w: Worker): seq<Msg> { if w.Working? then [w.job.msg] else [] }

  function SavedOf(entries: seq<Entry>): seq<Msg> {
    if entries == [] then []
    else
      var init, e := SavedOf(entries[..|entries| - 1]), entries[|entries| - 1];
      if e.saved then init + [e.msg] else init
  }

  function HandedOf(entries: seq<Entry>): seq<Msg> {
    if entries == [] then []
    else
      var init, e := HandedOf(entries[..|entries| - 1]), entries[|entries| - 1];
      if e.handed then init + [e.msg] else init
  }

  function SavedInHand(h: Hand): seq<Msg> {
    if h.Saved? || h.Waiting? then [h.msg] else if h.Ending? && h.entry.saved then [h.entry.msg] else []
  }

  function HandedInHand(h: Hand): seq<Msg> { if h.Ending? && h.entry.handed then [h.entry.msg] else [] }

  /** Processed and in need of persistence means persisted and handed over; rejected means neither
      needed nor done. */
  predicate Honest(e: Entry) {
    && (e.outcome.Processed? && NeedsSaving(e.msg) ==> e.saved && e.handed)
    && (e.handed ==> e.saved && e.outcome.Processed?) && (e.saved ==> NeedsSaving(e.msg))
    && (e.outcome.Rejected? ==> !NeedsSaving(e.msg) && !e.msg.kind.Internal?)
  }

  predicate HonestHand(h: Hand) {
    && (h.Ending? ==> Honest(h.entry))
    && (h.Saving? || h.Saved? || h.Waiting? ==> NeedsSaving(h.msg))
  }

  /** Every accepted message, in order of acceptance, is finished, in hand or queued. */
  ghost predicate Placed(s: State) { s.seen.accepted == Finished(s.seen.finished) + InHand(s.hand) + Msgs(s.queue) }

  /** The timestamps mirror the queue, with the received but not yet popped head in front. */
  ghost predicate QueueTimed(s: State) {
    s.queueTimes == (if s.hand.Received? then [s.hand.queued.at] else []) + Times(s.queue)
  }

  /** The timestamps mirror the job at work, the derived queue, and the job waiting for room. */
  ghost predicate DerivedTimed(s: State) {
    s.derivedTimes == (if s.worker.Working? then [s.worker.job.at] else []) + Times(s.derived)
                      + (if s.hand.Waiting? then [s.hand.at] else [])
  }

  /** Persisted and handed messages are those of the entries that say so, in order. */
  ghost predicate Traced(s: State) {
    && s.seen.saved == SavedOf(s.seen.finished) + SavedInHand(s.hand)
    && s.seen.handed == HandedOf(s.seen.finished) + HandedInHand(s.hand)
    && (forall i | 0 <= i < |s.seen.finished| :: Honest(s.seen.finished[i])) && HonestHand(s.hand)
  }

  /** Every job handed over, in order, is done, at work or queued. */
  ghost predicate Derived(s: State) { s.seen.handed == s.seen.done + InWork(s.worker) + Msgs(s.derived) }

  function Outcomes(entries: seq<Entry>, o: Outcome): nat {
    if entries == [] then 0
    else Outcomes(entries[..|entries| - 1], o) + (if entries[|entries| - 1].outcome == o then 1 else 0)
  }

  ghost predicate Counted(s: State) {
    && s.counters.accepted == |s.seen.accepted| && s.counters.total == s.counters.accepted + s.counters.dropped
    && s.counters.rejected == Outcomes(s.seen.finished, Rejected)
       && s.counters.failed == Outcomes(s.seen.finished, Failed)
    && s.counters.processed == Outcomes(s.seen.finished, Processed) + Outcomes(s.seen.finished, Rejected)
    && s.counters.processed + s.counters.failed == |s.seen.finished|
  }

  ghost predicate Inv(c: Capacities, s: State) {
    && |s.queue| <= c.queue && |s.derived| <= c.derived
    && Placed(s) && QueueTimed(s) && DerivedTimed(s) && Traced(s) && Derived(s) && Counted(s)
  }

  // ---------------------------------------------------------------------------
  // Every step keeps it
  // ---------------------------------------------------------------------------

  lemma SubmitKeeps(c: Capacities, s: State, m: Msg, now: int)
    requires Inv(c, s)
    ensures Inv(c, Submit(c, s, m, now))
  {
  }

  lemma EnqueueKeeps(c: Capacities, s: State, now: int)
    requires Inv(c, s) && s.hand.Saved?
    ensures Inv(c, Enqueue(c, s, now))
  {
  }

  lemma CountCounts(s: State)
    requires s.hand.Ending? && Counted(s)
    ensures Counted(Count(s))
  {
  }

  lemma CountKeeps(c: Capacities, s: State)
    requires Inv(c, s) && s.hand.Ending?
    ensures Inv(c, Count(s))
  {
    CountCounts(s);
  }

  lemma WorkKeeps(c: Capacities, s: State)
    requires Inv(c, s)
    ensures s.worker.Resting? && s.derived != [] ==> Inv(c, Work(s))
    ensures s.worker.Working? ==> Inv(c, Finish(s))
  {
  }

  lemma ReceiveKeeps(c: Capacities, s: State)
    requires Inv(c, s) && s.hand.Free? && s.queue != []
    ensures Inv(c, Receive(s))
  {
    assert Msgs(s.queue) == [s.queue[0].msg] + Msgs(s.queue[1..]);
  }

  lemma PopKeeps(c: Capacities, s: State)
    requires Inv(c, s) && s.hand.Received?
    ensures Inv(c, PopTime(s)) && s.queueTimes == [s.hand.queued.at] + PopTime(s).queueTimes
  {
  }

  lemma JudgeKeeps(c: Capacities, s: State)
    requires Inv(c, s) && s.hand.Judging?
    ensures Inv(c, Judge(s))
  {
  }

  lemma SaveKeeps(c: Capacities, s: State, ok: bool)
    requires Inv(c, s) && s.hand.Saving?
    ensures Inv(c, Save(s, ok))
  {
  }

  lemma PanicKeeps(c: Capacities, s: State)
    requires Inv(c, s) && (s.hand.Judging? || s.hand.Saving? || s.hand.Saved?)
    ensures Inv(c, Panic(s))
  {
  }

  lemma SendKeeps(c: Capacities, s: State)
    requires Inv(c, s) && s.hand.Waiting? && |s.derived| < c.derived
    ensures Inv(c, Send(s))
  {
  }

  lemma StepKeepsInv(c: Capacities, s: State, step: Step)
    requires Inv(c, s) && Enabled(c, s, step)
    ensures Inv(c, Do(c, s, step))
  {
    match step
    case Submitting(m, now) => SubmitKeeps(c, s, m, now);
    case Receiving => ReceiveKeeps(c, s);
    case Popping => PopKeeps(c, s);
    case Handling => JudgeKeeps(c, s);
    case Persisting(ok) => SaveKeeps(c, s, ok);
    case Panicking => PanicKeeps(c, s);
    case Enqueueing(now) => EnqueueKeeps(c, s, now);
    case Sending => SendKeeps(c, s);
    case Counting => CountKeeps(c, s);
    case Picking => WorkKeeps(c, s);
    case Completing => WorkKeeps(c, s);
  }

  ghost predicate Run(c: Capacities, states: seq<State>, steps: seq<Step>) {
    && |states| == |steps| + 1 && states[0] == Empty()
    && forall i | 0 <= i < |steps| :: Enabled(c, states[i], steps[i]) && states[i + 1] == Do(c, states[i], steps[i])
  }

  /** In every state of every run: each accepted message has exactly one place, both lists of
      timestamps mirror their queues, and the counters add up. */
  lemma {:induction false} RunConserves(c: Capacities, states: seq<State>, steps: seq<Step>, k: nat)
    requires Run(c, states, steps) && k < |states|
    ensures Inv(c, states[k])
  {
    if k > 0 {
      RunConserves(c, states, steps, k - 1);
      StepKeepsInv(c, states[k - 1], steps[k - 1]);
      assert states[k - 1 + 1] == Do(c, states[k - 1], steps[k - 1]);
    }
  }

  // ---------------------------------------------------------------------------
  // Exactly once
  // ---------------------------------------------------------------------------

  lemma {:induction false} SavedOnce(entries: seq<Entry>, i: nat)
    requires i < |entries| && entries[i].saved
    requires forall j, k | 0 <= j < k < |entries| :: entries[j].msg != entries[k].msg
    ensures multiset(SavedOf(entries))[entries[i].msg] == 1
  {
    var n := |entries| - 1;
    var init := entries[..n];
    if i < n {
      SavedOnce(init, i);
      assert entries[i].msg != entries[n].msg;
    } else {
      NotSaved(init, entries[n].msg);
    }
  }

  lemma {:induction false} NotSaved(entries: seq<Entry>, m: Msg)
    requires forall j | 0 <= j < |entries| :: entries[j].msg != m
    ensures m !in SavedOf(entries) && m !in HandedOf(entries)
  {
    if entries != [] { NotSaved(entries[..|entries| - 1], m); }
  }

  lemma {:induction false} HandedOnce(entries: seq<Entry>, i: nat)
    requires i < |entries| && entries[i].handed
    requires forall j, k | 0 <= j < k < |entries| :: entries[j].msg != entries[k].msg
    ensures multiset(HandedOf(entries))[entries[i].msg] == 1
  {
    var n := |entries| - 1;
    var init := entries[..n];
    if i < n {
      HandedOnce(init, i);
      assert entries[i].msg != entries[n].msg;
    } else {
      NotSaved(init, entries[n].msg);
    }
  }

  lemma HandIsOther(s: State, i: nat)
    requires Placed(s) && Distinct(s.seen.accepted) && i < |s.seen.finished|
    ensures s.seen.finished[i].msg !in InHand(s.hand)
    ensures forall j, k | 0 <= j < k < |s.seen.finished| :: s.seen.finished[j].msg != s.seen.finished[k].msg
  {
    var f := Finished(s.seen.finished);
    forall j | 0 <= j < |f| ensures s.seen.accepted[j] == s.seen.finished[j].msg { assert s.seen.accepted[j] == f[j]; }
    if InHand(s.hand) != [] {
      assert s.seen.accepted[|f|] == InHand(s.hand)[0] && s.seen.accepted[i] != s.seen.accepted[|f|];
    }
    forall j, k | 0 <= j < k < |f| ensures s.seen.finished[j].msg != s.seen.finished[k].msg {
      assert s.seen.accepted[j] != s.seen.accepted[k];
    }
  }

  /** A packet or status message that was counted processed was persisted exactly once and is in
      exactly one place of the derived side: done, at work or queued. */
  lemma ProcessedExactlyOnce(c: Capacities, s: State, i: nat)
    requires Inv(c, s) && Distinct(s.seen.accepted) && i < |s.seen.finished|
    requires s.seen.finished[i].outcome.Processed? && NeedsSaving(s.seen.finished[i].msg)
    ensures multiset(s.seen.saved)[s.seen.finished[i].msg] == 1
    ensures multiset(s.seen.done + InWork(s.worker) + Msgs(s.derived))[s.seen.finished[i].msg] == 1
  {
    HandIsOther(s, i);
    SavedOnce(s.seen.finished, i);
    HandedOnce(s.seen.finished, i);
    assert s.seen.finished[i].msg !in SavedInHand(s.hand) && s.seen.finished[i].msg !in HandedInHand(s.hand);
  }
}
