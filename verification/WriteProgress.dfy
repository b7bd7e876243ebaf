/** The write loop never gets stuck and never spins (backend/internal/app/write_coordinator.go): left
    to itself it answers all it was sent and then rests. */
module WriteProgress {
  import opened WriterLedger
  import opened WriteCoordinator

  /** The steps of the loop itself; the others belong to callers and contexts. */
  predicate OfLoop(step: Step) {
    match step
    case Offer(_) => false
    case Send(_) => false
    case Withdraw(_) => false
    case Finish(_) => false
    case Close => false
    case _ => true
  }

  /** The loop has returned, or blocks on a channel that holds nothing. */
  predicate Resting(s: Coord) {
    s.phase.Stopped? || (s.phase.Waiting? && Empty(s.queues) && s.inbox == [] && !s.closed)
  }

  function Queued(q: Queues): nat { |q.primary| + |q.liveCore| + |q.background| }

  /** How many steps the loop can still take by itself: six for each request in the channel, one
      less for each it has queued, and what its phase leaves to do. */
  function Work(s: Coord): nat {
    6 * |s.inbox| + 5 * Queued(s.queues) +
    (match s.phase
     case Stopped => 0
     case Choosing => 1
     case Draining => 2
     case Waiting => 3
     case Executing(_) => 4
     case Granted(_) => 5)
  }

  /** Every step of the loop brings it closer to its rest. */
  lemma LoopWorks(s: Coord, step: Step)
    requires Enabled(s, step) && OfLoop(step)
    ensures Work(Do(s, step)) < Work(s)
  {
  }

  /** A loop that does not rest has a step to take. */
  lemma LoopIsNeverStuck(s: Coord) returns (step: Step)
    requires Inv(s) && !Resting(s)
    ensures OfLoop(step) && Enabled(s, step)
  {
    match s.phase
    case Waiting =>
      step := if !Empty(s.queues) then Begin else if s.inbox != [] then Receive else Stop;
    case Draining => step := if s.inbox != [] then Receive else Settle;
    case Choosing =>
      SelectionNeverFails(s);
      step := Grant;
    case Granted(r) => step := if r.id in s.done then Reject else Start;
    case Executing(_) => step := Return("");
  }

  /** A run in which only the loop moves. */
  ghost predicate LoopRun(states: seq<Coord>, steps: seq<Step>) {
    Run(states, steps) && forall i | 0 <= i < |steps| :: OfLoop(steps[i])
  }

  /** Such a run has at most as many steps as there was work. */
  lemma {:induction false} LoopRunIsShort(states: seq<Coord>, steps: seq<Step>, i: nat)
    requires LoopRun(states, steps) && i < |states|
    ensures i + Work(states[i]) <= Work(states[0])
  {
    if i > 0 {
      LoopRunIsShort(states, steps, i - 1);
      LoopWorks(states[i - 1], steps[i - 1]);
    }
  }

  /** What a run of the loop leaves alone. */
  ghost predicate SameCallers(s: Coord, t: Coord) {
    t.offered == s.offered && t.sent == s.sent && t.done == s.done && t.closed == s.closed
  }

  lemma RestIsAnswered(s: Coord, lane: Lane)
    requires Inv(s) && Resting(s)
    ensures OfLane(s.sent, lane) == OfLane(Answered(s.results), lane) + OfLane(s.inbox, lane)
  {
    assert LaneInv(s, lane) && Get(s.queues, lane) == [];
    assert Answered(s.results) + [] == Answered(s.results);
    assert OfLane(s.grants, lane) + [] == OfLane(s.grants, lane);
  }

  /** A run with one more step in front. */
  lemma StepFirst(s: Coord, step: Step, after: seq<Coord>, rest: seq<Step>)
      returns (states: seq<Coord>, steps: seq<Step>)
    requires Run(after, rest) && Enabled(s, step) && after[0] == Do(s, step)
    ensures Run(states, steps) && states[0] == s && |steps| == |rest| + 1 && states[|steps|] == after[|rest|]
    ensures OfLoop(step) && LoopRun(after, rest) ==> LoopRun(states, steps)
  {
    states, steps := [s] + after, [step] + rest;
  }

  /** At rest every lane was answered what it was sent, in order, but for what a stopped loop never took. */
  ghost predicate AllAnswered(s: Coord) {
    forall lane :: OfLane(s.sent, lane) == OfLane(Answered(s.results), lane) + OfLane(s.inbox, lane)
  }

  /** From every state that keeps the invariant the loop can come to rest by itself; it then has
      answered everything it took, and a closed one has stopped. */
  lemma {:induction false} LoopComesToRest(s: Coord) returns (states: seq<Coord>, steps: seq<Step>)
    requires Inv(s)
    ensures LoopRun(states, steps) && states[0] == s && |steps| <= Work(s)
    ensures var t := states[|steps|];
            Resting(t) && SameCallers(s, t) && AllAnswered(t) && (s.closed ==> t.phase.Stopped?)
    decreases Work(s)
  {
    if Resting(s) {
      states, steps := [s], [];
      forall lane { RestIsAnswered(s, lane); }
    } else {
      var step := LoopIsNeverStuck(s);
      LoopWorks(s, step);
      StepKeepsInv(s, step);
      StepCallers(s, step);
      var after, rest := LoopComesToRest(Do(s, step));
      states, steps := StepFirst(s, step, after, rest);
    }
  }

  lemma StepCallers(s: Coord, step: Step)
    requires Enabled(s, step) && OfLoop(step)
    ensures SameCallers(s, Do(s, step))
  {
  }

  /** When besides every caller still waiting for room has given up, by its context or because the
      coordinator closed, none of them is left behind either. */
  lemma {:induction false} AllComesToRest(s: Coord) returns (states: seq<Coord>, steps: seq<Step>)
    requires Inv(s) && forall r | r in s.offered :: r.id in s.done || s.closed
    ensures Run(states, steps) && states[0] == s
    ensures var t := states[|steps|];
            Resting(t) && t.offered == [] && t.sent == s.sent && AllAnswered(t) && (s.closed ==> t.phase.Stopped?)
    decreases |s.offered|
  {
    if s.offered == [] {
      states, steps := LoopComesToRest(s);
    } else {
      var next := Do(s, Withdraw(0));
      StepKeepsInv(s, Withdraw(0));
      assert next.offered == s.offered[1..];
      var after, rest := AllComesToRest(next);
      states, steps := StepFirst(s, Withdraw(0), after, rest);
    }
  }

  /** What is left once r alone lies in the channel of a waiting loop. */
  lemma LoneRequestIsGranted(s: Coord, r: Request) returns (states: seq<Coord>, steps: seq<Step>)
    requires s.phase.Waiting? && Empty(s.queues) && s.inbox == [r]
    ensures LoopRun(states, steps) && |steps| == 3 && states[0] == s
    ensures var t := states[3];
            && t.phase == Granted(r) && Empty(t.queues) && t.inbox == []
            && SameCallers(s, t) && t.started == s.started && t.results == s.results
  {
    var s1 := Do(s, Receive);
    EnqueueGet(s.queues, r, r.lane);
    assert Get(s1.queues, r.lane) == [r];
    var s2 := Do(s1, Settle);
    states, steps := StepFirst(s2, Grant, [Do(s2, Grant)], []);
    states, steps := StepFirst(s1, Settle, states, steps);
    states, steps := StepFirst(s, Receive, states, steps);
  }

  /** A request offered to a resting loop can be sent, taken and granted. */
  lemma AnyRequestIsGranted(s: Coord, r: Request) returns (states: seq<Coord>, steps: seq<Step>)
    requires Resting(s) && s.phase.Waiting?
    ensures Run(states, steps) && |steps| == 5 && states[0] == s
    ensures var t := states[5];
            && t.phase == Granted(r) && Empty(t.queues) && t.inbox == [] && t.offered == s.offered
            && t.sent == s.sent + [r] && t.started == s.started && t.results == s.results
            && t.done == s.done && t.closed == s.closed
  {
    var s1 := Do(s, Offer(r));
    var s2 := Do(s1, Send(|s.offered|));
    assert s2.offered == s.offered;
    states, steps := LoneRequestIsGranted(s2, r);
    states, steps := StepFirst(s1, Send(|s.offered|), states, steps);
    states, steps := StepFirst(s, Offer(r), states, steps);
  }

  /** A run with one more step behind. */
  lemma StepLast(states: seq<Coord>, steps: seq<Step>, step: Step)
    requires Run(states, steps) && Enabled(states[|steps|], step)
    ensures Run(states + [Do(states[|steps|], step)], steps + [step])
  {
  }

  /** A loop at rest serves any request: it is granted, called and answered with what its function
      returned; or, when its context is done by then, answered with that error and never called. */
  lemma AnyRequestIsServed(s: Coord, r: Request, error: string, late: bool)
      returns (states: seq<Coord>, steps: seq<Step>)
    requires Resting(s) && s.phase.Waiting? && r.id !in s.done
    ensures Run(states, steps) && states[0] == s
    ensures var t := states[|steps|];
            && Resting(t) && t.offered == s.offered && t.sent == s.sent + [r]
            && t.started == (if late then s.started else s.started + [r])
            && t.results == s.results + [Result(r, if late then ContextDone else Returned(error))]
  {
    states, steps := AnyRequestIsGranted(s, r);
    var next := if late then Finish(r.id) else Start;
    var last := if late then Reject else Return(error);
    var granted := states[|steps|];
    var called := Do(granted, next);
    StepLast(states, steps, next);
    states, steps := states + [called], steps + [next];
    StepLast(states, steps, last);
    states, steps := states + [Do(called, last)], steps + [last];
  }

  /** However many callers send, the channel never holds more than 8192 requests. */
  lemma {:induction false} ChannelIsBounded(states: seq<Coord>, steps: seq<Step>, i: nat)
    requires Run(states, steps) && Init(states[0]) && i < |states|
    ensures |states[i].inbox| <= 8192
  {
    if i > 0 { ChannelIsBounded(states, steps, i - 1); }
  }
}
