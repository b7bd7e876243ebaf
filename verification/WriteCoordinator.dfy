/** The write coordinator (backend/internal/app/write_coordinator.go): callers hand writes to a
    channel, one loop moves them to per-lane queues, alternates between the two live lanes and
    runs one write at a time. Callers, cancellations and the loop interleave freely. */
module WriteCoordinator {
  import opened WriterLedger

  const INBOX_CAPACITY: nat := 8192

  datatype Request = Request(id: nat, lane: Lane, queuedAt: int)

  datatype Outcome = ContextDone | Returned(error: string)

  datatype Result = Result(request: Request, outcome: Outcome)

  datatype Queues = Queues(primary: seq<Request>, liveCore: seq<Request>, background: seq<Request>)

  function Get(q: Queues, lane: Lane): seq<Request> {
    match lane
    case Primary => q.primary
    case LiveCore => q.liveCore
    case Background => q.background
  }

  function Set(q: Queues, lane: Lane, items: seq<Request>): Queues {
    match lane
    case Primary => q.(primary := items)
    case LiveCore => q.(liveCore := items)
    case Background => q.(background := items)
  }

  predicate Empty(q: Queues) { |q.primary| + |q.liveCore| + |q.background| == 0 }

  function Enqueue(q: Queues, r: Request): Queues { Set(q, r.lane, Get(q, r.lane) + [r]) }

  // ---------------------------------------------------------------------------
  // Lane selection
  // ---------------------------------------------------------------------------

  function Other(lane: Lane): Lane { if lane == Primary then LiveCore else Primary }

  /** The lane whose head is granted next, and the lane favoured after that. */
  function Choose(q: Queues, nextLive: Lane): (Lane, Lane) {
    if q.primary != [] && q.liveCore != [] then (nextLive, Other(nextLive))
    else if q.primary != [] then (Primary, LiveCore)
    else if q.liveCore != [] then (LiveCore, Primary)
    else (Background, nextLive)
  }

  /** The loop's own variables. */
  class Runner {
    var queues: Queues
    var nextLive: Lane

    constructor ()
      ensures queues == Queues([], [], []) && nextLive == Primary
    {
      queues, nextLive := Queues([], [], []), Primary;
    }

    /** Takes over everything the channel holds: each lane grows by its own requests, in arrival
        order. */
    method Drain(inbox: seq<Request>)
      modifies this`queues
      ensures Took(old(queues), queues, inbox)
    {
      ghost var before, taken: seq<Request> := queues, [];
      TookNone(before);
      for i := 0 to |inbox|
        invariant taken == inbox[..i] && Took(before, queues, taken)
      {
        TookOne(before, queues, taken, inbox[i]);
        queues := Enqueue(queues, inbox[i]);
        taken := taken + [inbox[i]];
      }
      assert taken == inbox;
    }

    /** Selects a lane and removes the request at its head. */
    method Next() returns (r: Request)
      requires !Empty(queues) && nextLive != Background
      modifies this
      ensures var choice := Choose(old(queues), old(nextLive));
              && Get(old(queues), choice.0) != [] && r == Get(old(queues), choice.0)[0]
              && queues == Set(old(queues), choice.0, Get(old(queues), choice.0)[1..])
              && nextLive == choice.1
    {
      var lane := Background;
      var hasPrimary, hasLive := |queues.primary| > 0, |queues.liveCore| > 0;
      if hasPrimary && hasLive {
        lane := nextLive;
        nextLive := if nextLive == Primary then LiveCore else Primary;
      } else if hasPrimary {
        lane, nextLive := Primary, LiveCore;
      } else if hasLive {
        lane, nextLive := LiveCore, Primary;
      }
      r := Get(queues, lane)[0];
      queues := Set(queues, lane, Get(queues, lane)[1..]);
    }
  }

  function OfLane(rs: seq<Request>, lane: Lane): seq<Request> {
    if rs == [] then []
    else
      var init, last := OfLane(rs[..|rs| - 1], lane), rs[|rs| - 1];
      if last.lane == lane then init + [last] else init
  }

  lemma OfLaneSnoc(rs: seq<Request>, r: Request, lane: Lane)
    ensures OfLane(rs + [r], lane) == if r.lane == lane then OfLane(rs, lane) + [r] else OfLane(rs, lane)
  {
    assert (rs + [r])[..|rs|] == rs;
  }

  /** Each lane has grown by its own requests among rs, in order. */
  ghost predicate Took(before: Queues, after: Queues, rs: seq<Request>) {
    forall lane :: Get(after, lane) == Get(before, lane) + OfLane(rs, lane)
  }

  lemma TookNone(q: Queues)
    ensures Took(q, q, [])
  {
    forall lane ensures Get(q, lane) == Get(q, lane) + OfLane([], lane) {
      assert Get(q, lane) + [] == Get(q, lane);
    }
  }

  lemma TookOne(before: Queues, after: Queues, rs: seq<Request>, r: Request)
    requires Took(before, after, rs)
    ensures Took(before, Enqueue(after, r), rs + [r])
  {
    forall lane ensures Get(Enqueue(after, r), lane) == Get(before, lane) + OfLane(rs + [r], lane) {
      OfLaneSnoc(rs, r, lane);
      EnqueueGet(after, r, lane);
    }
  }

  lemma {:induction false} OfLaneConcat(a: seq<Request>, b: seq<Request>, lane: Lane)
    ensures OfLane(a + b, lane) == OfLane(a, lane) + OfLane(b, lane)
  {
    if b == [] {
      assert a + b == a;
    } else {
      var n := |b| - 1;
      assert a + b == (a + b[..n]) + [b[n]];
      OfLaneSnoc(a + b[..n], b[n], lane);
      OfLaneConcat(a, b[..n], lane);
    }
  }

  // ---------------------------------------------------------------------------
  // The system of callers and loop
  // ---------------------------------------------------------------------------

  datatype Phase = Waiting | Draining | Choosing | Granted(request: Request) | Executing(request: Request) | Stopped

  /** `offered` requests are recorded but neither sent nor withdrawn; sent, grants, started
      and results are history. */
  datatype Coord = Coord(
    offered: seq<Request>, inbox: seq<Request>, queues: Queues, nextLive: Lane, phase: Phase,
    ledger: Ledger, done: set<nat>, closed: bool,
    sent: seq<Request>, grants: seq<Request>, started: seq<Request>, results: seq<Result>)

  datatype Step =
    | Offer(r: Request)        // Do: the queue time is recorded
    | Send(i: nat)             // Do: the channel takes an offered request
    | Withdraw(i: nat)         // Do: the caller or the coordinator gave up before that
    | Finish(id: nat)          // a request's context is done
    | Close
    | Receive                  // the loop takes one request off the channel
    | Begin                    // nothing to wait for: queues are not empty
    | Settle                   // the channel is empty, draining ends
    | Stop                     // closed, and all queues are empty
    | Grant                    // a lane is selected and its head removed
    | Reject                   // its context is done: it gets that error
    | Start                    // its function is called
    | Return(error: string)    // and returns

  function Removed(rs: seq<Request>, i: nat): seq<Request>
    requires i < |rs|
  {
    rs[..i] + rs[i + 1..]
  }

  predicate Enabled(s: Coord, step: Step) {
    match step
    case Offer(r) => true
    case Send(i) => i < |s.offered| && |s.inbox| < INBOX_CAPACITY
    case Withdraw(i) => i < |s.offered| && (s.offered[i].id in s.done || s.closed)
    case Finish(_) => true
    case Close => true
    case Receive => s.inbox != [] && (s.phase.Draining? || (s.phase.Waiting? && Empty(s.queues)))
    case Begin => s.phase.Waiting? && !Empty(s.queues)
    case Settle => s.phase.Draining? && s.inbox == []
    case Stop => s.phase.Waiting? && Empty(s.queues) && s.closed
    case Grant => s.phase.Choosing? && Get(s.queues, Choose(s.queues, s.nextLive).0) != []
    case Reject => s.phase.Granted? && s.phase.request.id in s.done
    case Start => s.phase.Granted? && s.phase.request.id !in s.done
    case Return(_) => s.phase.Executing?
  }

  function Do(s: Coord, step: Step): Coord
    requires Enabled(s, step)
  {
    match step
    case Offer(r) => s.(offered := s.offered + [r],
                        ledger := s.ledger[r.lane := Times(s.ledger, r.lane) + [r.queuedAt]])
    case Send(i) =>
      var r := s.offered[i];
      s.(offered := Removed(s.offered, i), inbox := s.inbox + [r], sent := s.sent + [r])
    case Withdraw(i) =>
      var r := s.offered[i];
      s.(offered := Removed(s.offered, i),
         ledger := s.ledger[r.lane := RemoveFirst(Times(s.ledger, r.lane), r.queuedAt)])
    case Finish(id) => s.(done := s.done + {id})
    case Close => s.(closed := true)
    case Receive => s.(inbox := s.inbox[1..], queues := Enqueue(s.queues, s.inbox[0]), phase := Draining)
    case Begin => s.(phase := Draining)
    case Settle => s.(phase := Choosing)
    case Stop => s.(phase := Stopped)
    case Grant =>
      var choice := Choose(s.queues, s.nextLive);
      var r := Get(s.queues, choice.0)[0];
      s.(queues := Set(s.queues, choice.0, Get(s.queues, choice.0)[1..]), nextLive := choice.1, phase := Granted(r),
         ledger := s.ledger[choice.0 := RemoveFirst(Times(s.ledger, choice.0), r.queuedAt)], grants := s.grants + [r])
    case Reject => s.(phase := Waiting, results := s.results + [Result(s.phase.request, ContextDone)])
    case Start => s.(phase := Executing(s.phase.request), started := s.started + [s.phase.request])
    case Return(error) => s.(phase := Waiting, results := s.results + [Result(s.phase.request, Returned(error))])
  }

  ghost predicate Init(s: Coord) {
    s == Coord([], [], Queues([], [], []), Primary, Waiting, map[], {}, false, [], [], [], [])
  }

  ghost predicate Run(states: seq<Coord>, steps: seq<Step>) {
    && |states| == |steps| + 1
    && forall i | 0 <= i < |steps| :: Enabled(states[i], steps[i]) && states[i + 1] == Do(states[i], steps[i])
  }

  // ---------------------------------------------------------------------------
  // Conservation: order, results, ledger
  // ---------------------------------------------------------------------------

  /** The request taken off its queue that has no result yet. */
  function InHand(s: Coord): seq<Request> {
    if s.phase.Granted? || s.phase.Executing? then [s.phase.request] else []
  }

  function Answered(results: seq<Result>): seq<Request> {
    seq(|results|, i requires 0 <= i < |results| => results[i].request)
  }

  /** The started requests among the answered ones, in order. */
  function Called(results: seq<Result>): seq<Request> {
    if results == [] then []
    else
      var init, last := Called(results[..|results| - 1]), results[|results| - 1];
      if last.outcome.ContextDone? then init else init + [last.request]
  }

  /** Queue times of the requests of one lane. */
  function QueueTimes(rs: seq<Request>, lane: Lane): multiset<int> {
    if rs == [] then multiset{}
    else
      QueueTimes(rs[..|rs| - 1], lane) +
      (if rs[|rs| - 1].lane == lane then multiset{rs[|rs| - 1].queuedAt} else multiset{})
  }

  /** What a lane was sent is what it was granted, then its queue, then its part of the channel. */
  predicate Fifo(s: Coord, lane: Lane) {
    OfLane(s.sent, lane) == OfLane(s.grants, lane) + Get(s.queues, lane) + OfLane(s.inbox, lane)
  }

  predicate LaneOk(q: Queues, lane: Lane) {
    forall i | 0 <= i < |Get(q, lane)| :: Get(q, lane)[i].lane == lane
  }

  /** Every granted request but the one in hand has exactly one result, in grant order; it
      was called exactly when that result is not a context error; nothing else was called. */
  ghost predicate OneResultEach(s: Coord) {
    && s.grants == Answered(s.results) + InHand(s)
    && s.started == Called(s.results) + (if s.phase.Executing? then [s.phase.request] else [])
  }

  /** Per lane, the ledger is the multiset of queue times of the requests neither started
      nor withdrawn. */
  predicate LedgerExact(s: Coord, lane: Lane) {
    multiset(Times(s.ledger, lane)) ==
    QueueTimes(s.offered, lane) + QueueTimes(s.inbox, lane) + QueueTimes(Get(s.queues, lane), lane)
  }

  predicate LaneInv(s: Coord, lane: Lane) { Fifo(s, lane) && LaneOk(s.queues, lane) && LedgerExact(s, lane) }

  predicate PhaseOk(s: Coord) {
    && s.nextLive != Background
    && (s.phase.Choosing? ==> !Empty(s.queues))
    && (s.phase.Draining? ==> !Empty(s.queues))
    && (s.phase.Stopped? ==> Empty(s.queues) && s.closed)
  }

  ghost predicate Inv(s: Coord) { (forall lane :: LaneInv(s, lane)) && OneResultEach(s) && PhaseOk(s) }

  lemma {:induction false} QueueTimesConcat(a: seq<Request>, b: seq<Request>, lane: Lane)
    ensures QueueTimes(a + b, lane) == QueueTimes(a, lane) + QueueTimes(b, lane)
  {
    if b == [] {
      assert a + b == a;
    } else {
      var n := |b| - 1;
      assert (a + b)[..|a + b| - 1] == a + b[..n];
      QueueTimesConcat(a, b[..n], lane);
    }
  }

  lemma QueueTimesOne(r: Request, lane: Lane)
    ensures QueueTimes([r], lane) == if r.lane == lane then multiset{r.queuedAt} else multiset{}
  {
    assert [r][..0] == [];
  }

  lemma QueueTimesRemoved(rs: seq<Request>, i: nat, lane: Lane)
    requires i < |rs|
    ensures QueueTimes(rs, lane) == QueueTimes(Removed(rs, i), lane) + QueueTimes([rs[i]], lane)
  {
    assert rs == rs[..i] + [rs[i]] + rs[i + 1..];
    QueueTimesConcat(rs[..i] + [rs[i]], rs[i + 1..], lane);
    QueueTimesConcat(rs[..i], [rs[i]], lane);
    QueueTimesConcat(rs[..i], rs[i + 1..], lane);
  }

  lemma QueueTimesHead(rs: seq<Request>, lane: Lane)
    requires rs != []
    ensures QueueTimes(rs, lane) == QueueTimes([rs[0]], lane) + QueueTimes(rs[1..], lane)
  {
    assert rs == [rs[0]] + rs[1..];
    QueueTimesConcat([rs[0]], rs[1..], lane);
  }

  /** Taking a waiting time out of an exact ledger. */
  lemma RemoveTime(items: seq<int>, x: int, rest: multiset<int>)
    requires multiset(items) == multiset{x} + rest
    ensures multiset(RemoveFirst(items, x)) == rest
  {
    assert multiset(items)[x] > 0;
  }

  lemma Shuffle(a: multiset<int>, b: multiset<int>, c: multiset<int>, x: multiset<int>)
    ensures a + b + (x + c) == x + (a + b + c)
    ensures (a + x) + b + c == x + (a + b + c)
  {
  }

  lemma GrantLedger(s: Coord, lane: Lane)
    requires LedgerExact(s, lane) && LaneOk(s.queues, lane) && Enabled(s, Grant)
    ensures LedgerExact(Do(s, Grant), lane)
  {
    if lane == Choose(s.queues, s.nextLive).0 {
      var queue := Get(s.queues, lane);
      var x := queue[0].queuedAt;
      QueueTimesHead(queue, lane);
      QueueTimesOne(queue[0], lane);
      Shuffle(QueueTimes(s.offered, lane), QueueTimes(s.inbox, lane), QueueTimes(queue[1..], lane), multiset{x});
      RemoveTime(Times(s.ledger, lane), x, QueueTimes(s.offered, lane) + QueueTimes(s.inbox, lane) +
                 QueueTimes(queue[1..], lane));
    }
  }

  lemma WithdrawLedger(s: Coord, i: nat, lane: Lane)
    requires LedgerExact(s, lane) && Enabled(s, Withdraw(i))
    ensures LedgerExact(Do(s, Withdraw(i)), lane)
  {
    var r := s.offered[i];
    var left, inbox := QueueTimes(Removed(s.offered, i), lane), QueueTimes(s.inbox, lane);
    var queued := QueueTimes(Get(s.queues, lane), lane);
    WithdrawnTimes(s.offered, i, lane);
    if lane == r.lane {
      Shuffle(left, inbox, queued, multiset{r.queuedAt});
      RemoveTime(Times(s.ledger, lane), r.queuedAt, left + inbox + queued);
    }
  }

  lemma WithdrawnTimes(rs: seq<Request>, i: nat, lane: Lane)
    requires i < |rs|
    ensures var left := QueueTimes(Removed(rs, i), lane);
            QueueTimes(rs, lane) == if rs[i].lane == lane then left + multiset{rs[i].queuedAt} else left
  {
    QueueTimesRemoved(rs, i, lane);
    QueueTimesOne(rs[i], lane);
  }

  lemma OfferLedger(s: Coord, r: Request, lane: Lane)
    requires LedgerExact(s, lane) && Enabled(s, Offer(r))
    ensures LedgerExact(Do(s, Offer(r)), lane)
  {
    QueueTimesConcat(s.offered, [r], lane);
    QueueTimesOne(r, lane);
  }

  lemma SendLedger(s: Coord, i: nat, lane: Lane)
    requires LedgerExact(s, lane) && Enabled(s, Send(i))
    ensures LedgerExact(Do(s, Send(i)), lane)
  {
    QueueTimesRemoved(s.offered, i, lane);
    QueueTimesConcat(s.inbox, [s.offered[i]], lane);
  }

  lemma ReceiveLedger(s: Coord, lane: Lane)
    requires LedgerExact(s, lane) && Enabled(s, Receive)
    ensures LedgerExact(Do(s, Receive), lane)
  {
    var r := s.inbox[0];
    QueueTimesHead(s.inbox, lane);
    EnqueueGet(s.queues, r, lane);
    QueueTimesConcat(Get(s.queues, lane), Only(r, lane), lane);
    QueueTimesOne(r, lane);
  }

  lemma StepLedger(s: Coord, step: Step, lane: Lane)
    requires LedgerExact(s, lane) && LaneOk(s.queues, lane) && Enabled(s, step)
    ensures LedgerExact(Do(s, step), lane)
  {
    match step
    case Offer(r) => OfferLedger(s, r, lane);
    case Send(i) => SendLedger(s, i, lane);
    case Withdraw(i) => WithdrawLedger(s, i, lane);
    case Receive => ReceiveLedger(s, lane);
    case Grant => GrantLedger(s, lane);
    case _ =>
  }

  lemma SendFifo(s: Coord, i: nat, lane: Lane)
    requires Fifo(s, lane) && LaneOk(s.queues, lane) && Enabled(s, Send(i))
    ensures Fifo(Do(s, Send(i)), lane) && LaneOk(Do(s, Send(i)).queues, lane)
  {
    OfLaneSnoc(s.sent, s.offered[i], lane);
    OfLaneSnoc(s.inbox, s.offered[i], lane);
  }

  function Only(r: Request, lane: Lane): seq<Request> { if r.lane == lane then [r] else [] }

  lemma OfLaneHead(rs: seq<Request>, lane: Lane)
    requires rs != []
    ensures OfLane(rs, lane) == Only(rs[0], lane) + OfLane(rs[1..], lane)
  {
    assert rs == [rs[0]] + rs[1..];
    OfLaneConcat([rs[0]], rs[1..], lane);
    assert [rs[0]][..0] == [];
  }

  lemma EnqueueGet(q: Queues, r: Request, lane: Lane)
    ensures Get(Enqueue(q, r), lane) == Get(q, lane) + Only(r, lane)
  {
  }

  lemma Regroup(a: seq<Request>, b: seq<Request>, c: seq<Request>, d: seq<Request>)
    ensures a + b + (c + d) == a + (b + c) + d
    ensures a + (b + c) + d == (a + b) + c + d
  {
  }

  lemma ReceiveFifo(s: Coord, lane: Lane)
    requires Fifo(s, lane) && LaneOk(s.queues, lane) && Enabled(s, Receive)
    ensures Fifo(Do(s, Receive), lane) && LaneOk(Do(s, Receive).queues, lane)
  {
    var r := s.inbox[0];
    OfLaneHead(s.inbox, lane);
    EnqueueGet(s.queues, r, lane);
    Regroup(OfLane(s.grants, lane), Get(s.queues, lane), Only(r, lane), OfLane(s.inbox[1..], lane));
  }

  lemma DequeueGet(q: Queues, chosen: Lane, lane: Lane)
    requires LaneOk(q, chosen) && LaneOk(q, lane) && Get(q, chosen) != []
    ensures var q' := Set(q, chosen, Get(q, chosen)[1..]);
            Get(q, lane) == Only(Get(q, chosen)[0], lane) + Get(q', lane) && LaneOk(q', lane)
  {
    var queue := Get(q, chosen);
    assert queue == [queue[0]] + queue[1..];
  }

  lemma GrantFifo(s: Coord, lane: Lane)
    requires Fifo(s, lane) && LaneOk(s.queues, lane) && Enabled(s, Grant)
             && LaneOk(s.queues, Choose(s.queues, s.nextLive).0)
    ensures Fifo(Do(s, Grant), lane) && LaneOk(Do(s, Grant).queues, lane)
  {
    var chosen := Choose(s.queues, s.nextLive).0;
    var r := Get(s.queues, chosen)[0];
    DequeueGet(s.queues, chosen, lane);
    OfLaneSnoc(s.grants, r, lane);
    Regroup(OfLane(s.grants, lane), Only(r, lane), Get(Set(s.queues, chosen, Get(s.queues, chosen)[1..]), lane),
            OfLane(s.inbox, lane));
  }

  lemma StepFifo(s: Coord, step: Step, lane: Lane)
    requires Fifo(s, lane) && (forall l :: LaneOk(s.queues, l)) && Enabled(s, step)
    ensures Fifo(Do(s, step), lane) && LaneOk(Do(s, step).queues, lane)
  {
    match step
    case Send(i) => SendFifo(s, i, lane);
    case Receive => ReceiveFifo(s, lane);
    case Grant => GrantFifo(s, lane);
    case _ =>
  }

  lemma StepLane(s: Coord, step: Step, lane: Lane)
    requires (forall l :: LaneInv(s, l)) && Enabled(s, step)
    ensures LaneInv(Do(s, step), lane)
  {
    assert LaneInv(s, lane);
    forall l ensures LaneOk(s.queues, l) { assert LaneInv(s, l); }
    StepFifo(s, step, lane);
    StepLedger(s, step, lane);
  }

  lemma AnsweredSnoc(results: seq<Result>, result: Result)
    ensures Answered(results + [result]) == Answered(results) + [result.request]
    ensures Called(results + [result]) ==
            if result.outcome.ContextDone? then Called(results) else Called(results) + [result.request]
  {
    assert (results + [result])[..|results|] == results;
  }

  lemma AnswerResults(s: Coord, outcome: Outcome, s': Coord)
    requires OneResultEach(s) && InHand(s) != [] && s'.phase == Waiting
    requires if outcome.ContextDone? then s.phase.Granted? else s.phase.Executing?
    requires s'.grants == s.grants && s'.started == s.started
             && s'.results == s.results + [Result(s.phase.request, outcome)]
    ensures OneResultEach(s')
  {
    AnsweredSnoc(s.results, Result(s.phase.request, outcome));
  }

  lemma StepResults(s: Coord, step: Step)
    requires OneResultEach(s) && Enabled(s, step)
    ensures OneResultEach(Do(s, step))
  {
    match step
    case Reject => AnswerResults(s, ContextDone, Do(s, step));
    case Return(error) => AnswerResults(s, Returned(error), Do(s, step));
    case _ =>
  }

  lemma StepPhase(s: Coord, step: Step)
    requires PhaseOk(s) && Enabled(s, step)
    ensures PhaseOk(Do(s, step))
  {
  }

  lemma StepKeepsInv(s: Coord, step: Step)
    requires Inv(s) && Enabled(s, step)
    ensures Inv(Do(s, step))
  {
    forall lane ensures LaneInv(Do(s, step), lane) { StepLane(s, step, lane); }
    StepResults(s, step);
    StepPhase(s, step);
  }

  /** In every run: per-lane FIFO, one result per granted request, an exact ledger. */
  lemma {:induction false} RunKeepsInv(states: seq<Coord>, steps: seq<Step>, i: nat)
    requires Run(states, steps) && Init(states[0]) && i < |states|
    ensures Inv(states[i])
  {
    if i > 0 {
      RunKeepsInv(states, steps, i - 1);
      StepKeepsInv(states[i - 1], steps[i - 1]);
    }
  }

  // ---------------------------------------------------------------------------
  // Results
  // ---------------------------------------------------------------------------

  lemma NothingInHand(s: Coord)
    requires OneResultEach(s) && s.phase.Stopped?
    ensures s.grants == Answered(s.results)
  {
    assert Answered(s.results) + [] == Answered(s.results);
  }

  /** A stopped loop has answered every request it ever took off the channel. */
  lemma StoppedMeansAnswered(s: Coord, lane: Lane)
    requires Inv(s) && s.phase.Stopped?
    ensures OfLane(s.sent, lane) == OfLane(Answered(s.results), lane) + OfLane(s.inbox, lane)
  {
    NothingInHand(s);
    assert LaneInv(s, lane) && Get(s.queues, lane) == [];
    assert OfLane(s.grants, lane) + [] == OfLane(s.grants, lane);
  }

  lemma {:induction false} OfLaneCount(rs: seq<Request>, r: Request)
    ensures multiset(OfLane(rs, r.lane))[r] == multiset(rs)[r]
  {
    if rs != [] {
      var init, last := rs[..|rs| - 1], rs[|rs| - 1];
      assert rs == init + [last];
      OfLaneCount(init, r);
      OfLaneSnoc(init, last, r.lane);
    }
  }

  lemma {:induction false} CalledCount(results: seq<Result>, r: Request)
    ensures multiset(Called(results))[r] <= multiset(Answered(results))[r]
  {
    if results != [] {
      var init, last := results[..|results| - 1], results[|results| - 1];
      assert results == init + [last];
      CalledCount(init, r);
      AnsweredSnoc(init, last);
    }
  }

  /** A request is granted at most as often as it was sent, */
  lemma GrantsFit(s: Coord, r: Request)
    requires Inv(s)
    ensures multiset(s.grants)[r] <= multiset(s.sent)[r]
  {
    assert LaneInv(s, r.lane);
    OfLaneCount(s.grants, r);
    OfLaneCount(s.sent, r);
  }

  /** and its function is called at most as often as it was granted: a request sent once is called
      at most once. */
  lemma CalledAtMostOnce(s: Coord, r: Request)
    requires Inv(s)
    ensures multiset(s.started)[r] <= multiset(s.grants)[r] <= multiset(s.sent)[r]
    ensures multiset(s.sent)[r] <= 1 ==> multiset(s.started)[r] <= 1
  {
    GrantsFit(s, r);
    CalledCount(s.results, r);
  }

  /** A function is called only when its request's context is not done at its turn, after every
      earlier call has returned, and, for a request sent once, not a second time. */
  lemma CallsAreSerial(s: Coord, step: Step)
    requires Inv(s) && Enabled(s, step) && Do(s, step).started != s.started
    ensures s.phase.Granted? && s.phase.request.id !in s.done && Do(s, step).started == s.started + [s.phase.request]
    ensures s.started == Called(s.results)
    ensures multiset(s.sent)[s.phase.request] <= 1 ==> s.phase.request !in s.started
  {
    StepKeepsInv(s, step);
    CalledAtMostOnce(Do(s, step), s.phase.request);
  }

  /** The outcomes that the steps of a run announce: a context error for each rejection, and what each
      function returned. */
  function Outcomes(steps: seq<Step>): seq<Outcome> {
    if steps == [] then []
    else
      var init, last := Outcomes(steps[..|steps| - 1]), steps[|steps| - 1];
      match last
      case Reject => init + [ContextDone]
      case Return(error) => init + [Returned(error)]
      case _ => init
  }

  function OutcomesOf(results: seq<Result>): seq<Outcome> {
    seq(|results|, k requires 0 <= k < |results| => results[k].outcome)
  }

  lemma StepOutcomes(s: Coord, step: Step, steps: seq<Step>)
    requires Enabled(s, step) && OutcomesOf(s.results) == Outcomes(steps)
    ensures OutcomesOf(Do(s, step).results) == Outcomes(steps + [step])
  {
    assert (steps + [step])[..|steps|] == steps;
  }

  /** In every run each result carries just that: nothing else is answered, and no answer changed. */
  lemma {:induction false} ResultsAreReturned(states: seq<Coord>, steps: seq<Step>, i: nat)
    requires Run(states, steps) && Init(states[0]) && i < |states|
    ensures OutcomesOf(states[i].results) == Outcomes(steps[..i])
  {
    if i > 0 {
      ResultsAreReturned(states, steps, i - 1);
      StepOutcomes(states[i - 1], steps[i - 1], steps[..i - 1]);
      assert steps[..i] == steps[..i - 1] + [steps[i - 1]];
    }
  }

  /** The requests that callers offered, and those withdrawn before the channel took them. */
  function Offers(steps: seq<Step>): multiset<Request> {
    if steps == [] then multiset{} else Offers(steps[..|steps| - 1]) + OfferedBy(steps[|steps| - 1])
  }

  ghost function Withdrawn(states: seq<Coord>, steps: seq<Step>, i: nat): multiset<Request>
    requires Run(states, steps) && i <= |steps|
  {
    if i == 0 then multiset{} else Withdrawn(states, steps, i - 1) + WithdrawnBy(states[i - 1], steps[i - 1])
  }

  function OfferedBy(step: Step): multiset<Request> { if step.Offer? then multiset{step.r} else multiset{} }

  function WithdrawnBy(s: Coord, step: Step): multiset<Request>
    requires Enabled(s, step)
  {
    if step.Withdraw? then multiset{s.offered[step.i]} else multiset{}
  }

  lemma RemovedOne(rs: seq<Request>, i: nat)
    requires i < |rs|
    ensures multiset(rs) == multiset(Removed(rs, i)) + multiset{rs[i]}
  {
    assert rs == rs[..i] + [rs[i]] + rs[i + 1..];
  }

  lemma StepOffers(s: Coord, step: Step)
    requires Enabled(s, step)
    ensures multiset(s.offered) + multiset(s.sent) + OfferedBy(step) ==
            multiset(Do(s, step).offered) + multiset(Do(s, step).sent) + WithdrawnBy(s, step)
    ensures s.done <= Do(s, step).done && (s.closed ==> Do(s, step).closed)
  {
    match step
    case Send(k) => RemovedOne(s.offered, k);
    case Withdraw(k) => RemovedOne(s.offered, k);
    case _ =>
  }

  /** In every run each request offered is still offered, was sent, or was withdrawn. */
  lemma {:induction false} OffersAreKept(states: seq<Coord>, steps: seq<Step>, i: nat, r: Request)
    requires Run(states, steps) && Init(states[0]) && i <= |steps|
    ensures Offers(steps[..i])[r] ==
            multiset(states[i].offered)[r] + multiset(states[i].sent)[r] + Withdrawn(states, steps, i)[r]
  {
    if i > 0 {
      OffersAreKept(states, steps, i - 1, r);
      assert steps[..i][..i - 1] == steps[..i - 1];
      StepOffers(states[i - 1], steps[i - 1]);
      Counts(multiset(states[i - 1].offered), multiset(states[i - 1].sent), OfferedBy(steps[i - 1]), r);
      Counts(multiset(states[i].offered), multiset(states[i].sent), WithdrawnBy(states[i - 1], steps[i - 1]), r);
    }
  }

  lemma Counts(a: multiset<Request>, b: multiset<Request>, c: multiset<Request>, r: Request)
    ensures (a + b + c)[r] == a[r] + b[r] + c[r]
  {
  }

  /** Only a request whose context is done, or one given up by a closed coordinator, is withdrawn. */
  lemma {:induction false} WithdrawnIsGivenUp(states: seq<Coord>, steps: seq<Step>, i: nat, r: Request)
    requires Run(states, steps) && i <= |steps| && r in Withdrawn(states, steps, i)
    ensures r.id in states[i].done || states[i].closed
  {
    StepOffers(states[i - 1], steps[i - 1]);
    if r in Withdrawn(states, steps, i - 1) { WithdrawnIsGivenUp(states, steps, i - 1, r); }
  }

  /** A context error is answered only to a request whose context is done. */
  ghost predicate OnlyDoneRejected(s: Coord) {
    forall k | 0 <= k < |s.results| && s.results[k].outcome.ContextDone? :: s.results[k].request.id in s.done
  }

  lemma {:induction false} RejectedAreDone(states: seq<Coord>, steps: seq<Step>, i: nat)
    requires Run(states, steps) && Init(states[0]) && i < |states|
    ensures OnlyDoneRejected(states[i])
  {
    if i > 0 { RejectedAreDone(states, steps, i - 1); }
  }

  // ---------------------------------------------------------------------------
  // Bounded waiting
  // ---------------------------------------------------------------------------

  /** A lane's requests in the order in which they will be granted: its queue, then its part of the
      channel. */
  function Line(s: Coord, lane: Lane): seq<Request> { Get(s.queues, lane) + OfLane(s.inbox, lane) }

  /** A request that reaches the channel when the loop is already choosing misses that one choice. */
  function Lag(s: Coord, lane: Lane, k: nat): nat {
    if s.phase.Choosing? && k >= |Get(s.queues, lane)| then 1 else 0
  }

  /** Grants still needed, at most, before the request k places from the head of a live
      lane's line is granted. */
  function Bound(s: Coord, lane: Lane, k: nat): nat {
    2 * k + (if s.nextLive == lane then 1 else 2) + Lag(s, lane, k)
  }

  ghost predicate WaitsAt(s: Coord, r: Request, k: nat) {
    k < |Line(s, r.lane)| && Line(s, r.lane)[k] == r
  }

  lemma SendLine(s: Coord, i: nat, lane: Lane)
    requires Enabled(s, Send(i))
    ensures Line(s, lane) <= Line(Do(s, Send(i)), lane)
  {
    OfLaneSnoc(s.inbox, s.offered[i], lane);
  }

  lemma Regrouped(a: seq<Request>, b: seq<Request>, c: seq<Request>)
    ensures (a + b) + c == a + (b + c)
  {
  }

  lemma ReceiveLine(s: Coord, lane: Lane)
    requires Enabled(s, Receive)
    ensures Line(Do(s, Receive), lane) == Line(s, lane)
  {
    OfLaneHead(s.inbox, lane);
    EnqueueGet(s.queues, s.inbox[0], lane);
    Regrouped(Get(s.queues, lane), Only(s.inbox[0], lane), OfLane(s.inbox[1..], lane));
  }

  lemma DropHead(a: seq<Request>, b: seq<Request>)
    requires a != []
    ensures (a + b)[1..] == a[1..] + b
  {
  }

  lemma SetGet(q: Queues, chosen: Lane, items: seq<Request>, lane: Lane)
    ensures Get(Set(q, chosen, items), lane) == if chosen == lane then items else Get(q, lane)
  {
  }

  lemma GrantLine(s: Coord, lane: Lane)
    requires Enabled(s, Grant)
    ensures var chosen := Choose(s.queues, s.nextLive).0;
            && Get(s.queues, chosen) != []
            && Line(Do(s, Grant), lane) == (if chosen == lane then Line(s, lane)[1..] else Line(s, lane))
            && |Get(Do(s, Grant).queues, lane)| == |Get(s.queues, lane)| - (if chosen == lane then 1 else 0)
  {
    var chosen := Choose(s.queues, s.nextLive).0;
    SetGet(s.queues, chosen, Get(s.queues, chosen)[1..], lane);
    if chosen == lane { DropHead(Get(s.queues, lane), OfLane(s.inbox, lane)); }
  }

  /** A grant either serves r, or brings it strictly closer. */
  lemma GrantBringsCloser(s: Coord, r: Request, k: nat)
    requires Inv(s) && Enabled(s, Grant) && r.lane != Background && WaitsAt(s, r, k)
    ensures var s' := Do(s, Grant);
            || s'.grants == s.grants + [r]
            || (WaitsAt(s', r, k) && Bound(s', r.lane, k) < Bound(s, r.lane, k))
            || (k > 0 && WaitsAt(s', r, k - 1) && Bound(s', r.lane, k - 1) < Bound(s, r.lane, k))
  {
    GrantLine(s, r.lane);
  }

  lemma OtherStepsKeepPlace(s: Coord, step: Step, r: Request, k: nat)
    requires Enabled(s, step) && !step.Grant? && WaitsAt(s, r, k)
    ensures var s' := Do(s, step);
            && WaitsAt(s', r, k) && s'.grants == s.grants && s'.nextLive == s.nextLive
            && Lag(s', r.lane, k) <= Lag(s, r.lane, k)
  {
    match step
    case Send(i) => SendLine(s, i, r.lane);
    case Receive => ReceiveLine(s, r.lane);
    case _ =>
  }

  ghost predicate Served(s: Coord, n: nat, r: Request) { n <= |s.grants| && r in s.grants[n..] }

  /** r still waits, and the grants made beyond the first n plus those it may still need
      stay within the budget. */
  ghost predicate OnTime(s: Coord, n: nat, r: Request, budget: nat) {
    n <= |s.grants| && exists k :: WaitsAt(s, r, k) && Bound(s, r.lane, k) + |s.grants| - n <= budget
  }

  lemma ProgressStep(s: Coord, step: Step, n: nat, r: Request, budget: nat)
    requires Inv(s) && Enabled(s, step) && r.lane != Background
    requires Served(s, n, r) || OnTime(s, n, r, budget)
    ensures Served(Do(s, step), n, r) || OnTime(Do(s, step), n, r, budget)
  {
    var s' := Do(s, step);
    if Served(s, n, r) {
      if step.Grant? { assert s'.grants[n..] == s.grants[n..] + s'.grants[|s.grants|..]; }
    } else {
      var k :| WaitsAt(s, r, k) && Bound(s, r.lane, k) + |s.grants| - n <= budget;
      if step.Grant? {
        GrantBringsCloser(s, r, k);
        if s'.grants == s.grants + [r] { assert s'.grants[n..] == s.grants[n..] + [r]; }
      } else {
        OtherStepsKeepPlace(s, step, r, k);
      }
    }
  }

  lemma {:induction false} WaitingProgress(states: seq<Coord>, steps: seq<Step>, i: nat, j: nat, n: nat, r: Request,
                                           budget: nat)
    requires Run(states, steps) && Init(states[0]) && i <= j < |states|
    requires r.lane != Background && OnTime(states[i], n, r, budget)
    ensures Served(states[j], n, r) || OnTime(states[j], n, r, budget)
  {
    if i < j {
      WaitingProgress(states, steps, i, j - 1, n, r, budget);
      RunKeepsInv(states, steps, j - 1);
      ProgressStep(states[j - 1], steps[j - 1], n, r, budget);
    }
  }

  /** A primary or live-core request with k ahead of it in its line, queue and channel together, is
      granted within 2(k + 1) grants, one more if it reached the channel during a choice, in every
      run. */
  lemma BoundedWaiting(states: seq<Coord>, steps: seq<Step>, i: nat, j: nat, r: Request, k: nat)
    requires Run(states, steps) && Init(states[0]) && i <= j < |states|
    requires r.lane != Background && WaitsAt(states[i], r, k)
    requires |states[j].grants| >= |states[i].grants| + 2 * (k + 1) + Lag(states[i], r.lane, k)
    ensures r in states[j].grants[|states[i].grants|..]
  {
    WaitingProgress(states, steps, i, j, |states[i].grants|, r, Bound(states[i], r.lane, k));
  }

  /** The two live lanes take turns: when both wait the favoured one is granted, and whichever is
      granted, the other is favoured next. */
  lemma LiveLanesAlternate(s: Coord)
    requires Inv(s) && Enabled(s, Grant)
    ensures var r, next := Do(s, Grant).phase.request, Do(s, Grant).nextLive;
            && (s.queues.primary != [] && s.queues.liveCore != [] ==> r.lane == s.nextLive)
            && (r.lane == Primary ==> next == LiveCore) && (r.lane == LiveCore ==> next == Primary)
            && (r.lane == Background ==> next == s.nextLive)
  {
    var chosen := Choose(s.queues, s.nextLive).0;
    assert LaneInv(s, chosen) && Get(s.queues, chosen)[0].lane == chosen;
  }

  /** A background write is granted only when both live queues were empty at selection. */
  lemma BackgroundYields(s: Coord)
    requires Inv(s) && Enabled(s, Grant) && Do(s, Grant).phase.request.lane == Background
    ensures s.queues.primary == [] && s.queues.liveCore == []
  {
    var chosen := Choose(s.queues, s.nextLive).0;
    assert LaneInv(s, chosen) && Get(s.queues, chosen)[0].lane == chosen;
  }

  /** The loop is never stuck at selection. */
  lemma SelectionNeverFails(s: Coord)
    requires Inv(s) && s.phase.Choosing?
    ensures Enabled(s, Grant)
  {
  }
}
