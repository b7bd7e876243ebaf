/** From the accepted message to the derived worker: the bounded queue of
    backend/internal/mqtt/client.go and the hand-over of backend/internal/app/derived_ingest.go,
    while the application context is live. */
module IngestPipeline {

  datatype Kind = Internal | StatusMessage | Packet(parses: bool) | Unsupported

  datatype Msg = Msg(ingestId: string, kind: Kind)

  datatype Queued = Queued(msg: Msg, at: int)

  datatype Outcome = Processed | Rejected | Failed

  /** Where the dispatcher is with the message in hand. */
  datatype Hand =
    | Free
    | Received(queued: Queued)
    | Judging(msg: Msg)
    | Saving(msg: Msg)
    | Saved(msg: Msg)
    | Waiting(msg: Msg, at: int)
    | Ending(entry: Entry)

  datatype Worker = Resting | Working(job: Queued)

  /** A message the dispatcher has finished with, and how far it got. */
  datatype Entry = Entry(msg: Msg, outcome: Outcome, saved: bool, handed: bool)

  datatype Counters = Counters(total: nat, accepted: nat, processed: nat, rejected: nat, failed: nat, dropped: nat)

  /** What happened so far: messages accepted, entries finished, messages persisted, jobs handed to
      the derived queue and jobs done, each in order. */
  datatype History = History(accepted: seq<Msg>, finished: seq<Entry>, saved: seq<Msg>, handed: seq<Msg>,
                             done: seq<Msg>)

  datatype State = State(
    queue: seq<Queued>, queueTimes: seq<int>, hand: Hand,
    derived: seq<Queued>, derivedTimes: seq<int>, worker: Worker,
    counters: Counters, seen: History)

  datatype Capacities = Capacities(queue: nat, derived: nat)

  predicate NeedsSaving(m: Msg) { m.kind.StatusMessage? || (m.kind.Packet? && m.kind.parses) }

  function Tail<T>(s: seq<T>): seq<T> { if s == [] then [] else s[1..] }

  // ---------------------------------------------------------------------------
  // The steps
  // ---------------------------------------------------------------------------

  function Submit(c: Capacities, s: State, m: Msg, now: int): State {
    var counted := s.(counters := s.counters.(total := s.counters.total + 1));
    if |s.queue| < c.queue then
      counted.(queue := s.queue + [Queued(m, now)], queueTimes := s.queueTimes + [now],
               counters := counted.counters.(accepted := s.counters.accepted + 1),
               seen := s.seen.(accepted := s.seen.accepted + [m]))
    else counted.(counters := counted.counters.(dropped := s.counters.dropped + 1))
  }

  function Receive(s: State): State
    requires s.hand.Free? && s.queue != []
  {
    s.(hand := Received(s.queue[0]), queue := s.queue[1..])
  }

  function PopTime(s: State): State
    requires s.hand.Received?
  {
    s.(hand := Judging(s.hand.queued.msg), queueTimes := Tail(s.queueTimes))
  }

  function Judge(s: State): State
    requires s.hand.Judging?
  {
    var m := s.hand.msg;
    s.(hand := if m.kind.Internal? then Ending(Entry(m, Processed, false, false))
               else if NeedsSaving(m) then Saving(m)
               else Ending(Entry(m, Rejected, false, false)))
  }

  /** The primary write, retried until it succeeds or fails for good. */
  function Save(s: State, ok: bool): State
    requires s.hand.Saving?
  {
    if ok then s.(hand := Saved(s.hand.msg), seen := s.seen.(saved := s.seen.saved + [s.hand.msg]))
    else s.(hand := Ending(Entry(s.hand.msg, Failed, false, false)))
  }

  /** A panic of the handler is caught and counts as a failure. */
  function Panic(s: State): State
    requires s.hand.Judging? || s.hand.Saving? || s.hand.Saved?
  {
    s.(hand := Ending(Entry(s.hand.msg, Failed, s.hand.Saved?, false)))
  }

  function HandOver(s: State, m: Msg, at: int): State {
    s.(hand := Ending(Entry(m, Processed, true, true)), derived := s.derived + [Queued(m, at)],
       seen := s.seen.(handed := s.seen.handed + [m]))
  }

  function Enqueue(c: Capacities, s: State, now: int): State
    requires s.hand.Saved?
  {
    var timed := s.(derivedTimes := s.derivedTimes + [now]);
    if |s.derived| < c.derived then HandOver(timed, s.hand.msg, now) else timed.(hand := Waiting(s.hand.msg, now))
  }

  function Send(s: State): State
    requires s.hand.Waiting?
  {
    HandOver(s, s.hand.msg, s.hand.at)
  }

  function Count(s: State): State
    requires s.hand.Ending?
  {
    var e, n := s.hand.entry, s.counters;
    s.(hand := Free, seen := s.seen.(finished := s.seen.finished + [e]),
       counters := match e.outcome
                   case Processed => n.(processed := n.processed + 1)
                   case Rejected => n.(rejected := n.rejected + 1, processed := n.processed + 1)
                   case Failed => n.(failed := n.failed + 1))
  }

  function Work(s: State): State
    requires s.worker.Resting? && s.derived != []
  {
    s.(worker := Working(s.derived[0]), derived := s.derived[1..])
  }

  function Finish(s: State): State
    requires s.worker.Working?
  {
    s.(worker := Resting, derivedTimes := Tail(s.derivedTimes),
       seen := s.seen.(done := s.seen.done + [s.worker.job.msg]))
  }

  function Empty(): State {
    State([], [], Free, [], [], Resting, Counters(0, 0, 0, 0, 0, 0), History([], [], [], [], []))
  }
}
