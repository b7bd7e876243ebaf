/** The ingest steps as they update the fields in place (backend/internal/mqtt/client.go and
    backend/internal/app/derived_ingest.go), and what each call means. */
module IngestCallbacks {
  import opened IngestPipeline
  import opened IngestConservation

  /** An accepted message goes to the end of the queue; a dropped one leaves only its count. */
  ghost predicate Submitted(s: State, m: Msg, taken: bool, t: State) {
    && t.counters.total == s.counters.total + 1
    && (if taken then
          && t.seen.accepted == s.seen.accepted + [m] && Msgs(t.queue) == Msgs(s.queue) + [m]
          && t.counters.dropped == s.counters.dropped
        else
          && t.seen == s.seen && t.queue == s.queue && t.queueTimes == s.queueTimes
          && t.counters.accepted == s.counters.accepted && t.counters.dropped == s.counters.dropped + 1)
  }

  lemma SubmitMeans(c: Capacities, s: State, m: Msg, now: int)
    ensures Submitted(s, m, |s.queue| < c.queue, Submit(c, s, m, now))
  {
    assert Msgs(s.queue + [Queued(m, now)]) == Msgs(s.queue) + [m];
  }

  /** The message in hand is judged by its kind alone: a status message or a packet that parses goes to
      the primary write, an internal one is done, any other is rejected; nothing is saved yet. */
  ghost predicate Judged(m: Msg, hand: Hand) {
    match m.kind
    case Internal => hand == Ending(Entry(m, Processed, false, false))
    case StatusMessage => hand == Saving(m)
    case Packet(parses) => hand == if parses then Saving(m) else Ending(Entry(m, Rejected, false, false))
    case Unsupported => hand == Ending(Entry(m, Rejected, false, false))
  }

  /** The persisted message is handed over when there is room, else it waits, alone and unlost. */
  ghost predicate Offered(c: Capacities, s: State, now: int, t: State)
    requires s.hand.Saved?
  {
    && InHand(t.hand) == [s.hand.msg] && t.derivedTimes == s.derivedTimes + [now] && |t.derived| <= c.derived
    && (if |s.derived| < c.derived then
          && Msgs(t.derived) == Msgs(s.derived) + [s.hand.msg] && t.seen.handed == s.seen.handed + [s.hand.msg]
          && t.hand == Ending(Entry(s.hand.msg, Processed, true, true))
        else t.derived == s.derived && t.seen == s.seen && t.hand == Waiting(s.hand.msg, now))
  }

  lemma EnqueueMeans(c: Capacities, s: State, now: int)
    requires Inv(c, s) && s.hand.Saved?
    ensures Offered(c, s, now, Enqueue(c, s, now))
  {
    assert Msgs(s.derived + [Queued(s.hand.msg, now)]) == Msgs(s.derived) + [s.hand.msg];
  }

  class Pipeline {
    const c: Capacities
    var queue: seq<Queued>
    var queueTimes: seq<int>
    var hand: Hand
    var derived: seq<Queued>
    var derivedTimes: seq<int>
    var worker: Worker
    var counters: Counters
    ghost var seen: History

    ghost function Now(): State
      reads this
    {
      State(queue, queueTimes, hand, derived, derivedTimes, worker, counters, seen)
    }

    constructor (capacities: Capacities)
      ensures Now() == Empty() && c == capacities && Inv(c, Now())
    {
      c := capacities;
      queue, queueTimes, hand, derived, derivedTimes, worker := [], [], Free, [], [], Resting;
      counters, seen := Counters(0, 0, 0, 0, 0, 0), History([], [], [], [], []);
    }

    method SubmitNormalized(m: Msg, now: int) returns (taken: bool)
      requires Inv(c, Now())
      modifies this
      ensures Now() == Submit(c, old(Now()), m, now) && taken == (|old(queue)| < c.queue)
      ensures Inv(c, Now())
      ensures Submitted(old(Now()), m, taken, Now())
    {
      SubmitKeeps(c, Now(), m, now);
      SubmitMeans(c, Now(), m, now);
      counters := counters.(total := counters.total + 1);
      if |queue| < c.queue {
        queue := queue + [Queued(m, now)];
        queueTimes := queueTimes + [now];
        counters := counters.(accepted := counters.accepted + 1);
        seen := seen.(accepted := seen.accepted + [m]);
        return true;
      }
      counters := counters.(dropped := counters.dropped + 1);
      return false;
    }

    method DispatchReceive()
      requires Inv(c, Now()) && hand.Free? && queue != []
      modifies this`hand, this`queue
      ensures Now() == Receive(old(Now()))
      ensures Inv(c, Now())
      ensures old(queue) == [hand.queued] + queue
    {
      ReceiveKeeps(c, Now());
      hand := Received(queue[0]);
      queue := queue[1..];
    }

    method PopQueueTimestamp()
      requires Inv(c, Now()) && hand.Received?
      modifies this`hand, this`queueTimes
      ensures Now() == PopTime(old(Now()))
      ensures Inv(c, Now())
      ensures old(queueTimes) == [old(hand.queued.at)] + queueTimes && queueTimes == Times(queue)
      ensures InHand(hand) == InHand(old(hand))
    {
      PopKeeps(c, Now());
      if |queueTimes| > 0 { queueTimes := queueTimes[1..]; }
      hand := Judging(hand.queued.msg);
    }

    method HandleMQTT()
      requires Inv(c, Now()) && hand.Judging?
      modifies this`hand
      ensures Now() == Judge(old(Now()))
      ensures Inv(c, Now())
      ensures Judged(old(hand.msg), hand)
    {
      JudgeKeeps(c, Now());
      var m := hand.msg;
      if m.kind.Internal? {
        hand := Ending(Entry(m, Processed, false, false));
      } else if m.kind.StatusMessage? {
        hand := Saving(m);
      } else if !m.kind.Packet? || !m.kind.parses {
        hand := Ending(Entry(m, Rejected, false, false));
      } else {
        hand := Saving(m);
      }
    }

    method PrimaryWritten(ok: bool)
      requires Inv(c, Now()) && hand.Saving?
      modifies this`hand, this`seen
      ensures Now() == Save(old(Now()), ok)
      ensures Inv(c, Now())
      ensures seen.saved == if ok then old(seen.saved) + [old(hand.msg)] else old(seen.saved)
      ensures InHand(hand) == InHand(old(hand)) && (ok <==> hand.Saved?)
      ensures !ok ==> hand == Ending(Entry(old(hand.msg), Failed, false, false))
    {
      SaveKeeps(c, Now(), ok);
      var m := hand.msg;
      if !ok {
        hand := Ending(Entry(m, Failed, false, false));
        return;
      }
      seen := seen.(saved := seen.saved + [m]);
      hand := Saved(m);
    }

    method HandlerPanicked()
      requires Inv(c, Now())
      requires hand.Judging? || hand.Saving? || hand.Saved?
      modifies this`hand
      ensures Now() == Panic(old(Now()))
      ensures Inv(c, Now())
      ensures hand == Ending(Entry(old(hand.msg), Failed, old(hand.Saved?), false))
    {
      PanicKeeps(c, Now());
      hand := Ending(Entry(hand.msg, Failed, hand.Saved?, false));
    }

    method EnqueueDerivedIngest(now: int)
      requires Inv(c, Now()) && hand.Saved?
      modifies this`hand, this`derived, this`derivedTimes, this`seen
      ensures Now() == Enqueue(c, old(Now()), now)
      ensures Inv(c, Now())
      ensures Offered(c, old(Now()), now, Now())
    {
      EnqueueKeeps(c, Now(), now);
      EnqueueMeans(c, Now(), now);
      var m := hand.msg;
      if |derived| < c.derived {
        derived := derived + [Queued(m, now)];
        derivedTimes := derivedTimes + [now];
        seen := seen.(handed := seen.handed + [m]);
        hand := Ending(Entry(m, Processed, true, true));
        return;
      }
      derivedTimes := derivedTimes + [now];
      hand := Waiting(m, now);
    }

    /** The blocked send, once there is room. */
    method SendDerived()
      requires Inv(c, Now()) && hand.Waiting? && |derived| < c.derived
      modifies this`hand, this`derived, this`seen
      ensures Now() == Send(old(Now()))
      ensures Inv(c, Now())
      ensures derived == old(derived) + [Queued(old(hand.msg), old(hand.at))] && derivedTimes == old(derivedTimes)
      ensures seen.handed == old(seen.handed) + [old(hand.msg)] && InHand(hand) == InHand(old(hand))
    {
      SendKeeps(c, Now());
      var m, at := hand.msg, hand.at;
      derived := derived + [Queued(m, at)];
      seen := seen.(handed := seen.handed + [m]);
      hand := Ending(Entry(m, Processed, true, true));
    }

    method CountOutcome()
      requires Inv(c, Now()) && hand.Ending?
      modifies this`hand, this`counters, this`seen
      ensures Now() == Count(old(Now()))
      ensures Inv(c, Now())
      ensures seen.finished == old(seen.finished) + [old(hand.entry)] && hand.Free?
      ensures counters.processed == old(counters.processed) + (if old(hand.entry.outcome.Failed?) then 0 else 1)
      ensures counters.rejected == old(counters.rejected) + (if old(hand.entry.outcome.Rejected?) then 1 else 0)
      ensures counters.failed == old(counters.failed) + (if old(hand.entry.outcome.Failed?) then 1 else 0)
    {
      CountKeeps(c, Now());
      var entry := hand.entry;
      match entry.outcome {
        case Processed =>
          counters := counters.(processed := counters.processed + 1);
        case Rejected =>
          counters := counters.(rejected := counters.rejected + 1);
          counters := counters.(processed := counters.processed + 1);
        case Failed =>
          counters := counters.(failed := counters.failed + 1);
      }
      seen := seen.(finished := seen.finished + [entry]);
      hand := Free;
    }

    method DerivedReceive()
      requires Inv(c, Now()) && worker.Resting? && derived != []
      modifies this`worker, this`derived
      ensures Now() == Work(old(Now()))
      ensures Inv(c, Now())
      ensures old(derived) == [worker.job] + derived
    {
      WorkKeeps(c, Now());
      worker := Working(derived[0]);
      derived := derived[1..];
    }

    method DerivedFinished()
      requires Inv(c, Now()) && worker.Working?
      modifies this`worker, this`derivedTimes, this`seen
      ensures Now() == Finish(old(Now()))
      ensures Inv(c, Now())
      ensures seen.done == old(seen.done) + [old(worker.job.msg)]
      ensures old(derivedTimes) == [old(worker.job.at)] + derivedTimes
    {
      WorkKeeps(c, Now());
      seen := seen.(done := seen.done + [worker.job.msg]);
      if |derivedTimes| > 0 { derivedTimes := derivedTimes[1..]; }
      worker := Resting;
    }
  }
}
