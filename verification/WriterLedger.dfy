/** The writer part of the runtime statistics (backend/internal/live/runtime_stats.go): per
    lane, the queue times of the writes that are waiting. */
module WriterLedger {

  datatype Lane = Primary | LiveCore | Background

  /** items without the first occurrence of x. */
  function RemoveFirst(items: seq<int>, x: int): (r: seq<int>)
    ensures x in items ==> multiset(r) == multiset(items) - multiset{x}
    ensures x !in items ==> r == items
  {
    if items == [] then []
    else
      assert items == [items[0]] + items[1..];
      if items[0] == x then items[1..]
      else
        assert x in items <==> x in items[1..];
        [items[0]] + RemoveFirst(items[1..], x)
  }

  lemma {:induction false} RemoveFirstAt(items: seq<int>, i: nat)
    requires i < |items| && items[i] !in items[..i]
    ensures RemoveFirst(items, items[i]) == items[..i] + items[i + 1..]
  {
    if i > 0 {
      assert items[0] == items[..i][0];
      assert items[1..][..i - 1] == items[..i][1..];
      RemoveFirstAt(items[1..], i - 1);
      assert items[..i] == [items[0]] + items[1..][..i - 1];
    }
  }

  type Ledger = map<Lane, seq<int>>

  function Times(ledger: Ledger, lane: Lane): seq<int> { if lane in ledger then ledger[lane] else [] }

  class RuntimeStats {
    var writerQueuedAt: Ledger
    var lastWaitMs: map<Lane, int>
    var maxWaitMs: map<Lane, int>

    constructor ()
      ensures writerQueuedAt == map[] && lastWaitMs == map[] && maxWaitMs == map[]
    {
      writerQueuedAt, lastWaitMs, maxWaitMs := map[], map[], map[];
    }

    method RecordWriterQueued(lane: Lane, queuedAtMs: int)
      modifies this`writerQueuedAt
      ensures writerQueuedAt == old(writerQueuedAt)[lane := Times(old(writerQueuedAt), lane) + [queuedAtMs]]
    {
      writerQueuedAt := writerQueuedAt[lane := Times(writerQueuedAt, lane) + [queuedAtMs]];
    }

    method RecordWriterCanceled(lane: Lane, queuedAtMs: int)
      modifies this`writerQueuedAt
      ensures forall l :: Times(writerQueuedAt, l) ==
                          if l == lane then RemoveFirst(Times(old(writerQueuedAt), l), queuedAtMs)
                          else Times(old(writerQueuedAt), l)
    {
      RemoveWriterQueued(lane, queuedAtMs);
    }

    method RecordWriterStarted(lane: Lane, queuedAtMs: int, waitMs: int)
      modifies this
      ensures forall l :: Times(writerQueuedAt, l) ==
                          if l == lane then RemoveFirst(Times(old(writerQueuedAt), l), queuedAtMs)
                          else Times(old(writerQueuedAt), l)
      ensures lastWaitMs == old(lastWaitMs)[lane := if waitMs > 0 then waitMs else 0]
      ensures maxWaitMs.Keys == old(maxWaitMs.Keys) + {lane}
      ensures forall l | l in maxWaitMs && l != lane :: maxWaitMs[l] == old(maxWaitMs)[l]
      ensures waitMs <= maxWaitMs[lane] && 0 <= maxWaitMs[lane]
      ensures lane in old(maxWaitMs) ==> old(maxWaitMs)[lane] <= maxWaitMs[lane]
      ensures maxWaitMs[lane] == lastWaitMs[lane]
              || maxWaitMs[lane] == (if lane in old(maxWaitMs) then old(maxWaitMs)[lane] else 0)
    {
      RemoveWriterQueued(lane, queuedAtMs);
      var wait := if waitMs > 0 then waitMs else 0;
      lastWaitMs := lastWaitMs[lane := wait];
      var current := if lane in maxWaitMs then maxWaitMs[lane] else 0;
      maxWaitMs := maxWaitMs[lane := if wait <= current then current else wait];
    }

    method RemoveWriterQueued(lane: Lane, queuedAtMs: int)
      modifies this`writerQueuedAt
      ensures forall l :: Times(writerQueuedAt, l) ==
                          if l == lane then RemoveFirst(Times(old(writerQueuedAt), l), queuedAtMs)
                          else Times(old(writerQueuedAt), l)
    {
      var items := Times(writerQueuedAt, lane);
      for i := 0 to |items|
        invariant queuedAtMs !in items[..i] && writerQueuedAt == old(writerQueuedAt)
      {
        if items[i] == queuedAtMs {
          RemoveFirstAt(items, i);
          writerQueuedAt := writerQueuedAt[lane := items[..i] + items[i + 1..]];
          return;
        }
        assert items[..i + 1] == items[..i] + [items[i]];
      }
      assert items[..|items|] == items;
    }
  }
}
