/** The order of queued envelopes (web/src/livePacing.ts), and when it is one. */
module LiveOrder {
  import opened Shared
  import opened LiveCursor

  function DurableNumber(m: Envelope): int { if Classify(m).Durable? then Classify(m).seqNo else 0 }

  /** compareLiveEnvelopes: durable envelopes by number, all other pairs by time. */
  function Compare(a: Envelope, b: Envelope): int {
    var x, y := DurableNumber(a), DurableNumber(b);
    if x > 0 && y > 0 then x - y else if a.at != b.at then a.at - b.at else x - y
  }

  predicate Ahead(a: Envelope, b: Envelope) { Compare(a, b) <= 0 }

  /** On these envelopes the comparator is a total order, up to ties. */
  predicate IsOrderOn(queue: seq<Envelope>) {
    forall a, b, c | a in queue && b in queue && c in queue :: Ahead(a, b) && Ahead(b, c) ==> Ahead(a, c)
  }

  predicate InCompareOrder(ordered: seq<Envelope>) {
    forall i, j | 0 <= i < j < |ordered| :: Ahead(ordered[i], ordered[j])
  }

  /** What the platform's sort may return: a permutation, in order when the comparator is one. For
      an inconsistent comparator ECMAScript leaves the order open (Array.prototype.sort). */
  predicate MaySort(queue: seq<Envelope>, ordered: seq<Envelope>) {
    multiset(ordered) == multiset(queue) && (IsOrderOn(queue) ==> InCompareOrder(ordered))
  }

  lemma SameLength(queue: seq<Envelope>, ordered: seq<Envelope>)
    requires multiset(ordered) == multiset(queue)
    ensures |ordered| == |queue|
  {
    assert |multiset(ordered)| == |ordered|;
  }

  // ---------------------------------------------------------------------------
  // When the comparator is an order
  // ---------------------------------------------------------------------------

  /** The times of two durable envelopes run against their numbers, around a best-effort one. */
  predicate Crosses(low: Envelope, high: Envelope, f: Envelope) {
    && 0 < DurableNumber(low) <= DurableNumber(high) && DurableNumber(f) == 0
    && high.at < f.at <= low.at
  }

  predicate Crossed(queue: seq<Envelope>) {
    exists low, high, f | low in queue && high in queue && f in queue :: Crosses(low, high, f)
  }

  lemma CrossingBreaks(low: Envelope, high: Envelope, f: Envelope)
    requires Crosses(low, high, f)
    ensures Ahead(low, high) && Ahead(high, f) && !Ahead(low, f)
  {
  }

  lemma BreakCrosses(a: Envelope, b: Envelope, c: Envelope)
    requires Ahead(a, b) && Ahead(b, c) && !Ahead(a, c)
    ensures Crosses(a, b, c) || Crosses(c, a, b) || Crosses(b, c, a)
  {
  }

  /** The comparator is an order on a queue exactly when nothing in it crosses. */
  lemma OrderIff(queue: seq<Envelope>)
    ensures IsOrderOn(queue) <==> !Crossed(queue)
  {
    if Crossed(queue) {
      var low, high, f :| low in queue && high in queue && f in queue && Crosses(low, high, f);
      CrossingBreaks(low, high, f);
    } else {
      forall a, b, c | a in queue && b in queue && c in queue && Ahead(a, b) && Ahead(b, c) ensures Ahead(a, c) {
        if !Ahead(a, c) { BreakCrosses(a, b, c); }
      }
    }
  }

  /** The times of the durable envelopes run with their numbers. */
  predicate StampedInOrder(queue: seq<Envelope>) {
    forall a, b | a in queue && b in queue :: 0 < DurableNumber(a) <= DurableNumber(b) ==> a.at <= b.at
  }

  lemma StampedNeverCross(queue: seq<Envelope>)
    requires StampedInOrder(queue)
    ensures !Crossed(queue)
  {
  }

  lemma {:induction false} DurableIsMember(queue: seq<Envelope>, i: nat)
    requires i < |Durables(queue)|
    ensures exists m | m in queue :: Classify(m).Durable? && Classify(m).seqNo == Durables(queue)[i]
  {
    var init, last := queue[..|queue| - 1], queue[|queue| - 1];
    assert forall m | m in init :: m in queue;
    if i < |Durables(init)| { DurableIsMember(init, i); } else { assert last in queue; }
  }

  /** Sorted by the comparator, the durable numbers do not decrease. */
  lemma {:induction false} OrderedNumbers(ordered: seq<Envelope>)
    requires InCompareOrder(ordered)
    ensures NonDecreasing(Durables(ordered))
  {
    if ordered != [] {
      var n := |ordered| - 1;
      OrderedNumbers(ordered[..n]);
      forall i | 0 <= i < |Durables(ordered[..n])| && Classify(ordered[n]).Durable?
        ensures Durables(ordered[..n])[i] <= Classify(ordered[n]).seqNo
      {
        DurableIsMember(ordered[..n], i);
        var m :| m in ordered[..n] && Classify(m).Durable? && Classify(m).seqNo == Durables(ordered[..n])[i];
        assert Ahead(m, ordered[n]);
      }
    }
  }

  /** A queue of durable envelopes comes out in number order. */
  lemma DurableOnlySorts(queue: seq<Envelope>, ordered: seq<Envelope>)
    requires MaySort(queue, ordered) && DurableOnly(queue)
    ensures NonDecreasing(Durables(ordered))
  {
    assert IsOrderOn(queue);
    OrderedNumbers(ordered);
  }

  // ---------------------------------------------------------------------------
  // How an engine sorts a short array
  // ---------------------------------------------------------------------------

  function InsertAt(s: seq<Envelope>, k: nat, m: Envelope): seq<Envelope>
    requires k <= |s|
  {
    s[..k] + [m] + s[k..]
  }

  /** Where binary search puts m: after its equals, if the comparator is an order. */
  function SearchPlace(s: seq<Envelope>, m: Envelope, left: nat, right: nat): (k: nat)
    requires left <= right <= |s|
    ensures left <= k <= right
    decreases right - left
  {
    if left == right then left
    else
      var mid := left + (right - left) / 2;
      if Compare(m, s[mid]) < 0 then SearchPlace(s, m, left, mid) else SearchPlace(s, m, mid + 1, right)
  }

  function InsertAll(s: seq<Envelope>, rest: seq<Envelope>): seq<Envelope>
    decreases |rest|
  {
    if rest == [] then s
    else InsertAll(InsertAt(s, SearchPlace(s, rest[0], 0, |s|), rest[0]), rest[1..])
  }

  /** How far the array is ascending from its start. */
  function RunLength(s: seq<Envelope>, k: nat): (n: nat)
    requires 0 < k <= |s|
    ensures k <= n <= |s|
    decreases |s| - k
  {
    if k == |s| || Compare(s[k], s[k - 1]) < 0 then k else RunLength(s, k + 1)
  }

  /** An array whose second element is not below the first: its ascending run is kept, the others
      are inserted by binary search, as TimSort does with a short array. */
  function EngineSort(s: seq<Envelope>): seq<Envelope>
    requires |s| > 1 && Compare(s[1], s[0]) >= 0
  {
    var run := RunLength(s, 1);
    InsertAll(s[..run], s[run..])
  }
}
