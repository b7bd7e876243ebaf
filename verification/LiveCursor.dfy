/** Sequence numbers of live envelopes (web/src/liveCursor.ts) and the order in which queued
    ones are taken (web/src/livePacing.ts). */
module LiveCursor {
  import opened Shared
  import opened Sorting

  const MAX_BATCH: nat := 256
  const MAX_PENDING: nat := 4096

  /** The seq field of an envelope as it arrives; Malformed stands for anything that is not a
      whole number in the safe range's type. An envelope's time is when it was received, else the
      server's, else its display time. */
  datatype SeqField = Absent | Number(value: int) | Malformed

  datatype Envelope = Envelope(seqField: SeqField, latestSeq: int, at: int, data: string)

  datatype Kind = Durable(seqNo: int) | Fallback | Invalid

  datatype Batch = Batch(accepted: seq<Envelope>, cursor: int, invalid: bool, nonMonotonic: bool)

  function PublicSequence(n: int): int { if 0 < n <= MAX_SAFE then n else 0 }

  function Classify(m: Envelope): Kind {
    match m.seqField
    case Absent => Fallback
    case Malformed => Invalid
    case Number(v) => if v == 0 then Fallback else if 0 < v <= MAX_SAFE then Durable(v) else Invalid
  }

  /** Durable are the whole numbers from 1 up to the largest safe one; no number and 0 are best effort;
      all else is invalid. */
  lemma ClassifyIff(m: Envelope)
    ensures Classify(m).Durable? <==> m.seqField.Number? && 1 <= m.seqField.value <= 9007199254740991
    ensures Classify(m).Durable? ==> m.seqField == Number(Classify(m).seqNo)
    ensures Classify(m).Fallback? <==> m.seqField == Absent || m.seqField == Number(0)
  {
  }

  /** The durable sequence numbers, in queue order. */
  function Durables(messages: seq<Envelope>): seq<int> {
    if messages == [] then []
    else
      var init, k := Durables(messages[..|messages| - 1]), Classify(messages[|messages| - 1]);
      if k.Durable? then init + [k.seqNo] else init
  }

  predicate DurableOnly(messages: seq<Envelope>) { forall m | m in messages :: Classify(m).Durable? }

  predicate NoInvalid(messages: seq<Envelope>) { forall m | m in messages :: !Classify(m).Invalid? }

  predicate Increasing(s: seq<int>) { forall i, j | 0 <= i < j < |s| :: s[i] < s[j] }

  predicate NonDecreasing(s: seq<int>) { forall i, j | 0 <= i < j < |s| :: s[i] <= s[j] }

  function Less(): (int, int) -> bool { (a: int, b: int) => a < b }

  predicate Within(s: seq<int>, lo: int, hi: int) { forall n | n in s :: lo < n <= hi }

  // ---------------------------------------------------------------------------
  // takeIncreasingLiveEnvelopes
  // ---------------------------------------------------------------------------

  function TakeOne(b: Batch, m: Envelope): Batch {
    match Classify(m)
    case Invalid => b.(invalid := true)
    case Fallback => b.(accepted := b.accepted + [m])
    case Durable(n) =>
      if n == b.cursor then b
      else if n < b.cursor then b.(nonMonotonic := true)
      else b.(accepted := b.accepted + [m], cursor := n)
  }

  function Take(messages: seq<Envelope>, afterSeq: int): Batch {
    if messages == [] then Batch([], Max(0, afterSeq), false, false)
    else TakeOne(Take(messages[..|messages| - 1], afterSeq), messages[|messages| - 1])
  }

  method TakeIncreasingLiveEnvelopes(messages: seq<Envelope>, afterSeq: int) returns (b: Batch)
    ensures b == Take(messages, afterSeq) && TakesFrom(b, messages, |messages|, Max(0, afterSeq))
  {
    TakeTakesFrom(messages, afterSeq, |messages|);
    var accepted: seq<Envelope> := [];
    var cursor := Max(0, afterSeq);
    var invalid := false;
    var nonMonotonic := false;
    for i := 0 to |messages|
      invariant Batch(accepted, cursor, invalid, nonMonotonic) == Take(messages[..i], afterSeq)
    {
      assert messages[..i + 1][..i] == messages[..i];
      var sequence := Classify(messages[i]);
      if sequence.Invalid? {
        invalid := true;
      } else if sequence.Fallback? {
        accepted := accepted + [messages[i]];
      } else if sequence.seqNo < cursor {
        nonMonotonic := true;
      } else if sequence.seqNo > cursor {
        accepted := accepted + [messages[i]];
        cursor := sequence.seqNo;
      }
    }
    assert messages[..|messages|] == messages;
    b := Batch(accepted, cursor, invalid, nonMonotonic);
  }

  lemma DurablesSnoc(s: seq<Envelope>, m: Envelope)
    ensures Durables(s + [m]) == if Classify(m).Durable? then Durables(s) + [Classify(m).seqNo] else Durables(s)
  {
    assert (s + [m])[..|s|] == s;
  }

  lemma {:induction false} DurablesConcat(a: seq<Envelope>, b: seq<Envelope>)
    ensures Durables(a + b) == Durables(a) + Durables(b)
  {
    if b == [] {
      assert a + b == a;
    } else {
      var n := |b| - 1;
      assert a + b == (a + b[..n]) + [b[n]];
      DurablesSnoc(a + b[..n], b[n]);
      DurablesConcat(a, b[..n]);
    }
  }

  function LastOr(s: seq<int>, c: int): int { if s == [] then c else s[|s| - 1] }

  /** Increasing from c on. */
  predicate Follows(s: seq<int>, c: int) { Increasing(s) && (s != [] ==> c < s[0]) }

  lemma FollowsWithin(s: seq<int>, c: int)
    requires Follows(s, c)
    ensures Within(s, c, LastOr(s, c)) && c <= LastOr(s, c)
  {
    if s != [] { assert forall i | 0 <= i < |s| :: s[0] <= s[i] <= s[|s| - 1]; }
  }

  lemma FollowsSnoc(s: seq<int>, c: int, n: int)
    ensures Follows(s + [n], c) <==> Follows(s, c) && n > LastOr(s, c)
  {
    var e := s + [n];
    assert forall i | 0 <= i < |s| :: e[i] == s[i];
    if Follows(e, c) {
      assert e[|s|] == n;
      if s != [] { assert e[|s| - 1] < e[|s|]; }
    }
    if Follows(s, c) && n > LastOr(s, c) { FollowsWithin(s, c); }
  }

  /** The accepted numbers increase from the start up to the cursor. */
  predicate Runs(b: Batch, start: int) {
    Follows(Durables(b.accepted), start) && b.cursor == LastOr(Durables(b.accepted), start)
  }

  /** Whatever the order, the accepted numbers increase from the cursor up to the new one. */
  lemma {:induction false} TakenIncrease(messages: seq<Envelope>, afterSeq: int)
    ensures Runs(Take(messages, afterSeq), Max(0, afterSeq))
  {
    if messages != [] {
      var init := messages[..|messages| - 1];
      TakenIncrease(init, afterSeq);
    }
  }

  /** Message i is durable and numbered n. */
  predicate NumberedAt(messages: seq<Envelope>, i: int, n: int) {
    0 <= i < |messages| && Classify(messages[i]) == Durable(n)
  }

  /** No durable message before position i is numbered n or above, nor is the start. */
  predicate Rises(messages: seq<Envelope>, i: nat, start: int, n: int)
    requires i <= |messages|
  {
    start < n && forall j | 0 <= j < i && Classify(messages[j]).Durable? :: Classify(messages[j]).seqNo < n
  }

  /** Message i is handed on: a best-effort one, or a durable one above all before it. */
  predicate HandedOn(messages: seq<Envelope>, i: nat, start: int)
    requires i < |messages|
  {
    match Classify(messages[i])
    case Fallback => true
    case Durable(n) => Rises(messages, i, start, n)
    case Invalid => false
  }

  /** Those of the first n messages that are handed on, in order. */
  function AllHandedOn(messages: seq<Envelope>, n: nat, start: int): seq<Envelope>
    requires n <= |messages|
  {
    if n == 0 then []
    else
      var before := AllHandedOn(messages, n - 1, start);
      if HandedOn(messages, n - 1, start) then before + [messages[n - 1]] else before
  }

  /** Message i falls behind: numbered below the start or an earlier message. */
  predicate FallsBehind(messages: seq<Envelope>, i: int, start: int) {
    && 0 <= i < |messages| && Classify(messages[i]).Durable?
    && var n := Classify(messages[i]).seqNo;
       n < start || exists j | 0 <= j < i && Classify(messages[j]).Durable? :: n < Classify(messages[j]).seqNo
  }

  /** What the batch is of the first n messages, told from them alone. */
  ghost predicate TakesFrom(b: Batch, messages: seq<Envelope>, n: nat, start: int)
    requires n <= |messages|
  {
    && b.accepted == AllHandedOn(messages, n, start)
    && start <= b.cursor && (forall i, k | i < n && NumberedAt(messages, i, k) :: k <= b.cursor)
    && (b.cursor == start || exists i :: i < n && NumberedAt(messages, i, b.cursor))
    && (b.invalid <==> exists i :: 0 <= i < n && Classify(messages[i]).Invalid?)
    && (b.nonMonotonic <==> exists i :: i < n && FallsBehind(messages, i, start))
  }

  lemma TakesFromOne(b: Batch, messages: seq<Envelope>, n: nat, start: int)
    requires n < |messages| && TakesFrom(b, messages, n, start)
    ensures TakesFrom(TakeOne(b, messages[n]), messages, n + 1, start)
  {
    var k := Classify(messages[n]);
    if k.Durable? {
      assert NumberedAt(messages, n, k.seqNo);
      forall j | 0 <= j < n && Classify(messages[j]).Durable? ensures Classify(messages[j]).seqNo <= b.cursor {
        assert NumberedAt(messages, j, Classify(messages[j]).seqNo);
      }
      assert k.seqNo > b.cursor ==> Rises(messages, n, start, k.seqNo);
      if b.cursor != start {
        var i :| i < n && NumberedAt(messages, i, b.cursor);
        assert k.seqNo <= b.cursor ==> !Rises(messages, n, start, k.seqNo);
        assert k.seqNo < b.cursor ==> FallsBehind(messages, n, start);
      }
    }
    assert FallsBehind(messages, n, start) <==> k.Durable? && k.seqNo < b.cursor;
    if i :| i < n + 1 && FallsBehind(messages, i, start) { assert i < n || i == n; }
  }

  /** Taking hands on every best-effort envelope and every durable one above all before it, in order; it
      notes an invalid envelope and one that falls behind exactly when there is one. */
  lemma {:induction false} TakeTakesFrom(messages: seq<Envelope>, afterSeq: int, n: nat)
    requires n <= |messages|
    ensures TakesFrom(Take(messages[..n], afterSeq), messages, n, Max(0, afterSeq))
  {
    if n > 0 {
      TakeTakesFrom(messages, afterSeq, n - 1);
      TakesFromOne(Take(messages[..n - 1], afterSeq), messages, n - 1, Max(0, afterSeq));
      assert messages[..n][..n - 1] == messages[..n - 1];
    }
  }

  predicate TakesAll(b: Batch, messages: seq<Envelope>, start: int) {
    && |Durables(b.accepted)| <= |Durables(messages)|
    && (|Durables(b.accepted)| == |Durables(messages)| ==> Durables(b.accepted) == Durables(messages))
    && (forall n | n in Durables(b.accepted) :: n in Durables(messages))
    && (Durables(b.accepted) == Durables(messages) <==> Follows(Durables(messages), start))
  }

  lemma TakesOneMore(b: Batch, messages: seq<Envelope>, m: Envelope, start: int)
    requires Runs(b, start) && TakesAll(b, messages, start)
    ensures TakesAll(TakeOne(b, m), messages + [m], start)
  {
    DurablesSnoc(b.accepted, m);
    DurablesSnoc(messages, m);
    if Classify(m).Durable? {
      FollowsSnoc(Durables(messages), start, Classify(m).seqNo);
      SameInit(Durables(b.accepted), Durables(messages), Classify(m).seqNo);
    }
  }

  /** Nothing durable is passed over exactly when the numbers increase from the cursor. */
  lemma {:induction false} TakesAllIff(messages: seq<Envelope>, afterSeq: int)
    ensures TakesAll(Take(messages, afterSeq), messages, Max(0, afterSeq))
  {
    if messages != [] {
      var init, last := messages[..|messages| - 1], messages[|messages| - 1];
      TakesAllIff(init, afterSeq);
      TakenIncrease(init, afterSeq);
      TakesOneMore(Take(init, afterSeq), init, last, Max(0, afterSeq));
      assert init + [last] == messages;
    }
  }

  lemma SameInit(s: seq<int>, t: seq<int>, n: int)
    requires |s| <= |t|
    ensures s + [n] == t + [n] <==> s == t
    ensures s != t + [n]
  {
    if s + [n] == t + [n] { assert (s + [n])[..|s|] == (t + [n])[..|s|]; }
  }

  lemma DurablesAround(init: seq<Envelope>, m: Envelope, a: seq<Envelope>, b: seq<Envelope>)
    requires multiset(Durables(init)) == multiset(Durables(a + b))
    ensures multiset(Durables(init + [m])) == multiset(Durables(a + [m] + b))
  {
    DurablesSnoc(init, m);
    DurablesConcat(a + [m], b);
    DurablesSnoc(a, m);
    DurablesConcat(a, b);
  }

  /** Reordering the queue reorders its numbers. */
  lemma {:induction false} DurablesPermute(s: seq<Envelope>, t: seq<Envelope>)
    requires multiset(s) == multiset(t)
    ensures multiset(Durables(s)) == multiset(Durables(t))
  {
    if s == [] {
      assert |multiset(t)| == 0;
    } else {
      var init, last := s[..|s| - 1], s[|s| - 1];
      assert s == init + [last];
      var a, b := FindIn(init, last, t);
      DurablesPermute(init, a + b);
      DurablesAround(init, last, a, b);
    }
  }

  // ---------------------------------------------------------------------------
  // retainLiveEnvelopesAfterCursor and the other small decisions
  // ---------------------------------------------------------------------------

  function Retain(messages: seq<Envelope>, cursor: int): seq<Envelope> {
    if messages == [] then []
    else
      var init, last := Retain(messages[..|messages| - 1], cursor), messages[|messages| - 1];
      var k := Classify(last);
      if k.Fallback? || (k.Durable? && k.seqNo > cursor) then init + [last] else init
  }

  predicate ShouldQueue(n: int, lastApplied: int, lastQueued: int) {
    n <= MAX_SAFE && n > Max(0, Max(lastApplied, lastQueued))
  }

  function ResetTarget(serverLatest: int, priorApplied: int, latestInbound: int): int {
    var server, prior, inbound := PublicSequence(serverLatest), PublicSequence(priorApplied),
        PublicSequence(latestInbound);
    if server < prior && inbound >= prior then server else Max(server, inbound)
  }

  predicate HelloNeedsProbe(helloSeq: int, lastApplied: int) {
    PublicSequence(lastApplied) > 0 && PublicSequence(helloSeq) < PublicSequence(lastApplied)
  }

  /** The numbers above c, in order. */
  function Beyond(s: seq<int>, c: int): seq<int> {
    if s == [] then []
    else
      var init, last := Beyond(s[..|s| - 1], c), s[|s| - 1];
      if last > c then init + [last] else init
  }

  /** Retaining keeps exactly the durable numbers above the cursor. */
  lemma {:induction false} RetainedDurables(messages: seq<Envelope>, c: int)
    ensures Durables(Retain(messages, c)) == Beyond(Durables(messages), c)
  {
    if messages != [] {
      var init, last := messages[..|messages| - 1], messages[|messages| - 1];
      RetainedDurables(init, c);
      assert init + [last] == messages;
      DurablesSnoc(init, last);
      DurablesSnoc(Retain(init, c), last);
    }
  }

  /** Best effort, or durable and numbered above c. */
  function StillDue(c: int): Envelope -> bool {
    (m: Envelope) => Classify(m).Fallback? || (Classify(m).Durable? && Classify(m).seqNo > c)
  }

  /** ... and every best-effort envelope, all in order. */
  lemma {:induction false} RetainSelects(messages: seq<Envelope>, c: int)
    ensures Selects(Retain(messages, c), messages, StillDue(c))
  {
    if messages != [] {
      var init, last := messages[..|messages| - 1], messages[|messages| - 1];
      assert messages == init + [last];
      RetainSelects(init, c);
      SelectsOne(Retain(init, c), init, StillDue(c), last, messages, Retain(messages, c));
    }
  }

  lemma {:induction false} RetainedAreOld(messages: seq<Envelope>, c: int)
    ensures |Retain(messages, c)| <= |messages| && NoInvalid(Retain(messages, c))
    ensures forall m | m in Retain(messages, c) :: m in messages
  {
    if messages != [] { RetainedAreOld(messages[..|messages| - 1], c); }
  }

  lemma {:induction false} BeyondMembers(s: seq<int>, c: int)
    ensures forall n :: n in Beyond(s, c) <==> n in s && n > c
  {
    if s != [] {
      BeyondMembers(s[..|s| - 1], c);
      assert s == s[..|s| - 1] + [s[|s| - 1]];
    }
  }

  lemma {:induction false} BeyondDistinct(s: seq<int>, c: int)
    requires Distinct(s)
    ensures Distinct(Beyond(s, c))
  {
    if s != [] {
      var init, last := s[..|s| - 1], s[|s| - 1];
      assert s == init + [last];
      DistinctSnoc(init, last);
      BeyondDistinct(init, c);
      BeyondMembers(init, c);
      DistinctSnoc(Beyond(init, c), last);
    }
  }

  lemma {:induction false} BeyondAll(s: seq<int>, c: int)
    requires forall i | 0 <= i < |s| :: s[i] > c
    ensures Beyond(s, c) == s
  {
    if s != [] {
      BeyondAll(s[..|s| - 1], c);
      assert s == s[..|s| - 1] + [s[|s| - 1]];
    }
  }
}
