/** The durable public event log and the page the server answers with
    (backend/internal/api/public_extended.go, backend/internal/store/public_events.go). */
module EventLog {
  import opened Shared

  /** A stored event; `exposed` tells whether the region filter lets it out. */
  datatype Event = Event(seqNo: int, exposed: bool, data: string)

  datatype Page = Page(events: seq<Event>, nextCursor: int, latestSeq: int, resetRequired: bool)

  predicate Ascending(log: seq<Event>) {
    && (forall i | 0 <= i < |log| :: 0 < log[i].seqNo <= MAX_SAFE)
    && (forall i, j | 0 <= i < j < |log| :: log[i].seqNo < log[j].seqNo)
  }

  /** The events of the log numbered in (lo, hi], and the exposed ones among them. */
  function Between(log: seq<Event>, lo: int, hi: int): seq<Event> {
    if log == [] then []
    else
      var init, last := Between(log[..|log| - 1], lo, hi), log[|log| - 1];
      if lo < last.seqNo <= hi then init + [last] else init
  }

  function Exposed(events: seq<Event>): seq<Event> {
    if events == [] then []
    else
      var init, last := Exposed(events[..|events| - 1]), events[|events| - 1];
      if last.exposed then init + [last] else init
  }

  function Oldest(stored: seq<Event>): int { if stored == [] then 0 else stored[0].seqNo }

  function Latest(stored: seq<Event>): int { if stored == [] then 0 else stored[|stored| - 1].seqNo }

  function PageLimit(limit: int): nat { if limit <= 0 || limit > 1000 then 500 else limit }

  /** A page is refused when the cursor is missing, below the retained floor or ahead of the log. */
  predicate NeedsReset(stored: seq<Event>, afterSeq: int) {
    || afterSeq <= 0
    || (Oldest(stored) > 0 && afterSeq < Oldest(stored) - 1)
    || afterSeq > Latest(stored)
  }

  predicate BelowAll(stored: seq<Event>, n: int) { forall e | e in stored :: n < e.seqNo }

  predicate AheadOfAll(stored: seq<Event>, n: int) { forall e | e in stored :: n > e.seqNo }

  /** A cursor is refused exactly when it is not positive, ahead of every stored event, or when some
      number after it lies below every stored one. */
  lemma ResetIff(stored: seq<Event>, c: int)
    requires Ascending(stored)
    ensures NeedsReset(stored, c) <==> c <= 0 || AheadOfAll(stored, c) || exists n :: c < n && BelowAll(stored, n)
  {
    if stored != [] {
      assert stored[0] in stored && stored[|stored| - 1] in stored;
      if c < stored[0].seqNo - 1 { assert BelowAll(stored, c + 1); }
    } else {
      assert AheadOfAll(stored, c);
    }
  }

  // ---------------------------------------------------------------------------
  // Between and Exposed
  // ---------------------------------------------------------------------------

  lemma {:induction false} BetweenConcat(a: seq<Event>, b: seq<Event>, lo: int, hi: int)
    ensures Between(a + b, lo, hi) == Between(a, lo, hi) + Between(b, lo, hi)
  {
    if b == [] {
      assert a + b == a;
    } else {
      var n := |b| - 1;
      assert a + b == (a + b[..n]) + [b[n]];
      BetweenConcat(a, b[..n], lo, hi);
    }
  }

  lemma {:induction false} ExposedConcat(a: seq<Event>, b: seq<Event>)
    ensures Exposed(a + b) == Exposed(a) + Exposed(b)
  {
    if b == [] {
      assert a + b == a;
    } else {
      var n := |b| - 1;
      assert (a + b)[..|a + b| - 1] == a + b[..n];
      ExposedConcat(a, b[..n]);
    }
  }

  ghost predicate AtMost(s: seq<Event>, c: int) { forall k | 0 <= k < |s| :: s[k].seqNo <= c }

  ghost predicate Above(s: seq<Event>, c: int) { forall k | 0 <= k < |s| :: c < s[k].seqNo }

  /** The first i events are those numbered up to c. */
  ghost predicate Cut(log: seq<Event>, i: int, c: int) {
    0 <= i <= |log| && AtMost(log[..i], c) && Above(log[i..], c)
  }

  lemma {:induction false} BetweenBelow(s: seq<Event>, lo: int, hi: int)
    requires AtMost(s, lo)
    ensures Between(s, lo, hi) == []
  {
    if s != [] { BetweenBelow(s[..|s| - 1], lo, hi); }
  }

  lemma {:induction false} BetweenBeyond(s: seq<Event>, lo: int, hi: int)
    requires Above(s, hi)
    ensures Between(s, lo, hi) == []
  {
    if s != [] { BetweenBeyond(s[..|s| - 1], lo, hi); }
  }

  lemma RangeInit(s: seq<Event>, lo: int, hi: int)
    requires s != [] && Above(s, lo) && AtMost(s, hi)
    ensures var n := |s| - 1; s == s[..n] + [s[n]] && lo < s[n].seqNo <= hi && Above(s[..n], lo) && AtMost(s[..n], hi)
  {
  }

  lemma {:induction false} BetweenAll(s: seq<Event>, lo: int, hi: int)
    requires Above(s, lo) && AtMost(s, hi)
    ensures Between(s, lo, hi) == s
  {
    if s != [] {
      RangeInit(s, lo, hi);
      BetweenAll(s[..|s| - 1], lo, hi);
    }
  }

  lemma BetweenTwoParts(a: seq<Event>, b: seq<Event>, lo: int, hi: int)
    requires AtMost(a, lo) && Above(b, lo) && AtMost(b, hi)
    ensures Between(a + b, lo, hi) == b
  {
    BetweenConcat(a, b, lo, hi);
    BetweenBelow(a, lo, hi);
    BetweenAll(b, lo, hi);
  }

  lemma BetweenThreeParts(a: seq<Event>, b: seq<Event>, d: seq<Event>, lo: int, hi: int)
    requires AtMost(a, lo) && Above(b, lo) && AtMost(b, hi) && Above(d, hi)
    ensures Between(a + b + d, lo, hi) == b
  {
    BetweenConcat(a + b, d, lo, hi);
    BetweenTwoParts(a, b, lo, hi);
    BetweenBeyond(d, lo, hi);
  }

  lemma PartAbove(s: seq<Event>, i: nat, j: nat, c: int)
    requires i <= j <= |s| && Above(s[i..], c)
    ensures Above(s[i..j], c)
  {
    assert s[i..][..j - i] == s[i..j];
  }

  lemma PartAtMost(s: seq<Event>, i: nat, j: nat, c: int)
    requires i <= j <= |s| && AtMost(s[..j], c)
    ensures AtMost(s[i..j], c)
  {
    assert s[..j][i..] == s[i..j];
  }

  /** An interval of the log is a contiguous stretch of it. */
  lemma BetweenCuts(log: seq<Event>, lo: int, i: nat, hi: int, j: nat)
    requires i <= j && Cut(log, i, lo) && Cut(log, j, hi)
    ensures Between(log, lo, hi) == log[i..j]
  {
    PartAbove(log, i, j, lo);
    PartAtMost(log, i, j, hi);
    BetweenThreeParts(log[..i], log[i..j], log[j..], lo, hi);
    assert log == log[..i] + log[i..j] + log[j..];
  }

  lemma CutAt(log: seq<Event>, m: nat)
    requires Ascending(log) && 0 < m <= |log|
    ensures Cut(log, m, log[m - 1].seqNo)
  {
  }

  lemma {:induction false} BetweenSplits(log: seq<Event>, lo: int, mid: int, hi: int)
    requires Ascending(log) && lo <= mid <= hi
    ensures Between(log, lo, hi) == Between(log, lo, mid) + Between(log, mid, hi)
  {
    if log != [] {
      var n := |log| - 1;
      BetweenSplits(log[..n], lo, mid, hi);
      if log[n].seqNo <= mid { BetweenBelow(log[..n], mid, hi); }
    }
  }

  lemma {:induction false} ExposedMembers(events: seq<Event>)
    ensures forall e :: e in Exposed(events) <==> e in events && e.exposed
  {
    if events != [] {
      var n := |events| - 1;
      ExposedMembers(events[..n]);
      assert events == events[..n] + [events[n]];
    }
  }

  lemma AscendsSnoc(kept: seq<Event>, e: Event)
    requires Ascending(kept) && 0 < e.seqNo <= MAX_SAFE && forall x | x in kept :: x.seqNo < e.seqNo
    ensures Ascending(kept + [e])
  {
  }

  lemma {:induction false} ExposedAscends(events: seq<Event>)
    requires Ascending(events)
    ensures Ascending(Exposed(events))
  {
    if events != [] {
      var n := |events| - 1;
      ExposedAscends(events[..n]);
      ExposedMembers(events[..n]);
      if events[n].exposed { AscendsSnoc(Exposed(events[..n]), events[n]); }
    }
  }

  /** The last exposed event: nothing after it is exposed. */
  lemma {:induction false} LastExposed(events: seq<Event>) returns (m: nat)
    requires Exposed(events) != []
    ensures 0 < m <= |events| && Exposed(events[..m]) == Exposed(events)
    ensures events[m - 1] == Exposed(events)[|Exposed(events)| - 1]
  {
    m := |events|;
    assert events[..m] == events;
    if !events[m - 1].exposed {
      var rest := events[..m - 1];
      m := LastExposed(rest);
      assert rest[..m] == events[..m];
    }
  }

  // ---------------------------------------------------------------------------
  // The server side
  // ---------------------------------------------------------------------------

  /** The rows after a cursor, at most limit of them. */
  function Listed(stored: seq<Event>, afterSeq: int, limit: nat): seq<Event> {
    var rows := Between(stored, afterSeq, MAX_SAFE);
    if |rows| > limit then rows[..limit] else rows
  }

  /** The cursor to continue from: the last row of a full page, 0 when nothing is left. */
  function Continuation(stored: seq<Event>, afterSeq: int, limit: nat): int {
    var rows := Between(stored, afterSeq, MAX_SAFE);
    if |rows| > limit > 0 then rows[limit - 1].seqNo else 0
  }

  function ResponseCursor(exposed: seq<Event>, next: int, afterSeq: int): int {
    if next != 0 then next else if exposed != [] then exposed[|exposed| - 1].seqNo else afterSeq
  }

  /** The page for a cursor. The bounds are read from `bounds`, the rows a moment later from
      `rows`, to which events may have been added and from whose front some may be gone. */
  function PageSpec(bounds: seq<Event>, rows: seq<Event>, afterSeq: int, limit: int): Page {
    if NeedsReset(bounds, afterSeq) then
      Page([], if Latest(bounds) <= 0 then 0 else Latest(bounds), Latest(bounds), true)
    else
      var listed := Listed(rows, afterSeq, PageLimit(limit));
      var cursor := ResponseCursor(Exposed(listed), Continuation(rows, afterSeq, PageLimit(limit)), afterSeq);
      Page(Exposed(listed), if cursor <= 0 then 0 else cursor, Latest(bounds), false)
  }

  lemma RowsSnoc(stored: seq<Event>, i: nat, c: int)
    requires i < |stored| && Ascending(stored)
    ensures Between(stored[..i + 1], c, MAX_SAFE) ==
            if stored[i].seqNo > c then Between(stored[..i], c, MAX_SAFE) + [stored[i]]
            else Between(stored[..i], c, MAX_SAFE)
  {
    assert stored[..i + 1][..i] == stored[..i];
  }

  /** The rows found in a prefix come first among all rows. */
  lemma RowsFirst(stored: seq<Event>, i: nat, c: int)
    requires i <= |stored|
    ensures Between(stored[..i], c, MAX_SAFE) <= Between(stored, c, MAX_SAFE)
  {
    assert stored == stored[..i] + stored[i..];
    BetweenConcat(stored[..i], stored[i..], c, MAX_SAFE);
  }

  /** A row more than the limit: the rows so far are the page. */
  lemma RowsFill(stored: seq<Event>, i: nat, c: int)
    requires i < |stored| && Ascending(stored) && stored[i].seqNo > c
    ensures var kept, rows := Between(stored[..i], c, MAX_SAFE), Between(stored, c, MAX_SAFE);
            |rows| > |kept| && rows[..|kept|] == kept
  {
    RowsSnoc(stored, i, c);
    RowsFirst(stored, i + 1, c);
  }

  method ListPublicEventsAfter(stored: seq<Event>, afterSeq: int, limit: int) returns (events: array<Event>, next: int)
    requires Ascending(stored)
    ensures fresh(events) && events[..] == Listed(stored, afterSeq, PageLimit(limit))
    ensures next == Continuation(stored, afterSeq, PageLimit(limit))
  {
    var cap := PageLimit(limit);
    var kept: seq<Event> := [];
    next := 0;
    var i := 0;
    while i < |stored|
      invariant i <= |stored| && next == 0
      invariant kept == Between(stored[..i], afterSeq, MAX_SAFE) && |kept| <= cap
    {
      RowsSnoc(stored, i, afterSeq);
      if stored[i].seqNo > afterSeq {
        if |kept| >= cap {
          RowsFill(stored, i, afterSeq);
          RowPositive(stored[..i], afterSeq);
          next := kept[|kept| - 1].seqNo;
          break;
        }
        kept := kept + [stored[i]];
      }
      i := i + 1;
    }
    assert next == 0 ==> stored[..i] == stored;
    events := ArrayOf(kept);
  }

  method ArrayOf(kept: seq<Event>) returns (events: array<Event>)
    ensures fresh(events) && events[..] == kept
  {
    events := new Event[|kept|](j requires 0 <= j < |kept| => kept[j]);
    assert events[..] == kept;
  }

  lemma {:induction false} RowPositive(stored: seq<Event>, afterSeq: int)
    requires forall i | 0 <= i < |stored| :: 0 < stored[i].seqNo
    ensures forall e | e in Between(stored, afterSeq, MAX_SAFE) :: 0 < e.seqNo
  {
    if stored != [] { RowPositive(stored[..|stored| - 1], afterSeq); }
  }

  lemma ExposedSnoc(events: seq<Event>, i: nat)
    requires i < |events|
    ensures Exposed(events[..i + 1]) ==
            if events[i].exposed then Exposed(events[..i]) + [events[i]] else Exposed(events[..i])
  {
    assert events[..i + 1][..i] == events[..i];
  }

  /** filterPublicEvents: compacts the slice in place. */
  method FilterPublicEvents(events: array<Event>) returns (n: nat)
    modifies events
    ensures n <= events.Length && events[..n] == Exposed(old(events[..]))
  {
    n := 0;
    for i := 0 to events.Length
      invariant n <= i && events[..n] == Exposed(old(events[..i]))
      invariant events[i..] == old(events[i..])
    {
      ExposedSnoc(old(events[..]), i);
      assert old(events[..])[..i] == old(events[..i]) && old(events[..])[..i + 1] == old(events[..i + 1]);
      assert events[i] == old(events[i..])[0];
      assert events[i + 1..] == events[i..][1..];
      ghost var kept := events[..n];
      if events[i].exposed {
        events[n] := events[i];
        n := n + 1;
        assert events[..n] == kept + [old(events[..])[i]];
      }
      assert events[i + 1..] == old(events[i..])[1..];
    }
    assert old(events[..events.Length]) == old(events[..]);
  }

  method PublicEvents(bounds: seq<Event>, rows: seq<Event>, afterSeq: int, limit: int) returns (page: Page)
    requires Ascending(bounds) && Ascending(rows)
    ensures page == PageSpec(bounds, rows, afterSeq, limit)
  {
    var oldestSeq, latestSeq := Oldest(bounds), Latest(bounds);
    var belowRetainedFloor := oldestSeq > 0 && afterSeq < oldestSeq - 1;
    if afterSeq <= 0 || belowRetainedFloor || afterSeq > latestSeq {
      return Page([], if latestSeq <= 0 then 0 else latestSeq, latestSeq, true);
    }
    var listed, next := ListPublicEventsAfter(rows, afterSeq, limit);
    var n := FilterPublicEvents(listed);
    var events := listed[..n];
    var responseCursor := next;
    if responseCursor == 0 {
      responseCursor := afterSeq;
      if |events| > 0 { responseCursor := events[|events| - 1].seqNo; }
    }
    page := Page(events, if responseCursor <= 0 then 0 else responseCursor, latestSeq, false);
  }

  // ---------------------------------------------------------------------------
  // What a page covers
  // ---------------------------------------------------------------------------

  /** The server holds log[floor..end] when it reads its bounds and, a moment later,
      log[rowFloor..rowEnd] when it reads rows: events may have been added and pruned between. */
  datatype View = View(floor: nat, end: nat, rowFloor: nat, rowEnd: nat)

  predicate ViewOk(log: seq<Event>, v: View) {
    v.floor <= v.rowFloor <= v.rowEnd && v.floor <= v.end <= v.rowEnd <= |log|
  }

  /** What the server holds when it reads its bounds, and when it reads the rows. */
  function Bounds(log: seq<Event>, v: View): seq<Event>
    requires ViewOk(log, v)
  {
    log[v.floor..v.end]
  }

  function Rows(log: seq<Event>, v: View): seq<Event>
    requires ViewOk(log, v)
  {
    log[v.rowFloor..v.rowEnd]
  }

  function Answer(log: seq<Event>, v: View, afterSeq: int, limit: int): Page
    requires ViewOk(log, v)
  {
    PageSpec(Bounds(log, v), Rows(log, v), afterSeq, limit)
  }

  /** The exposed events after the cursor that are gone when the rows are read. */
  function Missed(log: seq<Event>, v: View, c: int): seq<Event>
    requires ViewOk(log, v)
  {
    Exposed(Between(log[..v.rowFloor], c, MAX_SAFE))
  }

  lemma FirstAfter(log: seq<Event>, c: int) returns (i: nat)
    requires Ascending(log)
    ensures Cut(log, i, c)
  {
    i := 0;
    while i < |log| && log[i].seqNo <= c
      invariant i <= |log| && forall k | 0 <= k < i :: log[k].seqNo <= c
    {
      i := i + 1;
    }
  }

  lemma CutIndex(log: seq<Event>, i: nat, c: int, k: nat)
    requires Cut(log, i, c) && k < |log|
    ensures log[k].seqNo <= c <==> k < i
  {
    if k < i { assert log[..i][k] == log[k]; } else { assert log[i..][k - i] == log[k]; }
  }

  /** A cursor the server accepts still has all its successors in store. */
  lemma NothingPruned(log: seq<Event>, v: View, c: int) returns (i: nat)
    requires Ascending(log) && ViewOk(log, v) && !NeedsReset(Bounds(log, v), c)
    ensures v.floor <= i <= v.end && Cut(log, i, c)
  {
    i := FirstAfter(log, c);
    var bounds := Bounds(log, v);
    assert bounds != [];
    assert bounds[0] == log[v.floor] && bounds[|bounds| - 1] == log[v.end - 1];
    if i < |log| { CutIndex(log, i, c, i); }
    if v.end < |log| { CutIndex(log, i, c, v.end); }
  }

  lemma UpToMax(s: seq<Event>)
    requires Ascending(s)
    ensures AtMost(s, MAX_SAFE)
  {
  }

  lemma RowsAfter(log: seq<Event>, floor: nat, i: nat, rowEnd: nat, c: int)
    requires Ascending(log) && floor <= rowEnd <= |log| && i <= rowEnd && Cut(log, i, c)
    ensures Between(log[floor..rowEnd], c, MAX_SAFE) == log[Max(i, floor)..rowEnd]
  {
    var k := Max(i, floor);
    UpToMax(log[k..rowEnd]);
    PartAbove(log, i, rowEnd, c);
    assert log[i..rowEnd][k - i..] == log[k..rowEnd];
    if i <= floor {
      BetweenAll(log[k..rowEnd], c, MAX_SAFE);
    } else {
      PartAtMost(log, floor, i, c);
      BetweenTwoParts(log[floor..i], log[i..rowEnd], c, MAX_SAFE);
      assert log[floor..rowEnd] == log[floor..i] + log[i..rowEnd];
    }
  }

  lemma CutSlice(log: seq<Event>, i: nat, m: nat, end: nat)
    requires i <= m <= end <= |log|
    ensures log[i..end][..m - i] == log[i..m]
    ensures i < m ==> log[i..end][m - i - 1] == log[m - 1]
  {
  }

  lemma MissedRows(log: seq<Event>, v: View, i: nat, c: int)
    requires Ascending(log) && ViewOk(log, v) && Cut(log, i, c)
    ensures Missed(log, v, c) == Exposed(log[i..Max(i, v.rowFloor)])
  {
    if i <= v.rowFloor {
      RowsAfter(log, 0, i, v.rowFloor, c);
      assert log[0..v.rowFloor] == log[..v.rowFloor];
    } else {
      assert log[..v.rowFloor] == log[..i][..v.rowFloor];
      BetweenBelow(log[..v.rowFloor], c, MAX_SAFE);
    }
  }

  /** The rows after a cursor, cut at the limit. */
  lemma FirstRows(log: seq<Event>, rows: seq<Event>, k: nat, end: nat, c: int, limit: nat)
    requires Ascending(log) && k <= end <= |log| && limit > 0 && Between(rows, c, MAX_SAFE) == log[k..end]
    ensures var j := Min(k + limit, end);
            && k <= j && Listed(rows, c, limit) == log[k..j]
            && Continuation(rows, c, limit) == (if j < end then log[j - 1].seqNo else 0)
  {
    CutSlice(log, k, Min(k + limit, end), end);
  }

  /** The rows of a page after a cursor that stands before event i. */
  lemma ListedFrom(log: seq<Event>, v: View, c: int, limit: nat, i: nat)
    requires Ascending(log) && ViewOk(log, v) && limit > 0 && Cut(log, i, c) && i <= v.rowEnd
    ensures var k := Max(i, v.rowFloor);
            var j := Min(k + limit, v.rowEnd);
            && k <= j && Listed(Rows(log, v), c, limit) == log[k..j]
            && Continuation(Rows(log, v), c, limit) == (if j < v.rowEnd then log[j - 1].seqNo else 0)
  {
    RowsAfter(log, v.rowFloor, i, v.rowEnd, c);
    FirstRows(log, Rows(log, v), Max(i, v.rowFloor), v.rowEnd, c, limit);
  }

  /** A page that is not refused shows the log's events right after the cursor, but for those
      pruned between the two reads. */
  lemma ListedIsNext(log: seq<Event>, v: View, c: int, limit: nat) returns (i: nat, k: nat, j: nat)
    requires Ascending(log) && ViewOk(log, v) && limit > 0 && !NeedsReset(Bounds(log, v), c)
    ensures Cut(log, i, c) && k == Max(i, v.rowFloor) && k <= j <= v.rowEnd && i <= v.end
    ensures Listed(Rows(log, v), c, limit) == log[k..j] && Missed(log, v, c) == Exposed(log[i..k])
    ensures j == Min(k + limit, v.rowEnd)
    ensures Continuation(Rows(log, v), c, limit) == if j < v.rowEnd then log[j - 1].seqNo else 0
  {
    i := NothingPruned(log, v, c);
    k := Max(i, v.rowFloor);
    j := Min(k + limit, v.rowEnd);
    ListedFrom(log, v, c, limit, i);
    MissedRows(log, v, i, c);
  }

  /** Nothing is missed when nothing is pruned between the two reads. */
  lemma UnprunedMissesNothing(log: seq<Event>, v: View, c: int)
    requires Ascending(log) && ViewOk(log, v) && !NeedsReset(Bounds(log, v), c) && v.rowFloor == v.floor
    ensures Missed(log, v, c) == []
  {
    var i := NothingPruned(log, v, c);
    MissedRows(log, v, i, c);
  }
}
