/** Paged recovery of the retained event log by the client (web/src/eventRecovery.ts), run
    against a server whose log grows and is pruned from the front between pages. */
module EventRecovery {
  import opened Shared
  import opened Sorting
  import opened EventLog

  datatype Status = CaughtUp | Empty | ResetRequired | UnrecoverableGap | Cancelled

  datatype Recovery = Recovery(status: Status, cursor: int, latestSeq: int, pages: nat)

  function FiniteSequence(n: int): int { if 0 < n <= MAX_SAFE then n else 0 }

  function NewerThan(events: seq<Event>, cursor: int): seq<Event> {
    if events == [] then []
    else
      var init, last := NewerThan(events[..|events| - 1], cursor), events[|events| - 1];
      if FiniteSequence(last.seqNo) > cursor then init + [last] else init
  }

  function BySeq(): (Event, Event) -> bool { (a: Event, b: Event) => a.seqNo < b.seqNo }

  /** The page's events as the client filters and sorts them. */
  function Fresh(page: Page, cursor: int): seq<Event> { SortBy(BySeq(), NewerThan(page.events, cursor)) }

  /** Where the events of a page take the cursor. */
  function CursorAfter(events: seq<Event>, page: Page): int
    requires events != []
  {
    Max(FiniteSequence(events[|events| - 1].seqNo), FiniteSequence(page.nextCursor))
  }

  lemma {:induction false} NewerThanAll(events: seq<Event>, cursor: int)
    requires Above(events, cursor) && AtMost(events, MAX_SAFE) && 0 <= cursor
    ensures NewerThan(events, cursor) == events
  {
    if events != [] {
      RangeInit(events, cursor, MAX_SAFE);
      NewerThanAll(events[..|events| - 1], cursor);
    }
  }

  lemma {:induction false} InsertLargest(s: seq<Event>, x: Event)
    requires AtMost(s, x.seqNo - 1)
    ensures InsertBy(BySeq(), s, x) == s + [x]
  {
    if s != [] {
      InsertLargest(s[1..], x);
      assert s == [s[0]] + s[1..];
    }
  }

  lemma AscendingInit(s: seq<Event>)
    requires Ascending(s) && s != []
    ensures var n := |s| - 1; s == s[..n] + [s[n]] && Ascending(s[..n]) && AtMost(s[..n], s[n].seqNo - 1)
  {
  }

  lemma {:induction false} SortAscending(events: seq<Event>)
    requires Ascending(events)
    ensures SortBy(BySeq(), events) == events
  {
    if events != [] {
      var n := |events| - 1;
      AscendingInit(events);
      SortAscending(events[..n]);
      InsertLargest(events[..n], events[n]);
    }
  }

  // ---------------------------------------------------------------------------
  // One page
  // ---------------------------------------------------------------------------

  /** Where a page takes the cursor. */
  function NextCursor(page: Page): int
    requires page.events != []
  {
    CursorAfter(page.events, page)
  }

  lemma SliceAscends(log: seq<Event>, i: nat, j: nat)
    requires Ascending(log) && i <= j <= |log|
    ensures Ascending(log[i..j])
  {
  }

  lemma ExposedAbove(events: seq<Event>, c: int)
    requires Above(events, c)
    ensures Above(Exposed(events), c)
  {
    ExposedMembers(events);
    var out := Exposed(events);
    forall k | 0 <= k < |out| ensures c < out[k].seqNo { assert out[k] in events; }
  }

  /** Where the last exposed event of a stretch stands. */
  lemma LastShown(log: seq<Event>, k: nat, j: nat) returns (m: nat)
    requires Ascending(log) && k <= j <= |log| && Exposed(log[k..j]) != []
    ensures k < m <= j && Exposed(log[k..m]) == Exposed(log[k..j])
    ensures var out := Exposed(log[k..j]); log[m - 1].seqNo == out[|out| - 1].seqNo
  {
    var shown := LastExposed(log[k..j]);
    m := k + shown;
    assert shown <= j - k;
    assert log[k..j][..shown] == log[k..m];
  }

  /** The stretch from a cursor up to log[m - 1] in two parts. */
  lemma OwedInParts(log: seq<Event>, c: int, i: nat, k: nat, m: nat)
    requires Ascending(log) && Cut(log, i, c) && i <= k < m <= |log|
    ensures c < log[m - 1].seqNo <= MAX_SAFE
    ensures Exposed(Between(log, c, log[m - 1].seqNo)) == Exposed(log[i..k]) + Exposed(log[k..m])
  {
    CutIndex(log, i, c, m - 1);
    CutAt(log, m);
    BetweenCuts(log, c, i, log[m - 1].seqNo, m);
    assert log[i..m] == log[i..k] + log[k..m];
    ExposedConcat(log[i..k], log[k..m]);
  }

  /** What a page that is not refused carries. */
  ghost predicate Carries(log: seq<Event>, v: View, c: int, page: Page)
    requires ViewOk(log, v)
  {
    && 0 < c && Ascending(page.events) && Above(page.events, c)
    && (page.events != [] ==>
          && c < NextCursor(page) <= MAX_SAFE
          && Exposed(Between(log, c, NextCursor(page))) == Missed(log, v, c) + page.events)
  }

  /** An accepted page from its rows. */
  lemma PageOf(bounds: seq<Event>, rows: seq<Event>, c: int, limit: int)
    requires !NeedsReset(bounds, c) && Continuation(rows, c, PageLimit(limit)) >= 0
    requires Ascending(Exposed(Listed(rows, c, PageLimit(limit))))
    ensures var page, out := PageSpec(bounds, rows, c, limit), Exposed(Listed(rows, c, PageLimit(limit)));
            && 0 < c && page.events == out && page.latestSeq == Latest(bounds)
            && page.nextCursor == if Continuation(rows, c, PageLimit(limit)) > 0
                                  then Continuation(rows, c, PageLimit(limit))
                                  else if out != [] then out[|out| - 1].seqNo else c
  {
  }

  /** The stretch a page shows, and where it points: the rows after the cursor up to the limit, of which
      it shows the exposed ones; on to the last row if more follow, else to the last one shown. */
  lemma PageShows(log: seq<Event>, v: View, c: int, limit: int) returns (i: nat, k: nat, j: nat)
    requires Ascending(log) && ViewOk(log, v) && !Answer(log, v, c, limit).resetRequired
    ensures Cut(log, i, c) && i <= k <= j <= |log| && 0 < c && Missed(log, v, c) == Exposed(log[i..k])
    ensures k == Max(i, v.rowFloor) && j == Min(k + (if 1 <= limit <= 1000 then limit else 500), v.rowEnd)
    ensures var page := Answer(log, v, c, limit);
            && page.events == Exposed(log[k..j]) && page.latestSeq == Latest(Bounds(log, v))
            && (page.events != [] ==> k < j)
            && page.nextCursor == if j < v.rowEnd then log[j - 1].seqNo
                                  else if page.events != [] then page.events[|page.events| - 1].seqNo else c
  {
    i, k, j := ListedIsNext(log, v, c, PageLimit(limit));
    ShownAbove(log, i, k, j, c);
    PageOf(Bounds(log, v), Rows(log, v), c, limit);
  }

  /** A refusal tells the newest number and carries no event. */
  lemma RefusedPage(log: seq<Event>, v: View, c: int, limit: int)
    requires Ascending(log) && ViewOk(log, v) && Answer(log, v, c, limit).resetRequired
    ensures var page := Answer(log, v, c, limit);
            page.events == [] && page.nextCursor == page.latestSeq == Latest(Bounds(log, v))
  {
    SliceAscends(log, v.floor, v.end);
  }

  /** The page's events stand in a stretch above the cursor. */
  lemma ShownAbove(log: seq<Event>, i: nat, k: nat, j: nat, c: int)
    requires Ascending(log) && Cut(log, i, c) && i <= k <= j <= |log|
    ensures Ascending(Exposed(log[k..j])) && Above(Exposed(log[k..j]), c)
  {
    SliceAscends(log, k, j);
    ExposedAscends(log[k..j]);
    PartAbove(log, i, j, c);
    assert log[i..j][k - i..] == log[k..j];
    ExposedAbove(log[k..j], c);
  }

  /** The next cursor is the last shown event's number or the last listed one's. */
  lemma NextIs(log: seq<Event>, k: nat, j: nat, page: Page) returns (m: nat)
    requires Ascending(log) && k < j <= |log| && page.events == Exposed(log[k..j]) != []
    requires page.nextCursor == log[j - 1].seqNo || page.nextCursor == page.events[|page.events| - 1].seqNo
    ensures k < m <= j && NextCursor(page) == log[m - 1].seqNo && Exposed(log[k..m]) == page.events
  {
    m := LastShown(log, k, j);
    if page.nextCursor == log[j - 1].seqNo { m := j; }
  }

  /** A page with events moves the cursor strictly ahead; the exposed events on the way are those
      the page carries, after the ones pruned between its two reads. */
  lemma PageAdvances(log: seq<Event>, v: View, c: int, limit: int)
    requires Ascending(log) && ViewOk(log, v) && !Answer(log, v, c, limit).resetRequired
    ensures Carries(log, v, c, Answer(log, v, c, limit))
  {
    var page := Answer(log, v, c, limit);
    var i, k, j := PageShows(log, v, c, limit);
    ShownAbove(log, i, k, j, c);
    if page.events != [] {
      var m := NextIs(log, k, j, page);
      OwedInParts(log, c, i, k, m);
    }
  }

  /** A page with events shows every exposed event on its way exactly when no exposed event after
      the cursor was pruned between the bounds read and the rows read. */
  lemma PageIsWholeIff(log: seq<Event>, v: View, c: int, limit: int)
    requires Ascending(log) && ViewOk(log, v) && !Answer(log, v, c, limit).resetRequired
    requires Answer(log, v, c, limit).events != []
    ensures var page := Answer(log, v, c, limit);
            page.events == Exposed(Between(log, c, NextCursor(page))) <==> Missed(log, v, c) == []
  {
    PageAdvances(log, v, c, limit);
    var page := Answer(log, v, c, limit);
    if page.events == Missed(log, v, c) + page.events {
      assert |Missed(log, v, c) + page.events| == |Missed(log, v, c)| + |page.events|;
    }
  }

  /** A page that is accepted but empty hides what it lists; if the server is ahead, it lists
      nothing only when everything it had was pruned before the rows were read. */
  lemma EmptyPageHides(log: seq<Event>, v: View, c: int, limit: int)
    requires Ascending(log) && ViewOk(log, v) && !NeedsReset(Bounds(log, v), c) && Answer(log, v, c, limit).events == []
    ensures var listed := Listed(Rows(log, v), c, PageLimit(limit));
            && (forall e | e in listed :: !e.exposed)
            && (c < Latest(Bounds(log, v)) ==> (listed == [] <==> Rows(log, v) == []))
  {
    var i, k, j := ListedIsNext(log, v, c, PageLimit(limit));
    ExposedMembers(log[k..j]);
    if c < Latest(Bounds(log, v)) { CutIndex(log, i, c, v.end - 1); }
  }

  /** Exposed events 1, 2, 3 are stored when the bounds are read and 1, 2 pruned before the rows
      are: the page after cursor 1 is accepted, shows event 3 only, and moves the cursor past 2. */
  lemma PruneBetweenReadsSkips(log: seq<Event>, v: View)
    requires |log| == 3 && (forall i | 0 <= i < 3 :: log[i].seqNo == i + 1 && log[i].exposed)
    requires v == View(0, 3, 2, 3)
    ensures Ascending(log) && ViewOk(log, v) && Missed(log, v, 1) == [log[1]]
    ensures Answer(log, v, 1, 500) == Page([log[2]], 3, 3, false)
  {
    assert Bounds(log, v) == log && Rows(log, v) == [log[2]] && log[..v.rowFloor] == [log[0]] + [log[1]];
    LastMissed([log[0]], log[1]);
    ThirdAnswered(log, log[2]);
  }

  lemma LastMissed(before: seq<Event>, two: Event)
    requires AtMost(before, 1) && two.seqNo == 2 && two.exposed
    ensures Exposed(Between(before + [two], 1, MAX_SAFE)) == [two]
  {
    OneRow(two);
    BetweenTwoParts(before, [two], 1, MAX_SAFE);
  }

  lemma ThirdAnswered(bounds: seq<Event>, three: Event)
    requires |bounds| == 3 && bounds[0].seqNo == 1 && bounds[2] == three && three.seqNo == 3 && three.exposed
    ensures PageSpec(bounds, [three], 1, 500) == Page([three], 3, 3, false)
  {
    OneRow(three);
  }

  lemma OneRow(e: Event)
    requires e.exposed && 1 < e.seqNo <= MAX_SAFE
    ensures Between([e], 1, MAX_SAFE) == [e] && Exposed([e]) == [e]
  {
    assert [e][..0] == [];
  }

  // ---------------------------------------------------------------------------
  // The recovery loop
  // ---------------------------------------------------------------------------

  /** The exposed events numbered in (lo, hi]. */
  function Owed(log: seq<Event>, lo: int, hi: int): seq<Event> { Exposed(Between(log, lo, hi)) }

  lemma {:induction false} OwedNone(log: seq<Event>, c: int)
    ensures Between(log, c, c) == [] && Owed(log, c, c) == []
  {
    if log != [] { OwedNone(log[..|log| - 1], c); }
  }

  lemma OwedGrows(log: seq<Event>, lo: int, mid: int, hi: int)
    requires Ascending(log) && lo <= mid <= hi
    ensures Owed(log, lo, hi) == Owed(log, lo, mid) + Owed(log, mid, hi)
  {
    BetweenSplits(log, lo, mid, hi);
    ExposedConcat(Between(log, lo, mid), Between(log, mid, hi));
  }

  /** What the recovery hands on ascends and repeats nothing. */
  lemma OwedAscends(log: seq<Event>, lo: int, hi: int)
    requires Ascending(log)
    ensures Ascending(Owed(log, lo, hi))
  {
    BetweenAscends(log, lo, hi);
    ExposedAscends(Between(log, lo, hi));
  }

  lemma {:induction false} BetweenAscends(log: seq<Event>, lo: int, hi: int)
    requires Ascending(log)
    ensures Ascending(Between(log, lo, hi)) && forall e | e in Between(log, lo, hi) :: e in log && lo < e.seqNo <= hi
  {
    if log != [] {
      var n := |log| - 1;
      BetweenAscends(log[..n], lo, hi);
      forall e | e in Between(log[..n], lo, hi) ensures e.seqNo < log[n].seqNo {
        var k :| 0 <= k < n && log[..n][k] == e;
      }
      if lo < log[n].seqNo <= hi { AscendsSnoc(Between(log[..n], lo, hi), log[n]); }
    }
  }

  /** No exposed event was pruned between the two reads of any page that was applied; cursors[n]
      is the cursor page n was fetched with. */
  ghost predicate AllWhole(log: seq<Event>, views: nat -> View, cursors: seq<int>)
    requires forall n :: ViewOk(log, views(n))
  {
    forall n | 0 <= n < |cursors| :: Missed(log, views(n), cursors[n]) == []
  }

  ghost predicate AllAccepted(log: seq<Event>, views: nat -> View, cursors: seq<int>)
    requires forall n :: ViewOk(log, views(n))
  {
    forall n | 0 <= n < |cursors| :: !NeedsReset(Bounds(log, views(n)), cursors[n])
  }

  /** What was applied ascends, is owed, and is all that is owed exactly when every page was whole. */
  ghost predicate Delivers(log: seq<Event>, views: nat -> View, cursors: seq<int>, start: int, c: int,
                           applied: seq<Event>)
    requires forall n :: ViewOk(log, views(n))
  {
    && Ascending(applied) && (forall e | e in applied :: e in Owed(log, start, c))
    && (applied == Owed(log, start, c) <==> AllWhole(log, views, cursors))
  }

  /** ... and falls short of it in number otherwise. */
  ghost predicate Tallies(log: seq<Event>, views: nat -> View, cursors: seq<int>, start: int, c: int,
                          applied: seq<Event>)
    requires forall n :: ViewOk(log, views(n))
  {
    && Delivers(log, views, cursors, start, c, applied)
    && (!AllWhole(log, views, cursors) ==> |applied| < |Owed(log, start, c)|)
  }

  lemma AscendConcat(a: seq<Event>, b: seq<Event>, c: int)
    requires Ascending(a) && Ascending(b) && AtMost(a, c) && Above(b, c)
    ensures Ascending(a + b)
  {
  }

  lemma AppliedUpTo(log: seq<Event>, start: int, c: int, applied: seq<Event>)
    requires Ascending(log) && forall e | e in applied :: e in Owed(log, start, c)
    ensures AtMost(applied, c)
  {
    BetweenAscends(log, start, c);
    ExposedMembers(Between(log, start, c));
    forall k | 0 <= k < |applied| ensures applied[k].seqNo <= c { assert applied[k] in Owed(log, start, c); }
  }

  lemma WholeSnoc(log: seq<Event>, views: nat -> View, cursors: seq<int>, c: int)
    requires forall n :: ViewOk(log, views(n))
    ensures AllWhole(log, views, cursors + [c]) <==>
              AllWhole(log, views, cursors) && Missed(log, views(|cursors|), c) == []
  {
    var all := cursors + [c];
    if AllWhole(log, views, all) {
      forall n | 0 <= n < |cursors| ensures Missed(log, views(n), cursors[n]) == [] { assert all[n] == cursors[n]; }
      assert all[|cursors|] == c;
    }
  }

  /** One more page, in numbers: what is owed grows by what the page missed and what it carries. */
  lemma OneMorePage(applied: seq<Event>, owed: seq<Event>, missed: seq<Event>, events: seq<Event>)
    requires applied == owed || |applied| < |owed|
    ensures applied + events == owed + (missed + events) <==> applied == owed && missed == []
    ensures !(applied == owed && missed == []) ==> |applied + events| < |owed + (missed + events)|
  {
    if applied == owed && missed == [] { assert missed + events == events; }
  }

  /** Applying a page keeps the tally. */
  lemma PageTallies(log: seq<Event>, views: nat -> View, cursors: seq<int>, start: int, c: int, applied: seq<Event>,
                    page: Page)
    requires Ascending(log) && (forall n :: ViewOk(log, views(n))) && start <= c
    requires Tallies(log, views, cursors, start, c, applied)
    requires Carries(log, views(|cursors|), c, page) && page.events != []
    ensures Tallies(log, views, cursors + [c], start, NextCursor(page), applied + page.events)
  {
    var next, v := NextCursor(page), views(|cursors|);
    var owed, missed := Owed(log, start, c), Missed(log, v, c);
    OwedGrows(log, start, c, next);
    assert Owed(log, start, next) == owed + (missed + page.events);
    AppliedUpTo(log, start, c, applied);
    AscendConcat(applied, page.events, c);
    WholeSnoc(log, views, cursors, c);
    OneMorePage(applied, owed, missed, page.events);
  }

  /** Without pruning between the two reads of a page, all that is owed is applied. */
  lemma UnprunedDelivers(log: seq<Event>, views: nat -> View, cursors: seq<int>, start: int, c: int,
                         applied: seq<Event>)
    requires Ascending(log) && (forall n :: ViewOk(log, views(n))) && AllAccepted(log, views, cursors)
    requires Delivers(log, views, cursors, start, c, applied)
    requires forall n | 0 <= n < |cursors| :: views(n).rowFloor == views(n).floor
    ensures applied == Owed(log, start, c)
  {
    forall n | 0 <= n < |cursors| ensures Missed(log, views(n), cursors[n]) == [] {
      UnprunedMissesNothing(log, views(n), cursors[n]);
    }
  }

  // ---------------------------------------------------------------------------
  // The loop, whatever the server answers
  // ---------------------------------------------------------------------------

  /** Page n was fetched with cursors[n]; the pages' events, in order, are what was applied, and
      they took the cursor from start to c. */
  ghost predicate Took(fetch: (nat, int) -> Page, cursors: seq<int>, start: int, c: int, applied: seq<Event>)
    decreases |cursors|
  {
    if cursors == [] then c == start && applied == []
    else
      var n := |cursors| - 1;
      var page := fetch(n, cursors[n]);
      var events := Fresh(page, cursors[n]);
      var k := |applied| - |events|;
      && !page.resetRequired && events != [] && c == CursorAfter(events, page)
      && 0 <= k && applied == applied[..k] + events
      && Took(fetch, cursors[..n], start, cursors[n], applied[..k])
  }

  lemma TookOne(fetch: (nat, int) -> Page, cursors: seq<int>, start: int, c: int, applied: seq<Event>,
                events: seq<Event>)
    requires Took(fetch, cursors, start, c, applied)
    requires !fetch(|cursors|, c).resetRequired && events == Fresh(fetch(|cursors|, c), c) && events != []
    ensures Took(fetch, cursors + [c], start, CursorAfter(events, fetch(|cursors|, c)), applied + events)
  {
    assert (cursors + [c])[..|cursors|] == cursors;
    assert (applied + events)[..|applied|] == applied;
  }

  /** latest is the highest number known after the first n answers: from the start, from the target,
      or from an answer. */
  ghost predicate Known(fetch: (nat, int) -> Page, asked: seq<int>, n: nat, start: int, targetSeq: Option<int>,
                        latest: int)
    requires n <= |asked|
  {
    && start <= latest && (targetSeq.Some? ==> FiniteSequence(targetSeq.value) <= latest)
    && (forall i: nat | i < n :: Told(fetch, asked, i) <= latest)
    && (latest == start || (targetSeq.Some? && latest == FiniteSequence(targetSeq.value))
        || exists i: nat :: i < n && latest == Told(fetch, asked, i))
  }

  /** The latest number that answer i tells. */
  function Told(fetch: (nat, int) -> Page, asked: seq<int>, i: nat): int
    requires i < |asked|
  {
    FiniteSequence(fetch(i, asked[i]).latestSeq)
  }

  /** The cursors of all requests made. */
  function Asked(cursors: seq<int>, r: Recovery): seq<int> {
    if |cursors| == r.pages then cursors else cursors + [r.cursor]
  }

  /** How the loop ended. Without an answer after the pages applied: the cursor has reached what is
      known, or the caller gave up. With one: it refuses the cursor, or brings nothing new. */
  ghost predicate Concluded(fetch: (nat, int) -> Page, active: nat -> bool, cursors: seq<int>, start: int,
                            targetSeq: Option<int>, r: Recovery)
  {
    if r.pages == |cursors| then
      && Known(fetch, cursors, r.pages, start, targetSeq, r.latestSeq)
      && if r.latestSeq <= r.cursor && (r.pages > 0 || targetSeq.Some?)
         then r.status == (if r.cursor == 0 then Empty else CaughtUp)
         else r.status == Cancelled && !active(r.pages)
    else
      && r.pages == |cursors| + 1
      && var answer := fetch(|cursors|, r.cursor);
         if answer.resetRequired then
           && r.latestSeq == FiniteSequence(answer.latestSeq)
           && r.status == if r.cursor == 0 && r.latestSeq == 0 then Empty else ResetRequired
         else
           && Fresh(answer, r.cursor) == []
           && Known(fetch, cursors + [r.cursor], r.pages, start, targetSeq, r.latestSeq)
           && r.status == (if r.cursor < r.latestSeq then UnrecoverableGap
                           else if r.cursor == 0 then Empty else CaughtUp)
  }

  /** Every request was made while the caller wanted it, and behind what was known by then. */
  ghost predicate WentOn(fetch: (nat, int) -> Page, active: nat -> bool, asked: seq<int>, start: int,
                         targetSeq: Option<int>)
  {
    && (forall n: nat | n < |asked| :: active(n))
    && (forall n: nat, latest | n < |asked| && Known(fetch, asked, n, start, targetSeq, latest) ::
          n > 0 || targetSeq.Some? ==> asked[n] < latest)
  }

  lemma KnownIsOne(fetch: (nat, int) -> Page, asked: seq<int>, n: nat, start: int, targetSeq: Option<int>,
                   a: int, b: int)
    requires n <= |asked| && Known(fetch, asked, n, start, targetSeq, a) && Known(fetch, asked, n, start, targetSeq, b)
    ensures a == b
  {
  }

  lemma KnownOfPart(fetch: (nat, int) -> Page, asked: seq<int>, c: int, n: nat, start: int, targetSeq: Option<int>,
                    latest: int)
    requires n <= |asked|
    ensures Known(fetch, asked + [c], n, start, targetSeq, latest) <==> Known(fetch, asked, n, start, targetSeq, latest)
  {
    forall i: nat | i < n ensures Told(fetch, asked + [c], i) == Told(fetch, asked, i) {
      assert (asked + [c])[i] == asked[i];
    }
  }

  lemma KnownGrows(fetch: (nat, int) -> Page, asked: seq<int>, c: int, start: int, targetSeq: Option<int>, latest: int)
    requires Known(fetch, asked, |asked|, start, targetSeq, latest)
    ensures Known(fetch, asked + [c], |asked| + 1, start, targetSeq,
                  Max(latest, FiniteSequence(fetch(|asked|, c).latestSeq)))
  {
    KnownOfPart(fetch, asked, c, |asked|, start, targetSeq, latest);
    assert Told(fetch, asked + [c], |asked|) == FiniteSequence(fetch(|asked|, c).latestSeq);
  }

  /** One more request. */
  lemma WentOnOne(fetch: (nat, int) -> Page, active: nat -> bool, asked: seq<int>, c: int, start: int,
                  targetSeq: Option<int>, latest: int)
    requires WentOn(fetch, active, asked, start, targetSeq) && active(|asked|)
    requires Known(fetch, asked, |asked|, start, targetSeq, latest)
    requires asked != [] || targetSeq.Some? ==> c < latest
    ensures WentOn(fetch, active, asked + [c], start, targetSeq)
  {
    forall n: nat, m | n <= |asked| && Known(fetch, asked + [c], n, start, targetSeq, m) && (n > 0 || targetSeq.Some?)
      ensures (asked + [c])[n] < m
    {
      KnownOfPart(fetch, asked, c, n, start, targetSeq, m);
      if n == |asked| { KnownIsOne(fetch, asked, n, start, targetSeq, m, latest); }
    }
  }

  /** Empty is reported exactly when nothing is known anywhere: the cursor is 0, and either no request
      was made and the target is not positive, or the one answer tells of no event and refuses the
      cursor or finds no positive target. */
  lemma EmptyIff(fetch: (nat, int) -> Page, active: nat -> bool, cursors: seq<int>, start: int, targetSeq: Option<int>,
                 applied: seq<Event>, r: Recovery)
    requires Concluded(fetch, active, cursors, start, targetSeq, r) && 0 <= start <= MAX_SAFE
    requires Took(fetch, cursors, start, r.cursor, applied)
    ensures var noTarget := targetSeq.None? || FiniteSequence(targetSeq.value) == 0;
            r.status.Empty? <==>
              && r.cursor == 0
              && if r.pages == 0 then targetSeq.Some? && noTarget
                 else FiniteSequence(fetch(0, 0).latestSeq) == 0 && (fetch(0, 0).resetRequired || noTarget)
                      && cursors == [] && (fetch(0, 0).resetRequired || Fresh(fetch(0, 0), 0) == [])
  {
    TookIsOrdered(fetch, cursors, start, r.cursor, applied);
    if cursors != [] {
      assert applied != [];
    } else if r.pages == 1 {
      assert Told(fetch, cursors + [r.cursor], 0) == FiniteSequence(fetch(0, r.cursor).latestSeq);
    }
  }

  lemma {:induction false} NewerMembers(events: seq<Event>, cursor: int)
    requires cursor >= 0
    ensures forall e | e in NewerThan(events, cursor) :: cursor < e.seqNo <= MAX_SAFE
  {
    if events != [] { NewerMembers(events[..|events| - 1], cursor); }
  }

  lemma {:induction false} NewerCounts(events: seq<Event>, cursor: int, e: Event)
    requires cursor >= 0
    ensures multiset(NewerThan(events, cursor))[e] == if cursor < e.seqNo <= MAX_SAFE then multiset(events)[e] else 0
  {
    if events != [] {
      var init, last := events[..|events| - 1], events[|events| - 1];
      NewerCounts(init, cursor, e);
      assert events == init + [last];
    }
  }

  /** What is taken of a page: its events above the cursor, each as often as it is listed, by number. */
  lemma FreshIsNewer(page: Page, c: int)
    requires c >= 0
    ensures var events := Fresh(page, c);
            && (forall i, j | 0 <= i < j < |events| :: events[i].seqNo <= events[j].seqNo)
            && forall e :: multiset(events)[e] == if c < e.seqNo <= MAX_SAFE then multiset(page.events)[e] else 0
  {
    var newer, events := NewerThan(page.events, c), Fresh(page, c);
    SortPermutes(BySeq(), newer);
    SortIsOrdered(BySeq(), newer);
    forall i, j | 0 <= i < j < |events| ensures events[i].seqNo <= events[j].seqNo {
      assert !BySeq()(events[j], events[i]);
    }
    forall e ensures multiset(events)[e] == if c < e.seqNo <= MAX_SAFE then multiset(page.events)[e] else 0 {
      NewerCounts(page.events, c, e);
    }
  }

  /** The events taken lead to the last of them, or as far as the page points. */
  lemma LeadsFurther(page: Page, c: int)
    requires c >= 0 && Fresh(page, c) != []
    ensures var next, last := CursorAfter(Fresh(page, c), page), Fresh(page, c)[|Fresh(page, c)| - 1].seqNo;
            next == if 0 < page.nextCursor <= MAX_SAFE && page.nextCursor > last then page.nextCursor else last
  {
    FreshAdvances(page, c);
  }

  /** The events of a page are in order and above the cursor, and take it ahead. */
  lemma FreshAdvances(page: Page, c: int)
    requires c >= 0
    ensures var events := Fresh(page, c);
            && Above(events, c) && AtMost(events, MAX_SAFE) && Ordered(BySeq(), events)
            && (events != [] ==>
                  c < CursorAfter(events, page) <= MAX_SAFE && AtMost(events, CursorAfter(events, page)))
  {
    var newer, events := NewerThan(page.events, c), Fresh(page, c);
    NewerMembers(page.events, c);
    SortIsOrdered(BySeq(), newer);
    forall k | 0 <= k < |events| ensures c < events[k].seqNo <= MAX_SAFE {
      SortMembers(BySeq(), newer, events[k]);
    }
    if events != [] {
      forall k | 0 <= k < |events| ensures events[k].seqNo <= events[|events| - 1].seqNo {
        if k < |events| - 1 { assert !BySeq()(events[|events| - 1], events[k]); }
      }
    }
  }

  /** Whatever the server answers, what is applied comes in number order, above the start and up
      to the cursor. */
  lemma {:induction false} TookIsOrdered(fetch: (nat, int) -> Page, cursors: seq<int>, start: int, c: int,
                                         applied: seq<Event>)
    requires Took(fetch, cursors, start, c, applied) && 0 <= start <= MAX_SAFE
    ensures start <= c <= MAX_SAFE && Ordered(BySeq(), applied) && Above(applied, start) && AtMost(applied, c)
    ensures applied != [] ==> start < c
    decreases |cursors|
  {
    if cursors != [] {
      var n := |cursors| - 1;
      var page := fetch(n, cursors[n]);
      var events := Fresh(page, cursors[n]);
      var before := applied[..|applied| - |events|];
      TookIsOrdered(fetch, cursors[..n], start, cursors[n], before);
      FreshAdvances(page, cursors[n]);
      OrderedConcat(before, events, cursors[n]);
    }
  }

  lemma OrderedConcat(a: seq<Event>, b: seq<Event>, c: int)
    requires Ordered(BySeq(), a) && Ordered(BySeq(), b) && AtMost(a, c) && Above(b, c)
    ensures Ordered(BySeq(), a + b)
  {
  }

  /** One round of the loop: request, page, cursor; a status ends the loop. */
  method NextRound(fetch: (nat, int) -> Page, ghost active: nat -> bool, ghost targetSeq: Option<int>, pages: nat,
                   cursor: int, latestBefore: int, before: seq<int>, ghost start: int, applied: seq<Event>)
    returns (status: Option<Status>, next: int, latestSeq: int, after: seq<Event>, cursors: seq<int>)
    requires |before| == pages && Took(fetch, before, start, cursor, applied) && 0 <= cursor <= MAX_SAFE
    requires Known(fetch, before, pages, start, targetSeq, latestBefore)
    ensures Took(fetch, cursors, start, next, after)
    ensures status.Some? ==>
              var r := Recovery(status.value, next, latestSeq, pages + 1);
              Concluded(fetch, active, cursors, start, targetSeq, r) && Asked(cursors, r) == before + [cursor]
    ensures status.None? ==>
              && cursors == before + [cursor] && cursor < next <= MAX_SAFE && next < latestSeq
              && Known(fetch, cursors, pages + 1, start, targetSeq, latestSeq)
  {
    next, after, cursors := cursor, applied, before;
    var response := fetch(pages, cursor);
    var responseLatestSeq := FiniteSequence(response.latestSeq);
    if response.resetRequired {
      return Some(if responseLatestSeq == 0 && cursor == 0 then Empty else ResetRequired),
             cursor, responseLatestSeq, applied, before;
    }
    latestSeq := Max(latestBefore, responseLatestSeq);
    KnownGrows(fetch, before, cursor, start, targetSeq, latestBefore);
    var events := SortBy(BySeq(), NewerThan(response.events, cursor));
    if |events| == 0 {
      status := Some(if cursor < latestSeq then UnrecoverableGap else if cursor == 0 then Empty else CaughtUp);
      return;
    }
    FreshAdvances(response, cursor);
    TookOne(fetch, before, start, cursor, applied, events);
    cursors := before + [cursor];
    after := applied + events;
    // always ahead of the cursor, so the guard against one that stands still is idle
    next := Max(FiniteSequence(events[|events| - 1].seqNo), FiniteSequence(response.nextCursor));
    status := if next >= latestSeq then Some(CaughtUp) else None;
  }

  /** recoverPublicEventPages: fetch(n, c) is the answer to request n after cursor c, and active(n)
      tells whether the caller still wants the loop to go on before it. `applied` collects what
      applyPage is given, `cursors` what the applied pages were fetched with. It ends whatever the
      server answers. */
  method RecoverPublicEventPages(afterSeq: int, targetSeq: Option<int>, fetch: (nat, int) -> Page, active: nat -> bool)
    returns (r: Recovery, applied: seq<Event>, cursors: seq<int>)
    requires afterSeq <= MAX_SAFE
    ensures Took(fetch, cursors, Max(0, afterSeq), r.cursor, applied)
    ensures Concluded(fetch, active, cursors, Max(0, afterSeq), targetSeq, r)
    ensures WentOn(fetch, active, Asked(cursors, r), Max(0, afterSeq), targetSeq)
  {
    var cursor := Max(0, afterSeq);
    var latestSeq := Max(cursor, if targetSeq.Some? then FiniteSequence(targetSeq.value) else 0);
    var pages: nat := 0;
    applied, cursors := [], [];
    ghost var start := cursor;
    if targetSeq.Some? && latestSeq <= cursor {
      return Recovery(if cursor == 0 then Empty else CaughtUp, cursor, latestSeq, pages), applied, cursors;
    }
    while active(pages)
      invariant |cursors| == pages && Took(fetch, cursors, start, cursor, applied) && 0 <= cursor <= MAX_SAFE
      invariant Known(fetch, cursors, pages, start, targetSeq, latestSeq)
      invariant pages > 0 || targetSeq.Some? ==> cursor < latestSeq
      invariant WentOn(fetch, active, cursors, start, targetSeq)
      decreases MAX_SAFE - cursor
    {
      WentOnOne(fetch, active, cursors, cursor, start, targetSeq, latestSeq);
      var status;
      status, cursor, latestSeq, applied, cursors :=
        NextRound(fetch, active, targetSeq, pages, cursor, latestSeq, cursors, start, applied);
      pages := pages + 1;
      if status.Some? { return Recovery(status.value, cursor, latestSeq, pages), applied, cursors; }
    }
    return Recovery(Cancelled, cursor, latestSeq, pages), applied, cursors;
  }

  // ---------------------------------------------------------------------------
  // The loop against the server's log
  // ---------------------------------------------------------------------------

  /** `log` is everything the server ever stores; at request n it holds the part views(n) says. */
  ghost predicate Serves(fetch: (nat, int) -> Page, log: seq<Event>, views: nat -> View, limit: int) {
    && Ascending(log) && (forall n :: ViewOk(log, views(n)))
    && forall n: nat, c: int :: fetch(n, c) == Answer(log, views(n), c, limit)
  }

  lemma ServedPage(log: seq<Event>, v: View, c: int, limit: int)
    requires Ascending(log) && ViewOk(log, v) && !Answer(log, v, c, limit).resetRequired
    ensures Fresh(Answer(log, v, c, limit), c) == Answer(log, v, c, limit).events
  {
    PageAdvances(log, v, c, limit);
    var page := Answer(log, v, c, limit);
    UpToMax(page.events);
    NewerThanAll(page.events, c);
    SortAscending(page.events);
  }

  lemma NothingTaken(log: seq<Event>, views: nat -> View, start: int)
    requires forall n :: ViewOk(log, views(n))
    ensures Tallies(log, views, [], start, start, [])
  {
    OwedNone(log, start);
  }

  lemma OnePageTallies(log: seq<Event>, views: nat -> View, limit: int, cursors: seq<int>, start: int, c: int,
                       applied: seq<Event>)
    requires Ascending(log) && (forall n :: ViewOk(log, views(n))) && start <= c
    requires Tallies(log, views, cursors, start, c, applied) && AllAccepted(log, views, cursors)
    requires var page := Answer(log, views(|cursors|), c, limit); !page.resetRequired && page.events != []
    ensures var page := Answer(log, views(|cursors|), c, limit);
            && Fresh(page, c) == page.events
            && Tallies(log, views, cursors + [c], start, NextCursor(page), applied + page.events)
            && AllAccepted(log, views, cursors + [c])
  {
    var v := views(|cursors|);
    ServedPage(log, v, c, limit);
    PageAdvances(log, v, c, limit);
    PageTallies(log, views, cursors, start, c, applied, Answer(log, v, c, limit));
    AcceptedSnoc(log, views, cursors, c);
  }

  /** The last page taken, and what was applied before it. */
  lemma TookLast(fetch: (nat, int) -> Page, cursors: seq<int>, start: int, c: int, applied: seq<Event>)
    returns (init: seq<int>, from: int, before: seq<Event>, page: Page)
    requires Took(fetch, cursors, start, c, applied) && cursors != []
    ensures cursors == init + [from] && page == fetch(|init|, from) && !page.resetRequired && Fresh(page, from) != []
    ensures applied == before + Fresh(page, from) && c == CursorAfter(Fresh(page, from), page)
    ensures Took(fetch, init, start, from, before)
  {
    var n := |cursors| - 1;
    init, from, page := cursors[..n], cursors[n], fetch(n, cursors[n]);
    before := applied[..|applied| - |Fresh(page, from)|];
  }

  lemma {:induction false} TookTallies(fetch: (nat, int) -> Page, log: seq<Event>, views: nat -> View, limit: int,
                                       cursors: seq<int>, start: int, c: int, applied: seq<Event>)
    requires Serves(fetch, log, views, limit) && Took(fetch, cursors, start, c, applied) && 0 <= start <= MAX_SAFE
    ensures Tallies(log, views, cursors, start, c, applied) && AllAccepted(log, views, cursors)
    decreases |cursors|
  {
    if cursors == [] {
      NothingTaken(log, views, start);
    } else {
      var init, from, before, page := TookLast(fetch, cursors, start, c, applied);
      TookTallies(fetch, log, views, limit, init, start, from, before);
      TookIsOrdered(fetch, init, start, from, before);
      ServedPage(log, views(|init|), from, limit);
      OnePageTallies(log, views, limit, init, start, from, before);
    }
  }

  lemma AcceptedSnoc(log: seq<Event>, views: nat -> View, cursors: seq<int>, c: int)
    requires (forall n :: ViewOk(log, views(n))) && AllAccepted(log, views, cursors)
    requires !NeedsReset(Bounds(log, views(|cursors|)), c)
    ensures AllAccepted(log, views, cursors + [c])
  {
  }

  /** Against a log that grows and is pruned from the front, between pages and within them, what is
      applied are owed events in order, none twice; they are all of them exactly when no page had
      an exposed event pruned between its two reads. */
  lemma RecoveryDelivers(fetch: (nat, int) -> Page, log: seq<Event>, views: nat -> View, limit: int,
                         cursors: seq<int>, start: int, c: int, applied: seq<Event>)
    requires Serves(fetch, log, views, limit) && Took(fetch, cursors, start, c, applied) && 0 <= start <= MAX_SAFE
    ensures start <= c && Delivers(log, views, cursors, start, c, applied)
    ensures (forall n | 0 <= n < |cursors| :: views(n).rowFloor == views(n).floor) ==> applied == Owed(log, start, c)
  {
    TookIsOrdered(fetch, cursors, start, c, applied);
    TookTallies(fetch, log, views, limit, cursors, start, c, applied);
    if forall n | 0 <= n < |cursors| :: views(n).rowFloor == views(n).floor {
      UnprunedDelivers(log, views, cursors, start, c, applied);
    }
  }

  /** What each outcome says about the server: caught up means that its last answer knew of nothing
      beyond the cursor; empty, that it held nothing when it read its bounds; a reset is reported
      only when it refuses the cursor; a gap only when it is ahead, accepts the cursor, and all it
      lists after it is hidden. */
  lemma RecoveryIsJustified(fetch: (nat, int) -> Page, active: nat -> bool, log: seq<Event>, views: nat -> View,
                            limit: int, cursors: seq<int>, start: int, targetSeq: Option<int>, applied: seq<Event>,
                            r: Recovery)
    requires Serves(fetch, log, views, limit) && Concluded(fetch, active, cursors, start, targetSeq, r)
    requires Took(fetch, cursors, start, r.cursor, applied) && 0 <= start <= MAX_SAFE
    ensures r.status.CaughtUp? && r.pages > 0 ==> Latest(Bounds(log, views(r.pages - 1))) <= r.cursor
    ensures r.status.Empty? && r.pages > 0 ==> r.pages == 1 && r.cursor == 0 && Bounds(log, views(0)) == []
    ensures r.status.ResetRequired? ==>
              && r.pages > 0 && NeedsReset(Bounds(log, views(r.pages - 1)), r.cursor)
              && r.latestSeq == Latest(Bounds(log, views(r.pages - 1))) && (r.cursor == 0 ==> r.latestSeq > 0)
    ensures r.status.UnrecoverableGap? ==>
              && r.pages > 0 && !NeedsReset(Bounds(log, views(r.pages - 1)), r.cursor) && r.cursor < r.latestSeq
              && forall e | e in Listed(Rows(log, views(r.pages - 1)), r.cursor, PageLimit(limit)) :: !e.exposed
  {
    if r.pages > 0 {
      var n := r.pages - 1;
      LatestIsSafe(log, views(n));
      TookIsOrdered(fetch, cursors, start, r.cursor, applied);
      if r.status.CaughtUp? {
        var asked := Asked(cursors, r);
        assert Told(fetch, asked, n) <= r.latestSeq;
        assert fetch(n, asked[n]) == Answer(log, views(n), asked[n], limit);
      } else if r.status.UnrecoverableGap? {
        ServedPage(log, views(n), r.cursor, limit);
        EmptyPageHides(log, views(n), r.cursor, limit);
      }
    }
  }

  lemma LatestIsSafe(log: seq<Event>, v: View)
    requires Ascending(log) && ViewOk(log, v)
    ensures FiniteSequence(Latest(Bounds(log, v))) == Latest(Bounds(log, v))
  {
  }
}
