/** Stable comparison sorting, as the standard libraries of the client and the server
    provide it. `before(x, y)` stands for "the comparator puts x strictly ahead of y". */
module Sorting {

  function InsertBy<T>(before: (T, T) -> bool, s: seq<T>, x: T): (r: seq<T>)
    ensures |r| == |s| + 1
  {
    if s == [] then [x] else if before(x, s[0]) then [x] + s else [s[0]] + InsertBy(before, s[1..], x)
  }

  function SortBy<T>(before: (T, T) -> bool, s: seq<T>): (r: seq<T>)
    ensures |r| == |s|
  {
    if s == [] then [] else InsertBy(before, SortBy(before, s[..|s| - 1]), s[|s| - 1])
  }

  lemma {:induction false} InsertPermutes<T>(before: (T, T) -> bool, s: seq<T>, x: T)
    ensures multiset(InsertBy(before, s, x)) == multiset(s) + multiset{x}
  {
    if s != [] && !before(x, s[0]) {
      assert s == [s[0]] + s[1..];
      InsertPermutes(before, s[1..], x);
    }
  }

  /** Sorting neither drops nor adds an element. */
  lemma {:induction false} SortPermutes<T>(before: (T, T) -> bool, s: seq<T>)
    ensures multiset(SortBy(before, s)) == multiset(s)
  {
    if s != [] {
      assert s == s[..|s| - 1] + [s[|s| - 1]];
      SortPermutes(before, s[..|s| - 1]);
      InsertPermutes(before, SortBy(before, s[..|s| - 1]), s[|s| - 1]);
    }
  }

  ghost predicate StrictWeakOrder<T(!new)>(before: (T, T) -> bool) {
    && (forall x, y :: before(x, y) ==> !before(y, x))
    && (forall x, y, z :: before(x, y) && !before(z, y) ==> before(x, z))
  }

  ghost predicate Ordered<T>(before: (T, T) -> bool, s: seq<T>) {
    forall i, j :: 0 <= i < j < |s| ==> !before(s[j], s[i])
  }

  lemma {:induction false} InsertKeepsOrder<T(!new)>(before: (T, T) -> bool, s: seq<T>, x: T)
    requires StrictWeakOrder(before) && Ordered(before, s)
    ensures Ordered(before, InsertBy(before, s, x))
  {
    if s == [] {
    } else if before(x, s[0]) {
      assert forall j :: 0 <= j < |s| ==> !before(s[j], x);
    } else {
      InsertKeepsOrder(before, s[1..], x);
      InsertPermutes(before, s[1..], x);
      var tail := InsertBy(before, s[1..], x);
      forall y | y in tail ensures !before(y, s[0]) {
        assert y in multiset(tail);
        assert y == x || y in s[1..];
      }
    }
  }

  /** A sort with a consistent comparator returns its input's elements in order. */
  lemma {:induction false} SortIsOrdered<T(!new)>(before: (T, T) -> bool, s: seq<T>)
    requires StrictWeakOrder(before)
    ensures Ordered(before, SortBy(before, s))
  {
    if s != [] {
      SortIsOrdered(before, s[..|s| - 1]);
      InsertKeepsOrder(before, SortBy(before, s[..|s| - 1]), s[|s| - 1]);
    }
  }

  lemma SortMembers<T>(before: (T, T) -> bool, s: seq<T>, x: T)
    ensures x in SortBy(before, s) <==> x in s
  {
    SortPermutes(before, s);
    assert x in SortBy(before, s) <==> x in multiset(SortBy(before, s));
    assert x in s <==> x in multiset(s);
  }

}
