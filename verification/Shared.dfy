/** Small things the models share. */
module Shared {

  /** The largest integer a client number holds exactly. */
  const MAX_SAFE: int := 9007199254740991

  datatype Option<+T> = None | Some(value: T)

  function Max(a: int, b: int): int { if a > b then a else b }

  function Min(a: int, b: int): int { if a < b then a else b }

  // ---------------------------------------------------------------------------
  // Permutations
  // ---------------------------------------------------------------------------

  lemma TakeOut<T>(s: seq<T>, k: nat)
    requires k < |s|
    ensures s == s[..k] + [s[k]] + s[k + 1..]
    ensures multiset(s[..k] + s[k + 1..]) == multiset(s) - multiset{s[k]}
  {
    assert s == s[..k] + [s[k]] + s[k + 1..];
  }

  /** Where a permutation of init + [last] holds the last element. */
  lemma FindIn<T>(init: seq<T>, last: T, t: seq<T>) returns (a: seq<T>, b: seq<T>)
    requires multiset(init + [last]) == multiset(t)
    ensures t == a + [last] + b && multiset(init) == multiset(a + b)
  {
    assert last in multiset(t);
    var k :| 0 <= k < |t| && t[k] == last;
    TakeOut(t, k);
    a, b := t[..k], t[k + 1..];
    assert multiset(init + [last]) - multiset{last} == multiset(init);
  }

  lemma PermutationMembers<T>(s: seq<T>, t: seq<T>, x: T)
    requires multiset(s) == multiset(t)
    ensures x in s <==> x in t
  {
    assert x in s <==> x in multiset(s);
    assert x in t <==> x in multiset(t);
  }

  lemma PrefixSlice<T>(s: seq<T>, t: seq<T>, i: nat, j: nat)
    requires |s| <= |t| && s == t[..|s|] && i <= j <= |s|
    ensures t[i..j] == s[i..j]
  {
    assert t[..|s|][i..j] == t[i..j];
  }

  // ---------------------------------------------------------------------------
  // Filtering
  // ---------------------------------------------------------------------------

  /** kept are the items for which p holds, in their order. */
  ghost predicate Selects<T>(kept: seq<T>, items: seq<T>, p: T -> bool)
    decreases |items|
  {
    if items == [] then kept == []
    else if p(items[0]) then kept != [] && kept[0] == items[0] && Selects(kept[1..], items[1..], p)
    else Selects(kept, items[1..], p)
  }

  lemma {:induction false} SelectsOne<T>(kept: seq<T>, items: seq<T>, p: T -> bool, x: T, all: seq<T>, next: seq<T>)
    requires Selects(kept, items, p) && all == items + [x] && next == if p(x) then kept + [x] else kept
    ensures Selects(next, all, p)
    decreases |items|
  {
    if items == [] {
      assert all == [x] && all[1..] == [];
    } else if p(items[0]) {
      SelectsOne(kept[1..], items[1..], p, x, all[1..], next[1..]);
    } else {
      SelectsOne(kept, items[1..], p, x, all[1..], next);
    }
  }

  // ---------------------------------------------------------------------------
  // Distinct elements and sizes
  // ---------------------------------------------------------------------------

  ghost predicate Distinct<T>(s: seq<T>) {
    forall i, j | 0 <= i < j < |s| :: s[i] != s[j]
  }

  lemma DistinctSnoc<T>(s: seq<T>, x: T)
    ensures Distinct(s + [x]) <==> Distinct(s) && x !in s
  {
    var e := s + [x];
    assert forall i | 0 <= i < |s| :: e[i] == s[i];
    if Distinct(e) { assert e[|s|] == x; }
  }

  lemma DistinctPermutation<T>(s: seq<T>, t: seq<T>)
    requires Distinct(s) && multiset(s) == multiset(t)
    ensures Distinct(t)
  {
    forall i, j | 0 <= i < j < |t| ensures t[i] != t[j] {
      if t[i] == t[j] {
        assert t == t[..i] + [t[i]] + t[i + 1..j] + [t[j]] + t[j + 1..];
        assert multiset(t)[t[i]] >= 2;
        OnceEach(s, t[i]);
      }
    }
  }

  lemma {:induction false} OnceEach<T>(s: seq<T>, x: T)
    requires Distinct(s)
    ensures multiset(s)[x] <= 1
  {
    if s != [] {
      var n := |s| - 1;
      assert s == s[..n] + [s[n]];
      OnceEach(s[..n], x);
      assert s[n] !in multiset(s[..n]);
    }
  }

  lemma {:induction false} SubsetFits<T>(small: set<T>, big: set<T>)
    requires small <= big
    ensures |small| <= |big|
  {
    if small != {} {
      var x :| x in small;
      SubsetFits(small - {x}, big - {x});
    }
  }

  /** A sequence without repeats is no longer than a set that holds it. */
  lemma {:induction false} DistinctFits<T>(s: seq<T>, universe: set<T>)
    requires Distinct(s) && forall x | x in s :: x in universe
    ensures |s| <= |universe|
  {
    if s != [] {
      var init, last := s[..|s| - 1], s[|s| - 1];
      assert s == init + [last];
      DistinctSnoc(init, last);
      DistinctFits(init, universe - {last});
    }
  }
}
