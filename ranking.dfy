/** The descending orderings the listing pages produce with
    `[...xs].sort((a, b) => key(b) - key(a))`: a stable sort by a rank that
    compares a primary and then a secondary number. */
module Ranking {

  datatype Rank = Rank(primary: int, secondary: int)

  /** `a` may come before `b` in a descending order. */
  predicate AtLeast(a: Rank, b: Rank) {
    a.primary > b.primary || (a.primary == b.primary && a.secondary >= b.secondary)
  }

  predicate SortedDesc<T>(s: seq<T>, key: T -> Rank) {
    forall i, j :: 0 <= i < j < |s| ==> AtLeast(key(s[i]), key(s[j]))
  }

  /** Places `x` before the first element it ranks at least as high as, so
      that it precedes the equal-ranked elements that followed it in the
      input (the sort is stable). */
  function Insert<T>(x: T, s: seq<T>, key: T -> Rank): (r: seq<T>)
    requires SortedDesc(s, key)
    ensures SortedDesc(r, key)
    ensures multiset(r) == multiset(s) + multiset{x}
  {
    if s == [] || AtLeast(key(x), key(s[0])) then [x] + s
    else
      var tail := Insert(x, s[1..], key);
      HeadDominates(s, x, tail, key);
      assert s == [s[0]] + s[1..];
      [s[0]] + tail
  }

  /** The head of a sorted list ranks at least as high as everything
      after it, and so as anything the tail is a permutation of. */
  lemma HeadDominates<T>(s: seq<T>, x: T, tail: seq<T>, key: T -> Rank)
    requires s != [] && SortedDesc(s, key) && AtLeast(key(s[0]), key(x))
    requires multiset(tail) == multiset(s[1..]) + multiset{x}
    ensures forall k :: 0 <= k < |tail| ==> AtLeast(key(s[0]), key(tail[k]))
  {
    forall k | 0 <= k < |tail| ensures AtLeast(key(s[0]), key(tail[k])) {
      var y := tail[k];
      assert y in multiset(tail);
      if y != x {
        assert y in multiset(s[1..]);
        var i :| 0 <= i < |s[1..]| && s[1..][i] == y;
        assert s[i + 1] == y;
      }
    }
  }

  function SortDesc<T>(s: seq<T>, key: T -> Rank): (r: seq<T>)
    ensures SortedDesc(r, key)
    ensures multiset(r) == multiset(s)
    ensures |r| == |s|
  {
    if s == [] then []
    else
      assert s == [s[0]] + s[1..];
      Insert(s[0], SortDesc(s[1..], key), key)
  }

  /** Sorting a list that is already in order gives it back unchanged, so
      sorting twice is sorting once. */
  lemma {:induction false} SortDescFixesSorted<T>(s: seq<T>, key: T -> Rank)
    requires SortedDesc(s, key)
    ensures SortDesc(s, key) == s
  {
    if s != [] {
      SortDescFixesSorted(s[1..], key);
      assert s == [s[0]] + s[1..];
    }
  }

  lemma SortDescIdempotent<T>(s: seq<T>, key: T -> Rank)
    ensures SortDesc(SortDesc(s, key), key) == SortDesc(s, key)
  {
    SortDescFixesSorted(SortDesc(s, key), key);
  }
}
