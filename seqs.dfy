/** `Array.prototype.filter`, the one list primitive several components
    share (removal by id, the published filter, the selector's suggestions). */
module Seqs {

  function Filter<T>(s: seq<T>, keep: T -> bool): (r: seq<T>)
    ensures |r| <= |s|
    ensures forall k :: 0 <= k < |r| ==> keep(r[k]) && r[k] in s
    ensures forall k :: 0 <= k < |s| && keep(s[k]) ==> s[k] in r
  {
    if s == [] then []
    else (if keep(s[0]) then [s[0]] else []) + Filter(s[1..], keep)
  }

  /** Filtering distributes over concatenation: the survivors keep their
      relative order. */
  lemma {:induction false} FilterAppend<T>(a: seq<T>, b: seq<T>, keep: T -> bool)
    ensures Filter(a + b, keep) == Filter(a, keep) + Filter(b, keep)
  {
    if a == [] {
      assert a + b == b;
    } else {
      assert (a + b)[1..] == a[1..] + b;
      FilterAppend(a[1..], b, keep);
    }
  }

  /** A filter that drops nothing is the identity. */
  lemma {:induction false} FilterKeepsAll<T>(s: seq<T>, keep: T -> bool)
    requires forall k :: 0 <= k < |s| ==> keep(s[k])
    ensures Filter(s, keep) == s
  {
    if s != [] {
      FilterKeepsAll(s[1..], keep);
    }
  }

  /** The first survivor of a filter is the first element that passes it. */
  lemma {:induction false} FilterFirst<T>(s: seq<T>, keep: T -> bool)
    ensures Filter(s, keep) == [] <==> forall k :: 0 <= k < |s| ==> !keep(s[k])
    ensures Filter(s, keep) != [] ==>
      exists k :: 0 <= k < |s| && s[k] == Filter(s, keep)[0] && keep(s[k]) &&
        forall j :: 0 <= j < k ==> !keep(s[j])
  {
    if s != [] {
      FilterFirst(s[1..], keep);
      if !keep(s[0]) && Filter(s, keep) != [] {
        var k :| 0 <= k < |s| - 1 && s[1..][k] == Filter(s[1..], keep)[0] && keep(s[1..][k]) &&
          forall j :: 0 <= j < k ==> !keep(s[1..][j]);
        assert s[k + 1] == Filter(s, keep)[0];
        forall j | 0 <= j < k + 1 ensures !keep(s[j]) {
          if j > 0 { assert s[j] == s[1..][j - 1]; }
        }
      }
      if Filter(s, keep) == [] {
        forall k | 0 <= k < |s| ensures !keep(s[k]) {
          if k > 0 { assert s[k] == s[1..][k - 1]; }
        }
      }
    }
  }

  /** `Array.prototype.slice`'s index normalisation: a negative index counts
      from the end, and the result is clamped to `[0, n]`. */
  function ClampIndex(i: int, n: nat): (r: nat)
    ensures r <= n
    ensures 0 <= i <= n ==> r == i
    ensures i > n ==> r == n
  {
    if i < 0 then (if n + i < 0 then 0 else n + i)
    else if i > n then n
    else i
  }

  function Min(a: nat, b: nat): nat { if a <= b then a else b }

  /** `s.slice(start, end)`. */
  function JsSlice<T>(s: seq<T>, start: int, end: int): (r: seq<T>)
    ensures |r| <= |s|
    ensures 0 <= start <= end ==> r == s[Min(start, |s|)..Min(end, |s|)]
  {
    var a := ClampIndex(start, |s|);
    var b := ClampIndex(end, |s|);
    if a < b then s[a..b] else []
  }
}
