/** The JavaScript string primitives the blog frontend relies on, over
    `string` (a sequence of Unicode scalar values). */
module Strings {
  import opened Wrappers

  predicate StartsWith(s: string, p: string) {
    |p| <= |s| && s[..|p|] == p
  }

  predicate EndsWith(s: string, p: string) {
    |p| <= |s| && s[|s| - |p|..] == p
  }

  /** `sub` occurs in `s` starting at index `i`. */
  predicate OccursAt(s: string, sub: string, i: int) {
    0 <= i && i + |sub| <= |s| && s[i..i + |sub|] == sub
  }

  lemma OccursAtTail(s: string, sub: string, k: int)
    requires |s| > 0 && k >= 0
    ensures OccursAt(s[1..], sub, k) <==> OccursAt(s, sub, k + 1)
  {
    if 0 <= k && k + |sub| <= |s| - 1 {
      assert s[1..][k..k + |sub|] == s[k + 1..k + 1 + |sub|];
    }
  }

  /** `String.prototype.indexOf`: the leftmost occurrence of `sub`. */
  function IndexOf(s: string, sub: string): (r: Option<nat>)
    ensures r.Some? ==> OccursAt(s, sub, r.value)
    ensures r.Some? ==> forall j :: 0 <= j < r.value ==> !OccursAt(s, sub, j)
    ensures r.None? ==> forall j :: !OccursAt(s, sub, j)
    decreases |s|
  {
    if |sub| <= |s| && s[..|sub|] == sub then Some(0)
    else if |s| == 0 then None
    else
      var rest := IndexOf(s[1..], sub);
      assert forall k :: k >= 0 ==> (OccursAt(s[1..], sub, k) <==> OccursAt(s, sub, k + 1)) by {
        forall k | k >= 0 ensures OccursAt(s[1..], sub, k) <==> OccursAt(s, sub, k + 1) {
          OccursAtTail(s, sub, k);
        }
      }
      if rest.None? then
        assert forall j :: !OccursAt(s, sub, j) by {
          forall j ensures !OccursAt(s, sub, j) {
            if j > 0 { assert !OccursAt(s[1..], sub, j - 1); }
          }
        }
        None
      else
        assert forall j :: 0 <= j < rest.value + 1 ==> !OccursAt(s, sub, j) by {
          forall j | 0 <= j < rest.value + 1 ensures !OccursAt(s, sub, j) {
            if j > 0 { assert !OccursAt(s[1..], sub, j - 1); }
          }
        }
        Some(rest.value + 1)
  }

  /** Past a position that does not start a match, the search goes on one
      character further along. */
  lemma IndexOfStep(s: string, sub: string)
    requires |s| > 0 && !StartsWith(s, sub)
    ensures IndexOf(s, sub) == if IndexOf(s[1..], sub).Some? then Some(IndexOf(s[1..], sub).value + 1) else None
  {
  }

  /** `String.prototype.includes`. */
  predicate Contains(s: string, sub: string) {
    IndexOf(s, sub).Some?
  }

  /** `String.prototype.replace` with a string pattern: only the leftmost
      occurrence is replaced. */
  function ReplaceFirst(s: string, pat: string, rep: string): (r: string)
    ensures !Contains(s, pat) ==> r == s
    ensures Contains(s, pat) ==> |r| == |s| - |pat| + |rep|
  {
    match IndexOf(s, pat)
    case None => s
    case Some(i) => s[..i] + rep + s[i + |pat|..]
  }

  // ---------------------------------------------------------------------
  // Decimal rendering of integers (template literals and `String(n)`).

  predicate IsDigit(c: char) {
    '0' <= c <= '9'
  }

  /** The regular-expression class `\w` without the `u` flag. */
  predicate IsWordChar(c: char) {
    ('a' <= c <= 'z') || ('A' <= c <= 'Z') || IsDigit(c) || c == '_'
  }

  function DigitChar(d: nat): (c: char)
    requires d < 10
    ensures IsDigit(c) && c as int - '0' as int == d
  {
    ['0', '1', '2', '3', '4', '5', '6', '7', '8', '9'][d]
  }

  function NatToString(n: nat): (r: string)
    ensures |r| >= 1
    ensures forall i :: 0 <= i < |r| ==> IsDigit(r[i])
    decreases n
  {
    if n < 10 then [DigitChar(n)] else NatToString(n / 10) + [DigitChar(n % 10)]
  }

  function IntToString(n: int): (r: string)
    ensures ' ' !in r
  {
    if n < 0 then "-" + NatToString(-n) else NatToString(n)
  }

  /** The value a run of decimal digits denotes: the inverse of NatToString. */
  function DigitsValue(s: string): nat
    requires forall i :: 0 <= i < |s| ==> IsDigit(s[i])
  {
    if s == [] then 0
    else
      assert IsDigit(s[|s| - 1]);
      DigitsValue(s[..|s| - 1]) * 10 + (s[|s| - 1] as int - '0' as int)
  }

  /** `String(n)` is a run of digits denoting `n`, after a `-` when `n` is negative. */
  lemma IntToStringDenotes(n: int)
    ensures |IntToString(n)| > 0
    ensures n >= 0 ==> (forall i :: 0 <= i < |IntToString(n)| ==> IsDigit(IntToString(n)[i])) && DigitsValue(IntToString(n)) == n
    ensures n < 0 ==> |IntToString(n)| > 1 && IntToString(n)[0] == '-'
    ensures n < 0 ==> forall i :: 1 <= i < |IntToString(n)| ==> IsDigit(IntToString(n)[i])
    ensures n < 0 ==> DigitsValue(IntToString(n)[1..]) == -n
  {
    if n >= 0 {
      DigitsRoundTrip(n);
    } else {
      var r := IntToString(n);
      assert r[1..] == NatToString(-n);
      DigitsRoundTrip(-n);
    }
  }

  lemma {:induction false} DigitsRoundTrip(n: nat)
    ensures DigitsValue(NatToString(n)) == n
    decreases n
  {
    if n >= 10 {
      var r := NatToString(n);
      assert r[..|r| - 1] == NatToString(n / 10);
      DigitsRoundTrip(n / 10);
    }
  }

  /** `String.prototype.padStart(n, [c])`. */
  function PadStart(s: string, n: nat, c: char): (r: string)
    ensures |r| == if |s| >= n then |s| else n
    ensures r[|r| - |s|..] == s
    ensures forall i :: 0 <= i < |r| - |s| ==> r[i] == c
    decreases n - |s|
  {
    if |s| >= n then s else PadStart([c] + s, n, c)
  }

  // ---------------------------------------------------------------------
  // `String.prototype.split` and `Array.prototype.join` with a
  // one-character separator.

  function Split(s: string, sep: char): (parts: seq<string>)
    ensures |parts| >= 1
    ensures forall k :: 0 <= k < |parts| ==> sep !in parts[k]
    decreases |s|
  {
    if |s| == 0 then [""]
    else
      var rest := Split(s[1..], sep);
      if s[0] == sep then [""] + rest
      else [[s[0]] + rest[0]] + rest[1..]
  }

  function Join(parts: seq<string>, sep: char): string {
    if |parts| == 0 then ""
    else if |parts| == 1 then parts[0]
    else parts[0] + [sep] + Join(parts[1..], sep)
  }

  /** Joining the pieces of a split gives the original string back. */
  lemma {:induction false} JoinSplit(s: string, sep: char)
    ensures Join(Split(s, sep), sep) == s
    decreases |s|
  {
    if |s| > 0 {
      var rest := Split(s[1..], sep);
      JoinSplit(s[1..], sep);
      if s[0] == sep {
        assert s == [sep] + s[1..];
      } else if |rest| == 1 {
        assert s == [s[0]] + s[1..];
      } else {
        assert Split(s, sep)[1..] == rest[1..];
        assert s == [s[0]] + s[1..];
      }
    }
  }

  /** Joining pieces whose first piece is non-empty starts with that
      piece's first character. */
  lemma JoinFirstChar(parts: seq<string>, sep: char)
    requires |parts| >= 1 && |parts[0]| > 0
    ensures Join(parts, sep) == [parts[0][0]] + Join([parts[0][1..]] + parts[1..], sep)
  {
    var p := parts[0];
    var shorter := [p[1..]] + parts[1..];
    assert p == [p[0]] + p[1..];
    if |parts| > 1 {
      assert shorter[1..] == parts[1..];
    }
  }

  /** A character other than the separator extends the first piece. */
  lemma SplitNonSep(s: string, sep: char)
    requires |s| > 0 && s[0] != sep
    ensures Split(s, sep) == [[s[0]] + Split(s[1..], sep)[0]] + Split(s[1..], sep)[1..]
  {
  }

  /** Splitting a join of separator-free pieces gives the pieces back. */
  lemma {:induction false} SplitJoin(parts: seq<string>, sep: char)
    requires |parts| >= 1
    requires forall k :: 0 <= k < |parts| ==> sep !in parts[k]
    ensures Split(Join(parts, sep), sep) == parts
    decreases |parts|, |parts[0]|
  {
    var p := parts[0];
    if |p| > 0 {
      var shorter := [p[1..]] + parts[1..];
      assert forall k :: 0 <= k < |shorter| ==> sep !in shorter[k] by {
        forall k | 0 <= k < |shorter| ensures sep !in shorter[k] {
          if k > 0 { assert shorter[k] == parts[k]; }
        }
      }
      SplitJoin(shorter, sep);
      var j := Join(parts, sep);
      JoinFirstChar(parts, sep);
      assert j[0] == p[0] && j[1..] == Join(shorter, sep);
      SplitNonSep(j, sep);
      assert [p[0]] + p[1..] == p;
      assert shorter[1..] == parts[1..];
    } else if |parts| > 1 {
      SplitJoin(parts[1..], sep);
      assert Join(parts, sep) == [sep] + Join(parts[1..], sep);
    }
  }

  // ---------------------------------------------------------------------
  // `String.prototype.trim` and `toLowerCase`.

  /** ECMAScript WhiteSpace and LineTerminator code points: what `trim`
      removes. */
  predicate IsJsSpace(c: char) {
    || c == ' ' || c == '\t' || c == '\n' || c == '\r'
    || c == '\U{000B}' || c == '\U{000C}' || c == '\U{00A0}' || c == '\U{FEFF}'
    || c == '\U{1680}' || ('\U{2000}' <= c <= '\U{200A}')
    || c == '\U{2028}' || c == '\U{2029}' || c == '\U{202F}' || c == '\U{205F}'
    || c == '\U{3000}'
  }

  function TrimStart(s: string): (r: string)
    ensures |r| <= |s| && r == s[|s| - |r|..]
    ensures r == [] || !IsJsSpace(r[0])
    ensures forall i :: 0 <= i < |s| - |r| ==> IsJsSpace(s[i])
  {
    if |s| > 0 && IsJsSpace(s[0]) then TrimStart(s[1..]) else s
  }

  function TrimEnd(s: string): (r: string)
    ensures |r| <= |s| && r == s[..|r|]
    ensures r == [] || !IsJsSpace(r[|r| - 1])
    ensures forall i :: |r| <= i < |s| ==> IsJsSpace(s[i])
  {
    if |s| > 0 && IsJsSpace(s[|s| - 1]) then TrimEnd(s[..|s| - 1]) else s
  }

  function Trim(s: string): (r: string)
    ensures r == [] <==> forall i :: 0 <= i < |s| ==> IsJsSpace(s[i])
  {
    TrimEnd(TrimStart(s))
  }

  function LowerChar(c: char): char {
    if 'A' <= c <= 'Z' then (c as int + 32) as char else c
  }

  /** `toLowerCase`, on the ASCII letters. */
  function ToLower(s: string): (r: string)
    ensures |r| == |s|
    ensures forall i :: 0 <= i < |s| ==> r[i] == LowerChar(s[i])
  {
    seq(|s|, i requires 0 <= i < |s| => LowerChar(s[i]))
  }
}
