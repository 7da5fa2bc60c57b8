/** The live preview's pre-processing pass: figure citations `@fig-<id>`
    become anchor links `#fig-<id>` before the Markdown is rendered, and an
    empty buffer renders a placeholder instead. */
module EditorPreview {

  const Placeholder: string := "*預覽內容將顯示於此...*"

  /** `[\w-]` without the `u` flag: an ASCII letter, digit, `_` or `-`. */
  predicate IsWordOrHyphen(c: char) {
    ('a' <= c <= 'z') || ('A' <= c <= 'Z') || ('0' <= c <= '9') || c == '_' || c == '-'
  }

  /** A citation matching `@fig-[\w-]+` starts at index `i`. */
  predicate FigRefAt(s: string, i: int) {
    0 <= i && i + 6 <= |s| && s[i] == '@' && s[i + 1..i + 5] == "fig-" && IsWordOrHyphen(s[i + 5])
  }

  /** Length of the greedy `[\w-]*` run at the front of `s`. */
  function RunLength(s: string): (n: nat)
    ensures n <= |s|
    ensures forall k :: 0 <= k < n ==> IsWordOrHyphen(s[k])
    ensures n == |s| || !IsWordOrHyphen(s[n])
  {
    if |s| > 0 && IsWordOrHyphen(s[0]) then 1 + RunLength(s[1..]) else 0
  }

  lemma FigRefShift(s: string, n: nat, i: int)
    requires n <= |s| && i >= 0
    ensures FigRefAt(s[n..], i) <==> FigRefAt(s, i + n)
  {
    if i + 6 <= |s| - n {
      assert s[n..][i + 1..i + 5] == s[i + n + 1..i + n + 5];
    }
  }

  /** `content.replace(/(@fig-[\w-]+)/g, m => m.replace("@", "#"))`: the
      global scan takes each match greedily, turns its leading `@` into `#`
      and resumes after it. */
  function RewriteFigureRefs(s: string): (r: string)
    ensures |r| == |s|
    decreases |s|
  {
    if |s| == 0 then ""
    else if FigRefAt(s, 0) then
      var n := 5 + RunLength(s[5..]);
      "#" + s[1..n] + RewriteFigureRefs(s[n..])
    else
      [s[0]] + RewriteFigureRefs(s[1..])
  }

  /** Inside a citation, after its `@`, no character is an `@`. */
  lemma CitationBodyHasNoAt(s: string, i: nat)
    requires FigRefAt(s, 0) && 0 < i < 5 + RunLength(s[5..])
    ensures s[i] != '@'
  {
    if i < 5 {
      assert s[i] == s[1..5][i - 1];
    } else {
      assert IsWordOrHyphen(s[5..][i - 5]);
    }
  }

  /** What the scan means, position by position: a character changes exactly
      where a citation starts, and becomes `#`. */
  lemma {:induction false} RewritePointwise(s: string)
    ensures forall i :: 0 <= i < |s| ==>
      RewriteFigureRefs(s)[i] == if FigRefAt(s, i) then '#' else s[i]
    decreases |s|
  {
    if |s| == 0 {
    } else {
      var r := RewriteFigureRefs(s);
      var n := if FigRefAt(s, 0) then 5 + RunLength(s[5..]) else 1;
      var rest := RewriteFigureRefs(s[n..]);
      RewritePointwise(s[n..]);
      assert r == (if FigRefAt(s, 0) then "#" + s[1..n] else [s[0]]) + rest;
      forall i | 0 <= i < |s| ensures r[i] == if FigRefAt(s, i) then '#' else s[i] {
        if i == 0 {
        } else if i < n {
          CitationBodyHasNoAt(s, i);
          assert r[i] == s[i];
        } else {
          FigRefShift(s, n, i - n);
          assert r[i] == rest[i - n];
        }
      }
    }
  }

  /** A character of the rewritten text differs from the original exactly
      where a citation starts; every other `@` is left alone. */
  lemma RewriteChangesOnlyCitations(s: string, i: nat)
    requires i < |s|
    ensures RewriteFigureRefs(s)[i] != s[i] <==> FigRefAt(s, i)
    ensures s[i] == '@' && !FigRefAt(s, i) ==> RewriteFigureRefs(s)[i] == '@'
  {
    RewritePointwise(s);
  }

  /** No citation survives the rewrite. */
  lemma NoCitationAfterRewrite(s: string, i: int)
    ensures !FigRefAt(RewriteFigureRefs(s), i)
  {
    var r := RewriteFigureRefs(s);
    RewritePointwise(s);
    if 0 <= i && i + 6 <= |r| && r[i] == '@' {
      assert !FigRefAt(s, i);
      if exists k :: i < k < i + 6 && r[k] == '#' {
        var k :| i < k < i + 6 && r[k] == '#';
        if k < i + 5 {
          assert r[i + 1..i + 5][k - i - 1] == '#';
        }
      } else {
        assert r[i + 1..i + 5] == s[i + 1..i + 5];
        assert r[i + 5] == s[i + 5];
      }
    }
  }

  /** Applying the rewrite twice gives the same text as applying it once. */
  lemma {:induction false} RewriteIdempotent(s: string)
    ensures RewriteFigureRefs(RewriteFigureRefs(s)) == RewriteFigureRefs(s)
  {
    var r := RewriteFigureRefs(s);
    RewritePointwise(r);
    forall i | 0 <= i < |r| ensures RewriteFigureRefs(r)[i] == r[i] {
      NoCitationAfterRewrite(s, i);
    }
  }

  /** The Markdown text the preview renders: the rewritten content, or the
      placeholder when the content is empty. */
  function PreviewMarkdown(content: string): (r: string)
    ensures content == "" ==> r == Placeholder
    ensures content != "" ==> r == RewriteFigureRefs(content) && |r| == |content|
  {
    var processed := if content != "" then RewriteFigureRefs(content) else "";
    if processed != "" then processed else Placeholder
  }
}
