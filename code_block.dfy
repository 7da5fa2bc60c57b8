/** The code block's header: the language named by the code element's
    `language-<name>` class, and the copy button's "copied" flag. */
module CodeBlock {
  import opened Wrappers
  import opened Strings

  const Prefix := "language-"
  const DefaultLabel := "TEXT"

  /** `/language-(\w+)/` can match at `i`: the prefix, then a word
      character. */
  predicate MatchAt(s: string, i: nat) {
    OccursAt(s, Prefix, i) && i + |Prefix| < |s| && IsWordChar(s[i + |Prefix|])
  }

  /** Length of the greedy `\w+` run starting at `k`. */
  function WordRun(s: string, k: nat): (n: nat)
    requires k <= |s|
    ensures k + n <= |s|
    ensures forall j :: k <= j < k + n ==> IsWordChar(s[j])
    ensures k + n == |s| || !IsWordChar(s[k + n])
    decreases |s| - k
  {
    if k < |s| && IsWordChar(s[k]) then 1 + WordRun(s, k + 1) else 0
  }

  /** The leftmost match at or after `from`. */
  function FirstMatch(s: string, from: nat): (r: Option<nat>)
    ensures r.Some? ==> from <= r.value && MatchAt(s, r.value)
    ensures r.Some? ==> forall j :: from <= j < r.value ==> !MatchAt(s, j)
    ensures r.None? ==> forall j :: from <= j ==> !MatchAt(s, j)
    decreases |s| - from
  {
    if from + |Prefix| >= |s| then None
    else if MatchAt(s, from) then Some(from)
    else FirstMatch(s, from + 1)
  }

  /** `match ? match[1] : ""`: the word run after the leftmost
      `language-` that has one. */
  function Language(className: string): (lang: string)
    ensures FirstMatch(className, 0).None? ==> lang == ""
    ensures FirstMatch(className, 0).Some? ==>
      var i := FirstMatch(className, 0).value + |Prefix|;
      && lang != ""
      && i + |lang| <= |className| && className[i..i + |lang|] == lang
      && (forall j :: 0 <= j < |lang| ==> IsWordChar(lang[j]))
      && (i + |lang| == |className| || !IsWordChar(className[i + |lang|]))
  {
    match FirstMatch(className, 0)
    case None => ""
    case Some(start) =>
      var i := start + |Prefix|;
      className[i..i + WordRun(className, i)]
  }

  /** The code element `children` and its props as the renderer passes
      them; any of them may be missing. */
  datatype Props = Props(className: Option<string>)
  datatype Child = Child(props: Option<Props>)

  /** `codeElement?.props?.className || ""`. */
  function ClassName(child: Option<Child>): (r: string)
    ensures child.None? || child.value.props.None? || child.value.props.value.className.None? ==> r == ""
    ensures child.Some? && child.value.props.Some? && child.value.props.value.className.Some? ==>
      r == child.value.props.value.className.value
  {
    if child.Some? && child.value.props.Some? && child.value.props.value.className.Some?
    then child.value.props.value.className.value
    else ""
  }

  /** `language || "TEXT"`. */
  function Label(child: Option<Child>): (r: string)
    ensures r != ""
    ensures Language(ClassName(child)) != "" ==> r == Language(ClassName(child))
    ensures Language(ClassName(child)) == "" ==> r == DefaultLabel
  {
    var lang := Language(ClassName(child));
    if lang == "" then DefaultLabel else lang
  }

  /** A fenced block tagged `python` is labelled `python`. */
  lemma PythonExample(cls: string)
    requires cls == "language-python"
    ensures Language(cls) == "python"
  {
    assert MatchAt(cls, 0) by { assert cls[..9] == Prefix; }
    assert WordRun(cls, 9) == 6 by {
      assert forall j :: 9 <= j < 15 ==> IsWordChar(cls[j]);
    }
  }

  /** A `language-` with nothing after it names no language. */
  lemma BarePrefixHasNoLanguage(cls: string)
    requires cls == "language-"
    ensures Language(cls) == ""
  {
  }

  class CopyButton {
    var isCopied: bool

    constructor()
      ensures !isCopied
    {
      isCopied := false;
    }

    /** `handleCopy`: with the `pre` element mounted and the clipboard
        write accepted the button shows "copied"; otherwise nothing
        changes. */
    method Copy(hasPre: bool, written: bool) returns (attempted: bool)
      modifies this`isCopied
      ensures attempted <==> hasPre
      ensures hasPre && written ==> isCopied
      ensures !(hasPre && written) ==> isCopied == old(isCopied)
    {
      if !hasPre {
        return false;
      }
      if written {
        isCopied := true;
      }
      attempted := true;
    }

    /** The two-second timer resets the flag. */
    method TimerFires()
      modifies this`isCopied
      ensures !isCopied
    {
      isCopied := false;
    }
  }
}
