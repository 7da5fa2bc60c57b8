/** The article's table of contents: the `h2`/`h3` headings of the
    rendered post, the entry of the section being read, and navigation by
    click. The document is an input: a map from element id to the
    element's `offsetTop`, an id without an element being absent. */
module TableOfContents {
  import opened Wrappers
  import opened Strings

  /** How far below the top of the viewport a heading still counts as
      reached. */
  const ScrollOffset := 150

  /** `querySelectorAll("h2, h3")` only yields these two tags. */
  datatype HeadingTag = H2 | H3

  datatype Element = Element(tag: HeadingTag, id: string, textContent: Option<string>)

  datatype Heading = Heading(id: string, text: string, level: int)

  /** `Number(el.tagName.replace("H", ""))`. */
  function Level(tag: HeadingTag): (n: int)
    ensures n == 2 || n == 3
    ensures tag == H2 <==> n == 2
  {
    match tag
    case H2 => 2
    case H3 => 3
  }

  /** The entry's left padding, `(level - 2) * 12` pixels. */
  function Indent(level: int): int {
    (level - 2) * 12
  }

  function Extract(elements: seq<Element>): (hs: seq<Heading>)
    ensures |hs| == |elements|
    ensures forall i :: 0 <= i < |hs| ==>
      && hs[i].id == elements[i].id
      && hs[i].text == (if elements[i].textContent.Some? then elements[i].textContent.value else "")
      && Indent(hs[i].level) == (if elements[i].tag == H2 then 0 else 12)
  {
    seq(|elements|, i requires 0 <= i < |elements| =>
      var e := elements[i];
      Heading(e.id, if e.textContent.Some? then e.textContent.value else "", Level(e.tag)))
  }

  /** The heading's element exists and its top has been scrolled past
      `limit`. */
  predicate Reached(h: Heading, offsets: map<string, int>, limit: int) {
    h.id in offsets && offsets[h.id] <= limit
  }

  /** The index of the last reached heading, in document order. */
  function LastReached(hs: seq<Heading>, offsets: map<string, int>, limit: int): (r: Option<nat>)
    ensures r.Some? ==> r.value < |hs| && Reached(hs[r.value], offsets, limit)
    ensures r.Some? ==> forall j :: r.value < j < |hs| ==> !Reached(hs[j], offsets, limit)
    ensures r.None? ==> forall j :: 0 <= j < |hs| ==> !Reached(hs[j], offsets, limit)
  {
    if hs == [] then None
    else if Reached(hs[|hs| - 1], offsets, limit) then Some(|hs| - 1)
    else LastReached(hs[..|hs| - 1], offsets, limit)
  }

  datatype Entry = Entry(text: string, href: string, indent: int, active: bool)

  class Contents {
    var headings: seq<Heading>
    var activeId: string

    constructor()
      ensures headings == [] && activeId == ""
    {
      headings, activeId := [], "";
    }

    /** The extraction effect: runs again whenever the content changes;
        without the content element nothing changes. */
    method Collect(contentElement: Option<seq<Element>>)
      modifies this`headings
      ensures contentElement.None? ==> headings == old(headings)
      ensures contentElement.Some? ==> headings == Extract(contentElement.value)
    {
      if contentElement.Some? {
        headings := Extract(contentElement.value);
      }
    }

    /** `handleScroll`: walks the headings from the last to the first and
        activates the first one reached; with none reached the active entry
        stays. */
    method HandleScroll(scrollY: int, offsets: map<string, int>)
      modifies this`activeId
      ensures var found := LastReached(headings, offsets, scrollY + ScrollOffset);
        && (found.Some? ==> activeId == headings[found.value].id)
        && (found.None? ==> activeId == old(activeId))
    {
      var scrollPosition := scrollY + ScrollOffset;
      var i := |headings|;
      while i > 0
        invariant 0 <= i <= |headings|
        invariant forall j :: i <= j < |headings| ==> !Reached(headings[j], offsets, scrollPosition)
        invariant activeId == old(activeId)
      {
        var heading := headings[i - 1];
        if heading.id in offsets && offsets[heading.id] <= scrollPosition {
          activeId := heading.id;
          LastReachedIs(headings, offsets, scrollPosition, i - 1);
          return;
        }
        i := i - 1;
      }
      LastReachedNone(headings, offsets, scrollPosition);
    }

    /** The scroll effect: installed, and run once, only when there are
        headings. */
    method Install(scrollY: int, offsets: map<string, int>) returns (installed: bool)
      modifies this`activeId
      ensures installed <==> |headings| > 0
      ensures !installed ==> activeId == old(activeId)
      ensures installed ==> var found := LastReached(headings, offsets, scrollY + ScrollOffset);
        && (found.Some? ==> activeId == headings[found.value].id)
        && (found.None? ==> activeId == old(activeId))
    {
      if |headings| == 0 {
        return false;
      }
      HandleScroll(scrollY, offsets);
      installed := true;
    }

    /** Clicking an entry activates it at once. */
    method ClickEntry(index: nat)
      requires index < |headings|
      modifies this`activeId
      ensures activeId == headings[index].id
    {
      activeId := headings[index].id;
    }

    /** The rendered list; nothing at all without headings. */
    function Render(): (r: Option<seq<Entry>>)
      reads this
      ensures r.None? <==> headings == []
      ensures r.Some? ==> |r.value| == |headings| && forall i :: 0 <= i < |headings| ==>
        r.value[i] == Entry(headings[i].text, "#" + headings[i].id, Indent(headings[i].level), activeId == headings[i].id)
    {
      if headings == [] then None
      else Some(seq(|headings|, i requires 0 <= i < |headings| reads this =>
        Entry(headings[i].text, "#" + headings[i].id, Indent(headings[i].level), activeId == headings[i].id)))
    }
  }

  /** A reached heading with no reached heading after it is the one
      `LastReached` finds. */
  lemma {:induction false} LastReachedIs(hs: seq<Heading>, offsets: map<string, int>, limit: int, i: nat)
    requires i < |hs| && Reached(hs[i], offsets, limit)
    requires forall j :: i < j < |hs| ==> !Reached(hs[j], offsets, limit)
    ensures LastReached(hs, offsets, limit) == Some(i)
    decreases |hs|
  {
    if i < |hs| - 1 {
      LastReachedIs(hs[..|hs| - 1], offsets, limit, i);
    }
  }

  lemma {:induction false} LastReachedNone(hs: seq<Heading>, offsets: map<string, int>, limit: int)
    requires forall j :: 0 <= j < |hs| ==> !Reached(hs[j], offsets, limit)
    ensures LastReached(hs, offsets, limit).None?
    decreases |hs|
  {
    if hs != [] {
      LastReachedNone(hs[..|hs| - 1], offsets, limit);
    }
  }
}
