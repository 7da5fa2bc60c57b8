/** The post card in its four variants: the excerpt with its fallback,
    the zero-padded ranking of the sidebar and the category label. */
module PostCard {
  import opened Wrappers
  import opened Strings
  import opened Seqs
  import opened Entities

  datatype Variant = Hero | Sidebar | List | Grid

  /** The characters `/[#*`]/g` deletes. */
  predicate IsMark(c: char) {
    c == '#' || c == '*' || c == '`'
  }

  /** `content.replace(/[#*`]/g, "")`. */
  function StripMarks(content: string): (r: string)
    ensures |r| <= |content|
    ensures forall i :: 0 <= i < |r| ==> !IsMark(r[i])
  {
    Filter(content, (c: char) => !IsMark(c))
  }

  /** The kept characters stay in order: stripping a concatenation strips
      each part. */
  lemma StripMarksAppend(a: string, b: string)
    ensures StripMarks(a + b) == StripMarks(a) + StripMarks(b)
  {
    FilterAppend(a, b, (c: char) => !IsMark(c));
  }

  /** A mark is deleted and any other character is kept. */
  lemma StripMarksOne(c: char)
    ensures IsMark(c) ==> StripMarks([c]) == []
    ensures !IsMark(c) ==> StripMarks([c]) == [c]
  {
  }

  /** Text without marks is left as it is. */
  lemma StripMarksPlain(content: string)
    requires forall i :: 0 <= i < |content| ==> !IsMark(content[i])
    ensures StripMarks(content) == content
  {
    FilterKeepsAll(content, (c: char) => !IsMark(c));
  }

  /** How many characters of the stripped content a variant shows. */
  function ExcerptLength(v: Variant): nat {
    match v
    case Hero => 100
    case List => 120
    case Grid => 40
    case Sidebar => 0
  }

  /** `post.excerpt || content.replace(/[#*`]/g, "").substring(0, n) + "..."`. */
  function Excerpt(post: Post, n: nat): (r: string)
    ensures post.excerpt != "" ==> r == post.excerpt
    ensures post.excerpt == "" ==>
      && |r| <= n + 3
      && EndsWith(r, "...")
      && (forall i :: 0 <= i < |r| ==> !IsMark(r[i]))
      && StartsWith(StripMarks(post.content), r[..|r| - 3])
      && |r| - 3 == Min(n, |StripMarks(post.content)|)
  {
    if post.excerpt != "" then post.excerpt
    else
      var stripped := StripMarks(post.content);
      var shown := stripped[..Min(n, |stripped|)];
      var r := shown + "...";
      assert r[..|r| - 3] == shown;
      r
  }

  /** Without an excerpt, content free of marks shows its own first `n`
      characters followed by `...`. */
  lemma PlainExcerpt(post: Post, n: nat)
    requires post.excerpt == ""
    requires forall i :: 0 <= i < |post.content| ==> !IsMark(post.content[i])
    ensures Excerpt(post, n) == post.content[..Min(n, |post.content|)] + "..."
  {
    StripMarksPlain(post.content);
  }

  /** Marks are skipped before counting: a `## ` heading loses its hashes
      but keeps its space. */
  lemma HeadingExcerpt(post: Post, title: string)
    requires post.excerpt == "" && post.content == "## " + title
    requires forall i :: 0 <= i < |title| ==> !IsMark(title[i])
    ensures Excerpt(post, |title| + 1) == " " + title + "..."
  {
    StripHeadingMarks(title);
    var stripped := StripMarks(post.content);
    assert stripped[..Min(|title| + 1, |stripped|)] == " " + title;
  }

  lemma StripHeadingMarks(title: string)
    requires forall i :: 0 <= i < |title| ==> !IsMark(title[i])
    ensures StripMarks("## " + title) == " " + title
  {
    var hash, space := "#", " ";
    StripMarksOne('#');
    StripMarksOne(' ');
    assert StripMarks(hash) == [] && StripMarks(space) == space;
    StripMarksAppend(hash, space);
    StripMarksAppend(hash, hash + space);
    StripMarksAppend("## ", title);
    assert "## " == hash + (hash + space);
    StripMarksPlain(title);
  }

  /** The excerpt each variant with a description shows. */
  function CardExcerpt(post: Post, v: Variant): (r: Option<string>)
    ensures r.Some? <==> v != Sidebar
    ensures r.Some? ==> r.value == Excerpt(post, ExcerptLength(v))
  {
    if v == Sidebar then None else Some(Excerpt(post, ExcerptLength(v)))
  }

  /** `String(ranking).padStart(2, "0")`. */
  function RankText(ranking: int): (r: string)
    ensures |r| >= 2
  {
    PadStart(IntToString(ranking), 2, '0')
  }

  /** The sidebar's ranking badge: absent for a missing or zero ranking,
      highlighted for rankings up to 3. For a zero ranking React prints a
      bare `0` in its place, which is not modelled; callers pass
      rankings from 1. */
  datatype Badge = Badge(text: string, highlighted: bool)

  function RankBadge(ranking: Option<int>): (b: Option<Badge>)
    ensures b.Some? <==> ranking.Some? && ranking.value != 0
    ensures b.Some? ==> b.value.text == RankText(ranking.value)
    ensures b.Some? ==> (b.value.highlighted <==> ranking.value <= 3)
  {
    if ranking.Some? && ranking.value != 0
    then Some(Badge(RankText(ranking.value), ranking.value <= 3))
    else None
  }

  /** A leading zero does not change the value of a digit string. */
  lemma {:induction false} LeadingZero(s: string)
    requires forall i :: 0 <= i < |s| ==> IsDigit(s[i])
    ensures DigitsValue("0" + s) == DigitsValue(s)
  {
    if s != [] {
      var t := "0" + s;
      assert t[..|t| - 1] == "0" + s[..|s| - 1];
      LeadingZero(s[..|s| - 1]);
    }
  }

  /** A number below 100 has at most two digits. */
  lemma ShortNumeral(n: nat)
    requires n < 100
    ensures |NatToString(n)| <= 2
  {
    if n >= 10 {
      assert NatToString(n / 10) == [DigitChar(n / 10)];
    }
  }

  /** A positive ranking's text is all digits, denotes the ranking, and
      has exactly two characters below 100. */
  lemma RankTextDenotes(ranking: nat)
    requires ranking > 0
    ensures forall i :: 0 <= i < |RankText(ranking)| ==> IsDigit(RankText(ranking)[i])
    ensures DigitsValue(RankText(ranking)) == ranking
    ensures ranking < 100 ==> |RankText(ranking)| == 2
  {
    var s := NatToString(ranking);
    RankTextPads(ranking);
    DigitsRoundTrip(ranking);
    if |s| < 2 {
      var r := "0" + s;
      assert RankText(ranking) == r;
      assert forall i :: 0 <= i < |r| ==> IsDigit(r[i]) by {
        forall i | 0 <= i < |r| ensures IsDigit(r[i]) {
          if i > 0 { assert r[i] == s[i - 1]; }
        }
      }
      LeadingZero(s);
    } else {
      assert RankText(ranking) == s;
      if ranking < 100 {
        ShortNumeral(ranking);
      }
    }
  }

  /** A ranking's text is its numeral, with a `0` in front of a single digit. */
  lemma RankTextPads(ranking: nat)
    ensures RankText(ranking) == if |NatToString(ranking)| < 2 then "0" + NatToString(ranking) else NatToString(ranking)
  {
    var s := NatToString(ranking);
    assert IntToString(ranking) == s;
    if |s| < 2 {
      assert PadStart(s, 2, '0') == PadStart("0" + s, 2, '0');
    }
  }

  /** Ranking seven renders as `07`. */
  lemma SeventhIsZeroPadded()
    ensures RankText(7) == "07"
  {
    assert IntToString(7) == "7";
  }

  /** The list variant: the category's name when there is a category (even
      an empty name), else `Uncategorized`. The sidebar shows no category. */
  function ListCategoryLabel(category: Option<Category>): (r: string)
    ensures category.Some? ==> r == category.value.name
    ensures category.None? ==> r == "Uncategorized"
  {
    if category.Some? then category.value.name else "Uncategorized"
  }

  /** The grid variant: `post.category?.name || "Uncategorized"`, so an
      empty name also falls back. */
  function GridCategoryLabel(category: Option<Category>): (r: string)
    ensures r != ""
    ensures category.Some? && category.value.name != "" ==> r == category.value.name
    ensures category.None? || category.value.name == "" ==> r == "Uncategorized"
  {
    if category.Some? && category.value.name != "" then category.value.name else "Uncategorized"
  }

  /** The two labels differ exactly on a category with an empty name. */
  lemma CategoryLabelsDiffer(category: Option<Category>)
    ensures ListCategoryLabel(category) != GridCategoryLabel(category)
        <==> category.Some? && category.value.name == ""
  {
  }

  function PostLink(post: Post): (r: string)
    ensures StartsWith(r, "/posts/") && r[7..] == post.slug
  {
    "/posts/" + post.slug
  }
}
