/** The favourites table: the first five bookmarks in the order given,
    and a "view all" link when there are more. */
module FavoriteTable {
  import opened Wrappers
  import opened Strings
  import opened Seqs
  import opened Entities

  const Shown := 5

  /** `bookmarks.slice(0, 5)`. */
  function DisplayItems(bookmarks: seq<Bookmark>): (r: seq<Bookmark>)
    ensures |r| == Min(Shown, |bookmarks|)
    ensures r == bookmarks[..|r|]
  {
    JsSlice(bookmarks, 0, Shown)
  }

  datatype Row = Row(title: string, href: string)

  function Rows(bookmarks: seq<Bookmark>): (rows: seq<Row>)
    ensures |rows| == |DisplayItems(bookmarks)|
    ensures forall i :: 0 <= i < |rows| ==>
      rows[i] == Row(bookmarks[i].title, "/posts/" + bookmarks[i].slug)
  {
    var items := DisplayItems(bookmarks);
    seq(|items|, i requires 0 <= i < |items| => Row(items[i].title, "/posts/" + items[i].slug))
  }

  datatype Link = Link(href: string, text: string)

  /** The link below the table, present when more than five bookmarks
      exist; its text gives the total. */
  function ViewAll(bookmarks: seq<Bookmark>): (r: Option<Link>)
    ensures r.Some? <==> |bookmarks| > Shown
    ensures r.Some? ==> r.value == Link("/favorites/all", "查看全部 " + IntToString(|bookmarks|) + " 篇收藏")
  {
    if |bookmarks| > Shown
    then Some(Link("/favorites/all", "查看全部 " + IntToString(|bookmarks|) + " 篇收藏"))
    else None
  }

  /** The link appears exactly when the table leaves a bookmark out, and
      the table followed by the rest is the whole list. */
  lemma ViewAllIffSomeHidden(bookmarks: seq<Bookmark>)
    ensures ViewAll(bookmarks).Some? <==> |DisplayItems(bookmarks)| < |bookmarks|
    ensures DisplayItems(bookmarks) + bookmarks[|DisplayItems(bookmarks)|..] == bookmarks
  {
    var shown := DisplayItems(bookmarks);
    assert bookmarks[..|shown|] + bookmarks[|shown|..] == bookmarks;
  }
}
