/** The categories ranking table: categories by post count, most first,
    with medal styles for the first three rows. */
module CategoryListTable {
  import opened Entities
  import opened Ranking

  function CountRank(c: Category): Rank {
    Rank(c.count, 0)
  }

  /** `[...categories].sort((a, b) => b.count - a.count)`: a new list; the
      input is a value and stays as it was. */
  function SortedCategories(categories: seq<Category>): (r: seq<Category>)
    ensures |r| == |categories| && multiset(r) == multiset(categories)
    ensures forall i, j :: 0 <= i < j < |r| ==> r[i].count >= r[j].count
  {
    var r := SortDesc(categories, CountRank);
    assert forall i, j :: 0 <= i < j < |r| ==> AtLeast(CountRank(r[i]), CountRank(r[j]));
    r
  }

  datatype Style = Gold | Silver | Bronze | Neutral

  /** The rank bubble's colour by row index. */
  function RankStyle(index: nat): (s: Style)
    ensures index == 0 <==> s == Gold
    ensures index == 1 <==> s == Silver
    ensures index == 2 <==> s == Bronze
    ensures index >= 3 <==> s == Neutral
  {
    if index == 0 then Gold else if index == 1 then Silver else if index == 2 then Bronze else Neutral
  }

  datatype Row = Row(rank: nat, style: Style, category: Category, href: string)

  /** The table body: one row per category in sorted order, numbered from 1. */
  function Rows(categories: seq<Category>): (rows: seq<Row>)
    ensures |rows| == |categories|
    ensures forall i :: 0 <= i < |rows| ==> rows[i].rank == i + 1 && rows[i].style == RankStyle(i)
    ensures forall i :: 0 <= i < |rows| ==> rows[i].category == SortedCategories(categories)[i]
    ensures forall i :: 0 <= i < |rows| ==> rows[i].href == "/categories/" + rows[i].category.slug
  {
    var sorted := SortedCategories(categories);
    seq(|sorted|, i requires 0 <= i < |sorted| =>
      Row(i + 1, RankStyle(i), sorted[i], "/categories/" + sorted[i].slug))
  }

  function RowCategories(rows: seq<Row>): (cs: seq<Category>)
    ensures |cs| == |rows| && forall i :: 0 <= i < |rows| ==> cs[i] == rows[i].category
  {
    if rows == [] then [] else [rows[0].category] + RowCategories(rows[1..])
  }

  /** Every category gets exactly one row, and the counts read downwards
      never increase. */
  lemma RowsRankEveryCategory(categories: seq<Category>)
    ensures multiset(RowCategories(Rows(categories))) == multiset(categories)
    ensures forall i, j :: 0 <= i < j < |Rows(categories)| ==> Rows(categories)[i].category.count >= Rows(categories)[j].category.count
  {
    assert RowCategories(Rows(categories)) == SortedCategories(categories);
  }

  /** Re-sorting the table's order changes nothing. */
  lemma SortedCategoriesStable(categories: seq<Category>)
    ensures SortedCategories(SortedCategories(categories)) == SortedCategories(categories)
  {
    SortDescIdempotent(categories, CountRank);
  }
}
