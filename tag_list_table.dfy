/** The tags ranking table: tags by post count, most first, a missing
    count counting as zero. */
module TagListTable {
  import opened Wrappers
  import opened Entities
  import opened Ranking

  function CountRank(t: Tag): Rank {
    Rank(OrZero(t.count), 0)
  }

  /** `[...tags].sort((a, b) => (b.count || 0) - (a.count || 0))`. */
  function SortedTags(tags: seq<Tag>): (r: seq<Tag>)
    ensures |r| == |tags| && multiset(r) == multiset(tags)
    ensures forall i, j :: 0 <= i < j < |r| ==> OrZero(r[i].count) >= OrZero(r[j].count)
  {
    var r := SortDesc(tags, CountRank);
    assert forall i, j :: 0 <= i < j < |r| ==> AtLeast(CountRank(r[i]), CountRank(r[j]));
    r
  }

  datatype Row = Row(rank: nat, tag: Tag, href: string, count: int)

  datatype Table = Table(header: nat, rows: seq<Row>)

  /** The header shows how many tags there are; each row its rank from 1
      and its count, zero when missing. */
  function Render(tags: seq<Tag>): (t: Table)
    ensures t.header == |tags| && |t.rows| == |tags|
    ensures forall i :: 0 <= i < |t.rows| ==>
      && t.rows[i].rank == i + 1
      && t.rows[i].tag == SortedTags(tags)[i]
      && t.rows[i].count == OrZero(t.rows[i].tag.count)
      && t.rows[i].href == "/tags/" + t.rows[i].tag.slug
  {
    var sorted := SortedTags(tags);
    Table(|tags|, seq(|sorted|, i requires 0 <= i < |sorted| =>
      Row(i + 1, sorted[i], "/tags/" + sorted[i].slug, OrZero(sorted[i].count))))
  }

  /** A tag without a count sorts as if it had zero: below every tag with
      a positive count. */
  lemma MissingCountSortsLast(tags: seq<Tag>, i: nat, j: nat)
    requires i < |SortedTags(tags)| && j < |SortedTags(tags)|
    requires SortedTags(tags)[i].count.None?
    requires OrZero(SortedTags(tags)[j].count) > 0
    ensures j < i
  {
  }

  lemma SortedTagsStable(tags: seq<Tag>)
    ensures SortedTags(SortedTags(tags)) == SortedTags(tags)
  {
    SortDescIdempotent(tags, CountRank);
  }
}
