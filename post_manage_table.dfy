/** The admin table of posts: a truncated title, the category and tag
    chips, the status badges and three status buttons, each disabled when
    the post already has that status. */
module PostManageTable {
  import opened Wrappers
  import opened Strings
  import opened Entities
  import opened Seqs

  const TitleLimit: nat := 15
  const NoCategory: string := "未分類"
  const EmptyMessage: string := "目前沒有任何文章。"

  /** `truncateTitle`: a title longer than 15 characters is cut to 15 and
      marked with `...`. */
  function TruncateTitle(title: string): (r: string)
    ensures |title| <= TitleLimit ==> r == title
    ensures |title| > TitleLimit ==> r == title[..TitleLimit] + "..."
    ensures |r| <= TitleLimit + 3
    ensures r[..Min(TitleLimit, |title|)] == title[..Min(TitleLimit, |title|)]
  {
    if |title| > TitleLimit then title[..TitleLimit] + "..." else title
  }

  datatype Badge = PublishedBadge | DraftBadge | ArchivedBadge

  datatype Row = Row(
    title: string,
    slug: string,
    categoryLabel: string,
    tagLabels: seq<string>,
    badges: seq<Badge>,
    publishDisabled: bool,
    draftDisabled: bool,
    archiveDisabled: bool,
    viewHref: string,
    editHref: string)

  /** `post.category?.name || "未分類"`. */
  function CategoryLabel(p: Post): (r: string)
    ensures r != ""
    ensures p.category.Some? && p.category.value.name != "" ==> r == p.category.value.name
    ensures p.category.None? || p.category.value.name == "" ==> r == NoCategory
  {
    if p.category.Some? && p.category.value.name != "" then p.category.value.name else NoCategory
  }

  function RowFor(p: Post): (row: Row)
    ensures row.publishDisabled <==> p.isPublished
    ensures row.draftDisabled <==> p.isDraft
    ensures row.archiveDisabled <==> p.isArchived
    ensures (PublishedBadge in row.badges <==> p.isPublished) && (DraftBadge in row.badges <==> p.isDraft) &&
      (ArchivedBadge in row.badges <==> p.isArchived)
    ensures |row.tagLabels| == |p.tags| && forall i :: 0 <= i < |p.tags| ==> row.tagLabels[i] == "#" + p.tags[i].name
    ensures row.title == TruncateTitle(p.title) && row.categoryLabel == CategoryLabel(p)
  {
    Row(
      TruncateTitle(p.title),
      p.slug,
      CategoryLabel(p),
      seq(|p.tags|, i requires 0 <= i < |p.tags| => "#" + p.tags[i].name),
      (if p.isPublished then [PublishedBadge] else []) + (if p.isDraft then [DraftBadge] else []) +
        (if p.isArchived then [ArchivedBadge] else []),
      p.isPublished,
      p.isDraft,
      p.isArchived,
      "/posts/" + p.slug,
      "/admin/write?edit=" + p.slug)
  }

  datatype Table = Table(rows: seq<Row>, emptyMessage: Option<string>)

  /** One row per post, in order; the empty message iff there are no posts. */
  function Render(posts: seq<Post>): (t: Table)
    ensures |t.rows| == |posts| && forall i :: 0 <= i < |posts| ==> t.rows[i] == RowFor(posts[i])
    ensures t.emptyMessage.Some? <==> posts == []
  {
    Table(seq(|posts|, i requires 0 <= i < |posts| => RowFor(posts[i])),
      if |posts| == 0 then Some(EmptyMessage) else None)
  }
}
