/** The home page: the published posts newest first, five to a page, and a
    sidebar of the five most popular. Timestamps are abstract integers. */
module HomePage {
  import opened Wrappers
  import opened Entities
  import opened Seqs
  import opened Ranking

  const PostsPerPage: nat := 5
  const EmptyNotice: string := "目前沒有文章"

  /** `published_at || created_at`. */
  function Timestamp(p: Post): int {
    if p.publishedAt.Some? then p.publishedAt.value else p.createdAt
  }

  function DateKey(p: Post): Rank {
    Rank(Timestamp(p), 0)
  }

  /** View count first, likes to break ties; a missing count is 0. */
  function PopularityKey(p: Post): Rank {
    Rank(OrZero(p.viewCount), OrZero(p.likesCount))
  }

  /** `sortedByDate`: a reordered copy of the posts, newest first. */
  function SortedByDate(posts: seq<Post>): (r: seq<Post>)
    ensures |r| == |posts| && multiset(r) == multiset(posts)
    ensures forall i, j :: 0 <= i < j < |r| ==> Timestamp(r[i]) >= Timestamp(r[j])
  {
    var r := SortDesc(posts, DateKey);
    assert forall i, j :: 0 <= i < j < |r| ==> AtLeast(DateKey(r[i]), DateKey(r[j]));
    r
  }

  /** `sortedByPopularity`: a reordered copy, by views and then likes,
      both descending. */
  function SortedByPopularity(posts: seq<Post>): (r: seq<Post>)
    ensures |r| == |posts| && multiset(r) == multiset(posts)
    ensures forall i, j :: 0 <= i < j < |r| ==>
      OrZero(r[i].viewCount) > OrZero(r[j].viewCount) ||
      (OrZero(r[i].viewCount) == OrZero(r[j].viewCount) && OrZero(r[i].likesCount) >= OrZero(r[j].likesCount))
  {
    var r := SortDesc(posts, PopularityKey);
    assert forall i, j :: 0 <= i < j < |r| ==> AtLeast(PopularityKey(r[i]), PopularityKey(r[j]));
    r
  }

  /** `trendingPosts`: the first five of the popularity order. */
  function Trending(posts: seq<Post>): (r: seq<Post>)
    ensures |r| == Min(5, |posts|)
    ensures r == SortedByPopularity(posts)[..|r|]
  {
    JsSlice(SortedByPopularity(posts), 0, 5)
  }

  /** `Math.ceil(n / 5)`. */
  function TotalPages(n: nat): (t: nat)
    ensures t * PostsPerPage >= n
    ensures t > 0 ==> (t - 1) * PostsPerPage < n
    ensures t == 0 <==> n == 0
  {
    (n + PostsPerPage - 1) / PostsPerPage
  }

  /** Page `p` of a list: `slice((p - 1) * 5, (p - 1) * 5 + 5)`. */
  function PageOf<T>(list: seq<T>, p: int): seq<T> {
    JsSlice(list, (p - 1) * PostsPerPage, (p - 1) * PostsPerPage + PostsPerPage)
  }

  /** Every page in range holds between one and five consecutive items. */
  lemma PageShape<T>(list: seq<T>, p: int)
    requires 1 <= p <= TotalPages(|list|)
    ensures PageOf(list, p) == list[(p - 1) * PostsPerPage..Min(p * PostsPerPage, |list|)]
    ensures 1 <= |PageOf(list, p)| <= PostsPerPage
  {
  }

  /** The page the home page shows: page 1 of an empty list is empty, and
      any page in range holds one to five items of the list. */
  lemma CurrentPageShape<T>(list: seq<T>, p: int)
    requires 1 <= p && (p == 1 || p <= TotalPages(|list|))
    ensures |PageOf(list, p)| <= PostsPerPage
    ensures PageOf(list, p) == [] <==> list == []
    ensures forall k :: 0 <= k < |PageOf(list, p)| ==> PageOf(list, p)[k] in list
  {
    if list != [] {
      PageShape(list, p);
    }
  }

  /** Pages `p` through `last`, concatenated. */
  function PagesFrom<T>(list: seq<T>, p: nat, last: nat): seq<T>
    decreases last + 1 - p
  {
    if p == 0 || p > last then [] else PageOf(list, p) + PagesFrom(list, p + 1, last)
  }

  lemma {:induction false} PagesFromSuffix<T>(list: seq<T>, p: nat)
    requires 1 <= p && (p - 1) * PostsPerPage <= |list|
    ensures PagesFrom(list, p, TotalPages(|list|)) == list[(p - 1) * PostsPerPage..]
    decreases |list| - (p - 1) * PostsPerPage
  {
    var last := TotalPages(|list|);
    if p > last {
      assert (p - 1) * PostsPerPage >= |list|;
    } else {
      PageShape(list, p);
      if p * PostsPerPage <= |list| {
        PagesFromSuffix(list, p + 1);
        assert list[(p - 1) * PostsPerPage..] ==
          list[(p - 1) * PostsPerPage..p * PostsPerPage] + list[p * PostsPerPage..];
      } else {
        assert p + 1 > last;
      }
    }
  }

  /** The pages partition the list: pages 1 to `totalPages`, concatenated,
      give back the whole list in order. */
  lemma PagesPartition<T>(list: seq<T>)
    ensures PagesFrom(list, 1, TotalPages(|list|)) == list
  {
    PagesFromSuffix(list, 1);
  }

  class Home {
    var posts: seq<Post>
    var loading: bool
    var currentPage: int

    ghost predicate Valid()
      reads this
    {
      1 <= currentPage && (currentPage == 1 || currentPage <= TotalPages(|posts|)) &&
      (loading ==> currentPage == 1)
    }

    constructor()
      ensures Valid() && posts == [] && loading && currentPage == 1
    {
      posts, loading, currentPage := [], true, 1;
    }

    /** The mount effect: keeps the published posts on success, the empty
        list on failure, and leaves the loading state either way. */
    method LoadPosts(outcome: Result<seq<Post>>)
      requires Valid() && loading
      modifies this`posts, this`loading
      ensures Valid() && !loading
      ensures posts == if outcome.Ok? then outcome.value else old(posts)
    {
      if outcome.Ok? {
        posts := outcome.value;
      }
      loading := false;
    }

    predicate ControlsShown()
      reads this
    {
      !loading && TotalPages(|posts|) > 1
    }

    predicate PrevDisabled()
      reads this
    {
      currentPage == 1
    }

    predicate NextDisabled()
      reads this
    {
      currentPage == TotalPages(|posts|)
    }

    method ClickPrev()
      requires Valid()
      modifies this`currentPage
      ensures Valid()
      ensures currentPage ==
        if old(ControlsShown()) && !old(PrevDisabled()) then old(currentPage) - 1 else old(currentPage)
    {
      if ControlsShown() && !PrevDisabled() {
        currentPage := currentPage - 1;
      }
    }

    method ClickNext()
      requires Valid()
      modifies this`currentPage
      ensures Valid()
      ensures currentPage ==
        if old(ControlsShown()) && !old(NextDisabled()) then old(currentPage) + 1 else old(currentPage)
    {
      if ControlsShown() && !NextDisabled() {
        currentPage := currentPage + 1;
      }
    }

    /** The cards of the current page; the "no posts" notice shows exactly
        when there are no posts at all. */
    function CurrentPagePosts(): (r: seq<Post>)
      requires Valid()
      reads this
      ensures |r| <= PostsPerPage
      ensures r == [] <==> posts == []
      ensures forall k :: 0 <= k < |r| ==> r[k] in multiset(posts)
      ensures r == PageOf(SortedByDate(posts), currentPage)
    {
      var sorted := SortedByDate(posts);
      CurrentPageShape(sorted, currentPage);
      var r := PageOf(sorted, currentPage);
      assert forall k :: 0 <= k < |r| ==> r[k] in multiset(sorted);
      r
    }
  }
}
