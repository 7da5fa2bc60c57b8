/** The admin page that lists every post and switches a post between
    draft, published and archived. The list request and the status update
    are outcomes passed in by the caller. */
module ManagePage {
  import opened Wrappers
  import opened Entities
  import PostManageTable

  datatype StatusKind = ToDraft | ToPublish | ToArchive

  /** The status payload sent to the server. */
  datatype Status = Status(isDraft: bool, isPublished: bool, isArchived: bool)

  function FlagCount(s: Status): nat {
    (if s.isDraft then 1 else 0) + (if s.isPublished then 1 else 0) + (if s.isArchived then 1 else 0)
  }

  /** The payload `handleToggleStatus` sends: exactly the requested flag is
      set. */
  function StatusFor(kind: StatusKind): (s: Status)
    ensures FlagCount(s) == 1
    ensures s.isDraft <==> kind == ToDraft
    ensures s.isPublished <==> kind == ToPublish
    ensures s.isArchived <==> kind == ToArchive
  {
    match kind
    case ToDraft => Status(true, false, false)
    case ToPublish => Status(false, true, false)
    case ToArchive => Status(false, false, true)
  }

  /** Once a post has taken the status a button requested, the table
      disables exactly that button. */
  lemma ToggledRowDisablesOnlyItsButton(p: Post, kind: StatusKind)
    ensures var s := StatusFor(kind);
      var row := PostManageTable.RowFor(p.(isDraft := s.isDraft, isPublished := s.isPublished, isArchived := s.isArchived));
      (row.publishDisabled <==> kind == ToPublish) &&
      (row.draftDisabled <==> kind == ToDraft) &&
      (row.archiveDisabled <==> kind == ToArchive)
  {
  }

  const LoadFailedToast: Toast := Toast("載入文章失敗", Failure)
  const UpdatedToast: Toast := Toast("狀態更新成功", Success)
  const UpdateFailedToast: Toast := Toast("更新失敗", Failure)

  class Manager {
    var posts: seq<Post>
    var loading: bool
    /** The toasts shown so far, oldest first. */
    var toasts: seq<Toast>

    constructor()
      ensures posts == [] && loading && toasts == []
    {
      posts, loading, toasts := [], true, [];
    }

    /** `fetchPosts`: replaces the list on success, shows an error toast
        on failure, and clears `loading` either way. */
    method FetchPosts(outcome: Result<seq<Post>>)
      modifies this
      ensures !loading
      ensures outcome.Ok? ==> posts == outcome.value && toasts == old(toasts)
      ensures outcome.Err? ==> posts == old(posts) && toasts == old(toasts) + [LoadFailedToast]
    {
      if outcome.Ok? {
        posts := outcome.value;
      } else {
        toasts := toasts + [LoadFailedToast];
      }
      loading := false;
    }

    /** `handleToggleStatus`: sends the status payload; only a successful
        update refetches the list. */
    method HandleToggleStatus(slug: string, kind: StatusKind, update: Result<()>, refetch: Result<seq<Post>>)
      returns (request: (string, Status), refetched: bool)
      modifies this
      ensures request == (slug, StatusFor(kind))
      ensures refetched <==> update.Ok?
      ensures update.Ok? ==>
        !loading &&
        posts == (if refetch.Ok? then refetch.value else old(posts)) &&
        toasts == old(toasts) + [UpdatedToast] + (if refetch.Ok? then [] else [LoadFailedToast])
      ensures update.Err? ==>
        posts == old(posts) && loading == old(loading) && toasts == old(toasts) + [UpdateFailedToast]
    {
      request := (slug, StatusFor(kind));
      if update.Ok? {
        toasts := toasts + [UpdatedToast];
        FetchPosts(refetch);
        refetched := true;
      } else {
        toasts := toasts + [UpdateFailedToast];
        refetched := false;
      }
    }

    /** The page shows a spinner while loading, the table afterwards. */
    function Screen(): (t: Option<PostManageTable.Table>)
      reads this
      ensures t.None? <==> loading
      ensures t.Some? ==> |t.value.rows| == |posts| && (t.value.emptyMessage.Some? <==> posts == [])
    {
      if loading then None else Some(PostManageTable.Render(posts))
    }
  }
}
