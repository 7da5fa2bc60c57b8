/** The comment list under a post: posting, deleting and editing comments.
    Each request's outcome is passed in; a failure carries the error's
    message. */
module CommentSection {
  import opened Wrappers
  import opened Strings
  import opened Entities
  import opened Seqs
  import PostService

  const Posted: Toast := Toast("留言發送成功", Success)
  const Deleted: Toast := Toast("留言已刪除", Success)
  const Updated: Toast := Toast("留言更新成功", Success)

  /** `error.message || fallback` as a failure toast. */
  function FailureToast(message: string, fallback: string): (t: Toast)
    ensures t.kind == Failure
    ensures message != "" ==> t.message == message
    ensures message == "" ==> t.message == fallback
  {
    Toast(if message != "" then message else fallback, Failure)
  }

  /** A rejected `deleteComment` throws its fixed message, which is
      non-empty, so the toast shows that message and not the fallback. */
  lemma FailedDeleteShowsServiceMessage()
    ensures FailureToast(PostService.DeleteCommentError, "刪除失敗") == Toast("刪除留言失敗", Failure)
  {
  }

  /** `comments.filter(c => c.id !== id)`. */
  function RemoveComment(comments: seq<Comment>, id: int): (r: seq<Comment>)
    ensures |r| <= |comments|
    ensures forall k :: 0 <= k < |r| ==> r[k].id != id && r[k] in comments
    ensures forall k :: 0 <= k < |comments| && comments[k].id != id ==> comments[k] in r
  {
    Filter(comments, (c: Comment) => c.id != id)
  }

  /** The survivors keep their order: removing from a concatenation
      removes from each part. */
  lemma RemoveCommentAppend(a: seq<Comment>, b: seq<Comment>, id: int)
    ensures RemoveComment(a + b, id) == RemoveComment(a, id) + RemoveComment(b, id)
  {
    FilterAppend(a, b, (c: Comment) => c.id != id);
  }

  /** A single comment survives, once, exactly when its id differs. */
  lemma RemoveCommentOne(c: Comment, id: int)
    ensures RemoveComment([c], id) == if c.id != id then [c] else []
  {
  }

  /** `comments.map(c => c.id === id ? updated : c)`. */
  function ReplaceComment(comments: seq<Comment>, id: int, updated: Comment): (r: seq<Comment>)
    ensures |r| == |comments|
    ensures forall k :: 0 <= k < |r| ==> r[k] == if comments[k].id == id then updated else comments[k]
  {
    seq(|comments|, k requires 0 <= k < |comments| => if comments[k].id == id then updated else comments[k])
  }

  /** Replacing an id nobody has changes nothing. */
  lemma ReplaceAbsentId(comments: seq<Comment>, id: int, updated: Comment)
    requires forall k :: 0 <= k < |comments| ==> comments[k].id != id
    ensures ReplaceComment(comments, id, updated) == comments
  {
  }

  /** Edit and delete controls appear only on the reader's own comments. */
  predicate CanModify(user: Option<User>, c: Comment) {
    user.Some? && user.value.id == c.user.id
  }

  class CommentBox {
    const postId: int
    var comments: seq<Comment>
    var content: string
    var isSubmitting: bool
    var editingId: Option<int>
    var editContent: string
    var toasts: seq<Toast>

    constructor(postId: int, initialComments: seq<Comment>)
      ensures this.postId == postId && comments == initialComments
      ensures content == "" && !isSubmitting && editingId.None? && editContent == "" && toasts == []
    {
      this.postId := postId;
      comments := initialComments;
      content, isSubmitting, editingId, editContent, toasts := "", false, None, "", [];
    }

    method TypeComment(text: string)
      modifies this`content
      ensures content == text
    {
      content := text;
    }

    /** Nothing is sent for blank text, without a signed-in user, or
        without a post id. */
    predicate CanSubmit(user: Option<User>)
      reads this
    {
      Trim(content) != "" && user.Some? && postId != 0
    }

    /** `handleSubmit`: a new comment goes to the front of the list and
        the input is cleared; a failure changes neither. */
    method Submit(user: Option<User>, outcome: Result<Comment>) returns (sent: bool)
      modifies this`comments, this`content, this`isSubmitting, this`toasts
      ensures sent <==> old(CanSubmit(user))
      ensures !sent ==>
        comments == old(comments) && content == old(content) &&
        isSubmitting == old(isSubmitting) && toasts == old(toasts)
      ensures sent && outcome.Ok? ==>
        comments == [outcome.value] + old(comments) && content == "" && toasts == old(toasts) + [Posted]
      ensures sent && outcome.Err? ==>
        comments == old(comments) && content == old(content) &&
        toasts == old(toasts) + [FailureToast(outcome.message, "留言發送失敗")]
      ensures sent ==> !isSubmitting
    {
      if !CanSubmit(user) {
        return false;
      }
      isSubmitting := true;
      if outcome.Ok? {
        comments := [outcome.value] + comments;
        content := "";
        toasts := toasts + [Posted];
      } else {
        toasts := toasts + [FailureToast(outcome.message, "留言發送失敗")];
      }
      isSubmitting := false;
      sent := true;
    }

    /** `handleDelete`: only after confirmation; a successful delete drops
        the entries with that id and keeps the rest in order. */
    method Delete(id: int, confirmed: bool, outcome: Result<()>) returns (sent: bool)
      modifies this`comments, this`toasts
      ensures sent <==> confirmed
      ensures !confirmed ==> comments == old(comments) && toasts == old(toasts)
      ensures confirmed && outcome.Ok? ==>
        comments == RemoveComment(old(comments), id) && toasts == old(toasts) + [Deleted]
      ensures confirmed && outcome.Err? ==>
        comments == old(comments) && toasts == old(toasts) + [FailureToast(outcome.message, "刪除失敗")]
    {
      if !confirmed {
        return false;
      }
      if outcome.Ok? {
        comments := RemoveComment(comments, id);
        toasts := toasts + [Deleted];
      } else {
        toasts := toasts + [FailureToast(outcome.message, "刪除失敗")];
      }
      sent := true;
    }

    /** `startEditing`: opens the editor on that comment with its text. */
    method StartEditing(c: Comment)
      modifies this`editingId, this`editContent
      ensures editingId == Some(c.id) && editContent == c.content
    {
      editingId, editContent := Some(c.id), c.content;
    }

    method TypeEdit(text: string)
      modifies this`editContent
      ensures editContent == text
    {
      editContent := text;
    }

    method CancelEditing()
      modifies this`editingId
      ensures editingId.None?
    {
      editingId := None;
    }

    /** `handleUpdate`: blank text sends nothing; success replaces the
        entries with that id, keeps the length and closes the editor; a
        failure keeps everything. */
    method Update(id: int, outcome: Result<Comment>) returns (sent: bool)
      modifies this`comments, this`editingId, this`toasts
      ensures sent <==> Trim(editContent) != ""
      ensures !sent ==> comments == old(comments) && editingId == old(editingId) && toasts == old(toasts)
      ensures sent && outcome.Ok? ==>
        comments == ReplaceComment(old(comments), id, outcome.value) && |comments| == |old(comments)| &&
        editingId.None? && toasts == old(toasts) + [Updated]
      ensures sent && outcome.Err? ==>
        comments == old(comments) && editingId == old(editingId) &&
        toasts == old(toasts) + [FailureToast(outcome.message, "更新失敗")]
    {
      sent := Trim(editContent) != "";
      if !sent {
        return;
      }
      if outcome.Ok? {
        comments := ReplaceComment(comments, id, outcome.value);
        editingId := None;
        toasts := toasts + [Updated];
      } else {
        toasts := toasts + [FailureToast(outcome.message, "更新失敗")];
      }
    }
  }
}
