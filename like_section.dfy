/** The like button: an optimistic toggle that is confirmed or rolled back
    by the server, and a status sync when the post is shown. */
module LikeSection {
  import opened Wrappers

  /** The server's answer: whether the reader likes the post, and the count. */
  datatype LikeStatus = LikeStatus(liked: bool, likesCount: int)

  /** The state shown right after a click, before the server answers. */
  function Optimistic(liked: bool, likes: int): (r: (bool, int))
    ensures r.0 == !liked
    ensures r.1 == likes + 1 || r.1 == likes - 1
    ensures r.1 > likes <==> r.0
  {
    var now := !liked;
    (now, if now then likes + 1 else likes - 1)
  }

  /** Two optimistic toggles cancel out. */
  lemma OptimisticTwiceRestores(liked: bool, likes: int)
    ensures var once := Optimistic(liked, likes); Optimistic(once.0, once.1) == (liked, likes)
  {
  }

  class LikeButton {
    var likes: int
    var liked: bool
    var isLoading: bool
    /** The values captured when the pending click started. */
    var previousLiked: bool
    var previousLikes: int

    constructor(initialLikes: int, isLiked: bool)
      ensures likes == initialLikes && liked == isLiked && !isLoading
    {
      likes, liked, isLoading := initialLikes, isLiked, false;
      previousLiked, previousLikes := isLiked, initialLikes;
    }

    /** The mount sync: the server's status replaces the props' values;
        when the request fails they stay. */
    method Sync(outcome: Result<LikeStatus>)
      modifies this`liked, this`likes
      ensures outcome.Ok? ==> liked == outcome.value.liked && likes == outcome.value.likesCount
      ensures outcome.Err? ==> liked == old(liked) && likes == old(likes)
    {
      if outcome.Ok? {
        liked, likes := outcome.value.liked, outcome.value.likesCount;
      }
    }

    /** The button is disabled while a click is pending. */
    predicate Disabled()
      reads this
    {
      isLoading
    }

    /** The first half of `handleLike`: ignored while loading; otherwise
        remembers the current values, shows the optimistic state and sends
        the toggle. */
    method Click() returns (sent: bool)
      modifies this
      ensures sent <==> !old(isLoading)
      ensures !sent ==>
        liked == old(liked) && likes == old(likes) && isLoading &&
        previousLiked == old(previousLiked) && previousLikes == old(previousLikes)
      ensures sent ==>
        isLoading && (liked, likes) == Optimistic(old(liked), old(likes)) &&
        previousLiked == old(liked) && previousLikes == old(likes)
    {
      if isLoading {
        return false;
      }
      isLoading := true;
      previousLiked, previousLikes := liked, likes;
      var newLiked := !liked;
      liked := newLiked;
      likes := if newLiked then likes + 1 else likes - 1;
      sent := true;
    }

    /** The second half: the server's values on success, the remembered
        ones on failure, and the button enabled again either way. */
    method Resolve(outcome: Result<LikeStatus>)
      requires isLoading
      modifies this`liked, this`likes, this`isLoading
      ensures !isLoading
      ensures outcome.Ok? ==> liked == outcome.value.liked && likes == outcome.value.likesCount
      ensures outcome.Err? ==> liked == previousLiked && likes == previousLikes
    {
      if outcome.Ok? {
        liked, likes := outcome.value.liked, outcome.value.likesCount;
      } else {
        liked, likes := previousLiked, previousLikes;
      }
      isLoading := false;
    }
  }
}
