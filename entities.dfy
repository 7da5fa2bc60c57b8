/** The records the backend serves and the pages pass around. Timestamps
    are abstract instants (larger is later); an optional field the source
    reads with `|| fallback` is an `Option`. */
module Entities {
  import opened Wrappers

  datatype User = User(id: int, username: string)

  /** A category; an absent slug is the empty string. */
  datatype Category = Category(id: int, name: string, slug: string, count: int)

  /** A tag; the backend may omit `count`. */
  datatype Tag = Tag(id: int, name: string, slug: string, count: Option<int>)

  datatype Comment = Comment(id: int, user: User, content: string, createdAt: int)

  datatype Post = Post(
    id: int,
    title: string,
    slug: string,
    content: string,
    excerpt: string,
    isDraft: bool,
    isPublished: bool,
    isArchived: bool,
    category: Option<Category>,
    tags: seq<Tag>,
    publishedAt: Option<int>,
    createdAt: int,
    viewCount: Option<int>,
    likesCount: Option<int>)

  /** A bookmark row as the favourites page receives it. */
  datatype Bookmark = Bookmark(id: int, slug: string, title: string, createdAt: int, post: Option<Post>)

  /** A browser `File`: its name, and a handle standing for its bytes. */
  datatype File = File(name: string, handle: nat)

  /** A notification shown by the toast provider. */
  datatype ToastKind = Success | Failure
  datatype Toast = Toast(message: string, kind: ToastKind)

  /** `x || 0` on an optional count. */
  function OrZero(n: Option<int>): int {
    if n.Some? then n.value else 0
  }
}
