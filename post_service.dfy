/** The post service: the published-post filter, the featured post, the
    upload form and the error messages its failed requests carry. The
    `fetch` calls themselves are outcomes supplied by the caller. */
module PostService {
  import opened Wrappers
  import opened Json
  import opened Entities
  import opened Seqs

  /** One value of a `FormData`: a string or a file. */
  datatype FormValue = Text(s: string) | Blob(file: File)

  /** A `FormData`: its entries in `append` order. */
  type Form = seq<(string, FormValue)>

  /** `FormData.getAll(key)`: the values appended under `key`, in order. */
  function GetAll(form: Form, key: string): (r: seq<FormValue>)
    ensures |r| <= |form|
    ensures (forall k :: 0 <= k < |form| ==> form[k].0 != key) ==> r == []
  {
    if form == [] then []
    else (if form[0].0 == key then [form[0].1] else []) + GetAll(form[1..], key)
  }

  /** Appending entries only adds values at the end of `getAll`. */
  lemma {:induction false} GetAllAppend(a: Form, b: Form, key: string)
    ensures GetAll(a + b, key) == GetAll(a, key) + GetAll(b, key)
  {
    if a == [] {
      assert a + b == b;
    } else {
      var ab := a + b;
      var first: seq<FormValue> := if a[0].0 == key then [a[0].1] else [];
      assert ab[0] == a[0] && ab[1..] == a[1..] + b;
      GetAllAppend(a[1..], b, key);
      assert GetAll(ab, key) == first + GetAll(a[1..] + b, key);
      assert GetAll(a, key) == first + GetAll(a[1..], key);
    }
  }

  /** A key appended exactly once yields exactly that value. */
  lemma {:induction false} GetAllUnique(form: Form, key: string, i: nat)
    requires i < |form| && form[i].0 == key
    requires forall j :: 0 <= j < |form| && j != i ==> form[j].0 != key
    ensures GetAll(form, key) == [form[i].1]
  {
    if i > 0 {
      GetAllUnique(form[1..], key, i - 1);
    } else {
      assert GetAll(form[1..], key) == [];
    }
  }

  /** `viewPost`: a failed view-count request is only logged, so the call
      itself always completes normally. */
  function ViewPost(outcome: Result<()>): (r: Result<()>)
    ensures r.Ok?
    ensures outcome.Ok? ==> r == outcome
  {
    if outcome.Ok? then outcome else Ok(())
  }

  /** A post the public listing shows. */
  predicate IsPublic(p: Post) {
    p.isPublished && !p.isDraft
  }

  /** `getPublishedPosts`: the fetched posts that are published and not drafts. */
  function PublishedPosts(posts: seq<Post>): (r: seq<Post>)
    ensures forall p :: p in r <==> p in posts && IsPublic(p)
    ensures |r| <= |posts|
  {
    Filter(posts, IsPublic)
  }

  /** The filter keeps the backend's order: filtering a concatenation
      concatenates the filtered parts. */
  lemma PublishedPostsAppend(a: seq<Post>, b: seq<Post>)
    ensures PublishedPosts(a + b) == PublishedPosts(a) + PublishedPosts(b)
  {
    FilterAppend(a, b, IsPublic);
  }

  /** `getFeaturedPost`: the first published post, or `null`. */
  function FeaturedPost(posts: seq<Post>): (r: Option<Post>)
    ensures r.None? <==> forall k :: 0 <= k < |posts| ==> !IsPublic(posts[k])
    ensures r.Some? ==>
      exists k :: 0 <= k < |posts| && posts[k] == r.value && IsPublic(posts[k]) &&
        forall j :: 0 <= j < k ==> !IsPublic(posts[j])
  {
    FilterFirst(posts, IsPublic);
    var published := PublishedPosts(posts);
    if |published| > 0 then Some(published[0]) else None
  }

  /** `errorData.detail || fallback` as an `Error` message (`String(v)`). */
  function DetailOr(body: Fields, fallback: string): (msg: string)
    ensures Present(Get(body, "detail")) ==> msg == ToText(Get(body, "detail").value)
    ensures !Present(Get(body, "detail")) ==> msg == fallback
  {
    var detail := Get(body, "detail");
    if Present(detail) then ToText(detail.value) else fallback
  }

  /** The message of a failed `createPost`. */
  function CreatePostError(body: Fields): (msg: string)
    ensures Present(Get(body, "detail")) ==> msg == ToText(Get(body, "detail").value)
    ensures !Present(Get(body, "detail")) ==> msg == "發布文章失敗"
    ensures body == [] ==> msg == "發布文章失敗"
  {
    DetailOr(body, "發布文章失敗")
  }

  /** `v?.[0]`: the element at index 0 of an array, string or object, or
      `undefined` for anything else (and for `null`/`undefined` themselves). */
  function FirstElement(v: Option<Json>): (r: Option<Json>)
    ensures v.Some? && v.value.JArr? && |v.value.items| > 0 ==> r == Some(v.value.items[0])
    ensures v.None? || v.value.JNull? || v.value.JBool? || v.value.JNum? ==> r.None?
  {
    if v.None? then None
    else match v.value
      case JArr(items) => if |items| > 0 then Some(items[0]) else None
      case JStr(s) => if |s| > 0 then Some(JStr([s[0]])) else None
      case JObj(fields) => Get(fields, "0")
      case _ => None
  }

  /** The message of a failed `createComment`: the first validation error
      on `content`, else `detail`, else the generic text. */
  function CreateCommentError(body: Fields): (msg: string)
    ensures Present(FirstElement(Get(body, "content"))) ==>
      msg == ToText(FirstElement(Get(body, "content")).value)
    ensures !Present(FirstElement(Get(body, "content"))) ==> msg == DetailOr(body, "留言發送失敗")
  {
    var first := FirstElement(Get(body, "content"));
    if Present(first) then ToText(first.value) else DetailOr(body, "留言發送失敗")
  }

  /** A validation error on `content` wins over `detail`. */
  lemma ContentErrorWins(e: string, d: string)
    requires e != ""
    ensures CreateCommentError([("detail", JStr(d)), ("content", JArr([JStr(e)]))]) == e
  {
    var body := [("detail", JStr(d)), ("content", JArr([JStr(e)]))];
    assert Get(body, "content") == Some(JArr([JStr(e)]));
  }

  /** The messages of the other failing requests. */
  function UpdateCommentError(body: Fields): (msg: string)
    ensures Present(Get(body, "detail")) ==> msg == ToText(Get(body, "detail").value)
    ensures !Present(Get(body, "detail")) ==> msg == "更新留言失敗"
  {
    DetailOr(body, "更新留言失敗")
  }

  function UploadImageError(body: Fields): (msg: string)
    ensures Present(Get(body, "detail")) ==> msg == ToText(Get(body, "detail").value)
    ensures !Present(Get(body, "detail")) ==> msg == "圖片上傳失敗"
  {
    DetailOr(body, "圖片上傳失敗")
  }

  const UpdatePostError: string := "更新文章失敗"
  const DeleteCommentError: string := "刪除留言失敗"

  /** The form `uploadImage` posts: the image, and the slug only when it
      is non-empty. */
  function UploadForm(file: File, slug: string): (form: Form)
    ensures GetAll(form, "image") == [Blob(file)]
    ensures GetAll(form, "slug") == if slug != "" then [Text(slug)] else []
    ensures forall k :: 0 <= k < |form| ==> form[k].0 in {"image", "slug"}
  {
    var head: Form := [("image", Blob(file))];
    var form := head + (if slug != "" then [("slug", Text(slug))] else []);
    assert GetAll(head, "image") == [Blob(file)];
    assert GetAll(head, "slug") == [];
    GetAllAppend(head, form[1..], "image");
    GetAllAppend(head, form[1..], "slug");
    form
  }
}
