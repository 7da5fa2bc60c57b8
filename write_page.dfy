/** The post editor page: the Markdown buffer with its selection, the
    toolbar and image insertions into it, the post's metadata, and the
    submit and create-category/tag handlers. Network calls are outcomes
    passed in by the caller; alerts and navigation are returned. */
module WritePage {
  import opened Wrappers
  import opened Strings
  import opened Entities
  import opened PostService
  import opened SmartSelector
  import opened PostMetaForm
  import opened MarkdownToolbar

  /** The textarea's selection, `selectionStart` to `selectionEnd`. */
  datatype Selection = Selection(start: nat, end: nat)

  /** `before + prefix + selection + suffix + after`. */
  function Splice(text: string, start: nat, end: nat, prefix: string, suffix: string): (r: string)
    requires start <= end <= |text|
    ensures |r| == |text| + |prefix| + |suffix|
    ensures r[..start] == text[..start]
    ensures r[start..start + |prefix|] == prefix
    ensures r[start + |prefix|..end + |prefix|] == text[start..end]
    ensures r[end + |prefix|..end + |prefix| + |suffix|] == suffix
    ensures r[end + |prefix| + |suffix|..] == text[end..]
  {
    text[..start] + prefix + text[start..end] + suffix + text[end..]
  }

  /** `start + prefix.length + selection.length + suffix.length`. */
  function CursorAfter(start: nat, end: nat, prefix: string, suffix: string): nat
    requires start <= end
  {
    start + |prefix| + (end - start) + |suffix|
  }

  /** The new cursor sits just after the inserted suffix: everything before
      it is the old text up to the selection's end with the prefix and
      suffix in place, everything after it is the old text after the
      selection. */
  lemma CursorAfterSuffix(text: string, start: nat, end: nat, prefix: string, suffix: string)
    requires start <= end <= |text|
    ensures var r := Splice(text, start, end, prefix, suffix);
      var c := CursorAfter(start, end, prefix, suffix);
      c <= |r| &&
      r[..c] == text[..start] + prefix + text[start..end] + suffix &&
      r[c..] == text[end..]
  {
  }

  /** The buffer and the selection after `insertMarkdown(prefix, suffix)`;
      with no textarea attached nothing changes. */
  function Inserted(text: string, sel: Option<Selection>, prefix: string, suffix: string): (r: (string, Option<Selection>))
    requires sel.Some? ==> sel.value.start <= sel.value.end <= |text|
    ensures sel.None? ==> r == (text, sel)
    ensures sel.Some? ==> r.1.Some? && r.1.value.start == r.1.value.end == sel.value.end + |prefix| + |suffix| <= |r.0|
    ensures sel.Some? ==> |r.0| == |text| + |prefix| + |suffix|
  {
    if sel.None? then (text, sel)
    else
      var s := sel.value;
      var c := CursorAfter(s.start, s.end, prefix, suffix);
      (Splice(text, s.start, s.end, prefix, suffix), Some(Selection(c, c)))
  }

  /** Bold on an empty buffer yields `****` with the cursor after both
      markers, at 4: the code places the cursor after the suffix. */
  lemma BoldOnEmptyBuffer()
    ensures ActionOf(Bold, true) == Insert("**", "**")
    ensures Inserted("", Some(Selection(0, 0)), "**", "**") == ("****", Some(Selection(4, 4)))
  {
    assert Splice("", 0, 0, "**", "**") == "****";
  }

  /** The Markdown an uploaded image inserts. */
  function ImageMarkdown(alt: string, url: string): string {
    "![" + alt + "](" + url + ")"
  }

  /** Who may use the page: only the site owner, once the session is known. */
  datatype Access = Waiting | ToLogin | Forbidden | Allowed

  const LoginRedirect: string := "/login?redirect=/admin/write"
  const Owner: string := "yueswater"

  function AccessFor(isLoading: bool, user: Option<User>): (a: Access)
    ensures a == Allowed <==> !isLoading && user.Some? && user.value.username == Owner
    ensures a == ToLogin <==> !isLoading && user.None?
  {
    if isLoading then Waiting
    else if user.None? then ToLogin
    else if user.value.username != Owner then Forbidden
    else Allowed
  }

  datatype SubmitAction = Draft | Publish

  /** The request a submit sends: a new post, or a PATCH of the post
      created earlier in this session. */
  datatype SubmitRequest = CreatePost(form: Form) | UpdatePost(slug: string, form: Form)

  const RequiredNotice: string := "標題 Slug 和 內容 為必填"
  const DraftSavedNotice: string := "草稿儲存成功"
  const PublishedNotice: string := "文章發布成功"
  const SubmitFailedNotice: string := "操作失敗 請檢查 Console"
  const CreateCategoryFailedNotice: string := "創建分類失敗"
  const CreateTagFailedNotice: string := "創建標籤失敗"
  const UploadFailedNotice: string := "圖片上傳失敗 請檢查後端日誌"

  /** `String(b)` of a boolean. */
  function BoolText(b: bool): string {
    if b then "true" else "false"
  }

  function IdTexts(ids: seq<int>): seq<FormValue> {
    seq(|ids|, i requires 0 <= i < |ids| => Text(IntToString(ids[i])))
  }

  /** One `append(key, id.toString())` per id, in order. */
  function IdEntries(key: string, ids: seq<int>): Form {
    seq(|ids|, i requires 0 <= i < |ids| => (key, Text(IntToString(ids[i]))))
  }

  function CategoryIds(cats: seq<Category>): seq<int> {
    seq(|cats|, i requires 0 <= i < |cats| => cats[i].id)
  }

  function TagIds(tags: seq<Tag>): seq<int> {
    seq(|tags|, i requires 0 <= i < |tags| => tags[i].id)
  }

  /** The first id's entry, then the rest. */
  lemma IdEntriesCons(key: string, ids: seq<int>)
    requires ids != []
    ensures IdEntries(key, ids) == [(key, Text(IntToString(ids[0])))] + IdEntries(key, ids[1..])
    ensures IdTexts(ids) == [Text(IntToString(ids[0]))] + IdTexts(ids[1..])
  {
    assert IdEntries(key, ids)[1..] == IdEntries(key, ids[1..]);
    assert IdTexts(ids)[1..] == IdTexts(ids[1..]);
  }

  /** Appending one more id's entry. */
  lemma IdEntriesSnoc(key: string, ids: seq<int>, i: nat)
    requires i < |ids|
    ensures IdEntries(key, ids[..i + 1]) == IdEntries(key, ids[..i]) + [(key, Text(IntToString(ids[i])))]
  {
    assert IdEntries(key, ids[..i + 1])[..i] == IdEntries(key, ids[..i]);
  }

  lemma {:induction false} GetAllIdEntries(key: string, ids: seq<int>, k: string)
    ensures GetAll(IdEntries(key, ids), k) == if k == key then IdTexts(ids) else []
    decreases |ids|
  {
    if ids != [] {
      var e := IdEntries(key, ids);
      IdEntriesCons(key, ids);
      assert e[1..] == IdEntries(key, ids[1..]);
      GetAllIdEntries(key, ids[1..], k);
    }
  }

  /** The fixed fields of the submitted form. */
  function TextFields(title: string, slug: string, content: string, excerpt: string, isDraft: bool): Form {
    [("title", Text(title)), ("slug", Text(slug)), ("content", Text(content)), ("excerpt", Text(excerpt)),
     ("is_draft", Text(BoolText(isDraft))), ("is_published", Text(BoolText(!isDraft))), ("is_archived", Text("false"))]
  }

  function CoverEntries(cover: Option<File>): Form {
    if cover.Some? then [("cover_image", Blob(cover.value))] else []
  }

  /** The `FormData` a submit builds, entry by entry. */
  function SubmitForm(title: string, slug: string, content: string, excerpt: string, isDraft: bool,
                      cover: Option<File>, cats: seq<Category>, tags: seq<Tag>): Form
  {
    TextFields(title, slug, content, excerpt, isDraft) + CoverEntries(cover)
      + IdEntries("categories", CategoryIds(cats)) + IdEntries("tags", TagIds(tags))
  }

  /** Decomposition of the form's `getAll` along its four parts. */
  lemma SubmitFormGetAll(title: string, slug: string, content: string, excerpt: string, isDraft: bool,
                         cover: Option<File>, cats: seq<Category>, tags: seq<Tag>, k: string)
    ensures GetAll(SubmitForm(title, slug, content, excerpt, isDraft, cover, cats, tags), k) ==
      GetAll(TextFields(title, slug, content, excerpt, isDraft), k) + GetAll(CoverEntries(cover), k) +
      GetAll(IdEntries("categories", CategoryIds(cats)), k) + GetAll(IdEntries("tags", TagIds(tags)), k)
  {
    var a := TextFields(title, slug, content, excerpt, isDraft);
    var b := CoverEntries(cover);
    var c := IdEntries("categories", CategoryIds(cats));
    GetAllAppend(a + b + c, IdEntries("tags", TagIds(tags)), k);
    GetAllAppend(a + b, c, k);
    GetAllAppend(a, b, k);
  }

  /** The fixed fields each appear once, and no other key is among them. */
  lemma TextFieldsGetAll(title: string, slug: string, content: string, excerpt: string, isDraft: bool, k: string)
    ensures GetAll(TextFields(title, slug, content, excerpt, isDraft), k) ==
      if k == "title" then [Text(title)]
      else if k == "slug" then [Text(slug)]
      else if k == "content" then [Text(content)]
      else if k == "excerpt" then [Text(excerpt)]
      else if k == "is_draft" then [Text(BoolText(isDraft))]
      else if k == "is_published" then [Text(BoolText(!isDraft))]
      else if k == "is_archived" then [Text("false")]
      else []
  {
    var f := TextFields(title, slug, content, excerpt, isDraft);
    var keys := ["title", "slug", "content", "excerpt", "is_draft", "is_published", "is_archived"];
    assert |f| == 7 && forall j :: 0 <= j < 7 ==> f[j].0 == keys[j];
    if i :| 0 <= i < 7 && keys[i] == k {
      GetAllUnique(f, k, i);
    } else {
      assert forall j :: 0 <= j < 7 ==> keys[j] != k;
      assert k != keys[0] && k != keys[1] && k != keys[2] && k != keys[3] && k != keys[4] && k != keys[5] && k != keys[6];
      assert forall j :: 0 <= j < |f| ==> f[j].0 != k;
    }
  }

  lemma CoverEntriesGetAll(cover: Option<File>, k: string)
    ensures GetAll(CoverEntries(cover), k) == if k == "cover_image" && cover.Some? then [Blob(cover.value)] else []
  {
    if cover.Some? && k == "cover_image" {
      GetAllUnique(CoverEntries(cover), "cover_image", 0);
    }
  }

  /** What the server should read under each key of a submitted post: the
      four texts once each; `is_draft` and `is_published` as opposite
      booleans chosen by the action; `is_archived` always `"false"`; the
      cover only when one was chosen; the selected categories' and tags'
      ids in selection order; nothing else. */
  function ExpectedValues(title: string, slug: string, content: string, excerpt: string, isDraft: bool,
                          cover: Option<File>, cats: seq<Category>, tags: seq<Tag>, k: string): seq<FormValue>
  {
    if k == "title" then [Text(title)]
    else if k == "slug" then [Text(slug)]
    else if k == "content" then [Text(content)]
    else if k == "excerpt" then [Text(excerpt)]
    else if k == "is_draft" then [Text(if isDraft then "true" else "false")]
    else if k == "is_published" then [Text(if isDraft then "false" else "true")]
    else if k == "is_archived" then [Text("false")]
    else if k == "cover_image" then (if cover.Some? then [Blob(cover.value)] else [])
    else if k == "categories" then seq(|cats|, i requires 0 <= i < |cats| => Text(IntToString(cats[i].id)))
    else if k == "tags" then seq(|tags|, i requires 0 <= i < |tags| => Text(IntToString(tags[i].id)))
    else []
  }

  /** Under a category or tag key, only the ids of that selection. */
  lemma SubmitFormIdValues(title: string, slug: string, content: string, excerpt: string, isDraft: bool,
                           cover: Option<File>, cats: seq<Category>, tags: seq<Tag>, k: string)
    requires k == "categories" || k == "tags"
    ensures GetAll(SubmitForm(title, slug, content, excerpt, isDraft, cover, cats, tags), k) ==
      (if k == "categories" then IdTexts(CategoryIds(cats)) else IdTexts(TagIds(tags)))
  {
    SubmitFormGetAll(title, slug, content, excerpt, isDraft, cover, cats, tags, k);
    TextFieldsGetAll(title, slug, content, excerpt, isDraft, k);
    CoverEntriesGetAll(cover, k);
    GetAllIdEntries("categories", CategoryIds(cats), k);
    GetAllIdEntries("tags", TagIds(tags), k);
  }

  /** Under any other key, the fixed fields and the cover. */
  lemma SubmitFormFixedValues(title: string, slug: string, content: string, excerpt: string, isDraft: bool,
                              cover: Option<File>, cats: seq<Category>, tags: seq<Tag>, k: string)
    requires k != "categories" && k != "tags"
    ensures GetAll(SubmitForm(title, slug, content, excerpt, isDraft, cover, cats, tags), k) ==
      GetAll(TextFields(title, slug, content, excerpt, isDraft), k) + GetAll(CoverEntries(cover), k)
  {
    SubmitFormGetAll(title, slug, content, excerpt, isDraft, cover, cats, tags, k);
    GetAllIdEntries("categories", CategoryIds(cats), k);
    GetAllIdEntries("tags", TagIds(tags), k);
  }

  /** The form a submit builds carries exactly the expected values under
      every key. */
  lemma SubmitFormValues(title: string, slug: string, content: string, excerpt: string, isDraft: bool,
                         cover: Option<File>, cats: seq<Category>, tags: seq<Tag>, k: string)
    ensures GetAll(SubmitForm(title, slug, content, excerpt, isDraft, cover, cats, tags), k) ==
      ExpectedValues(title, slug, content, excerpt, isDraft, cover, cats, tags, k)
  {
    if k == "categories" {
      SubmitFormIdValues(title, slug, content, excerpt, isDraft, cover, cats, tags, k);
      assert IdTexts(CategoryIds(cats)) == ExpectedValues(title, slug, content, excerpt, isDraft, cover, cats, tags, k);
    } else if k == "tags" {
      SubmitFormIdValues(title, slug, content, excerpt, isDraft, cover, cats, tags, k);
      assert IdTexts(TagIds(tags)) == ExpectedValues(title, slug, content, excerpt, isDraft, cover, cats, tags, k);
    } else {
      SubmitFormFixedValues(title, slug, content, excerpt, isDraft, cover, cats, tags, k);
      TextFieldsGetAll(title, slug, content, excerpt, isDraft, k);
      CoverEntriesGetAll(cover, k);
    }
  }

  class Editor {
    var title: string
    var slug: string
    var content: string
    var excerpt: string
    var coverImage: Option<File>
    var previewUrl: Option<string>
    /** The slug of the post created in this session; `null` and `""` are
        both "not yet created". */
    var currentSlug: string
    var isImageModalOpen: bool
    var availableCategories: seq<Category>
    var availableTags: seq<Tag>
    var selectedCategories: seq<Category>
    var selectedTags: seq<Tag>
    var isSubmitting: bool
    /** `textareaRef.current`: absent until the textarea is mounted. */
    var textarea: Option<Selection>

    ghost predicate Valid()
      reads this
    {
      (textarea.Some? ==> textarea.value.start <= textarea.value.end <= |content|) &&
      |selectedCategories| <= CategoryLimit && |selectedTags| <= TagLimit
    }

    constructor()
      ensures Valid()
      ensures title == "" && slug == "" && content == "" && excerpt == "" && currentSlug == ""
      ensures coverImage.None? && previewUrl.None? && textarea.None? && !isImageModalOpen && !isSubmitting
      ensures availableCategories == [] && availableTags == [] && selectedCategories == [] && selectedTags == []
    {
      title, slug, content, excerpt, currentSlug := "", "", "", "", "";
      coverImage, previewUrl, textarea := None, None, None;
      isImageModalOpen, isSubmitting := false, false;
      availableCategories, availableTags := [], [];
      selectedCategories, selectedTags := [], [];
    }

    /** The slug input is disabled once the post exists. */
    predicate SlugLocked()
      reads this
    {
      currentSlug != ""
    }

    /** Mounting the textarea. */
    method AttachTextarea()
      requires Valid()
      modifies this`textarea
      ensures Valid() && textarea == Some(Selection(0, 0))
    {
      textarea := Some(Selection(0, 0));
    }

    /** Typing in the textarea: the browser reports the new text and a
        selection inside it. */
    method EditContent(text: string, sel: Selection)
      requires Valid() && sel.start <= sel.end <= |text|
      modifies this`content, this`textarea
      ensures Valid() && content == text && textarea == Some(sel)
    {
      content, textarea := text, Some(sel);
    }

    /** Typing in the slug input, which is disabled while editing. */
    method EditSlug(text: string)
      modifies this`slug
      ensures slug == if old(SlugLocked()) then old(slug) else text
    {
      if !SlugLocked() {
        slug := text;
      }
    }

    /** Loading the category and tag lists after the access check. */
    method FetchData(outcome: Result<(seq<Category>, seq<Tag>)>)
      modifies this`availableCategories, this`availableTags
      ensures outcome.Ok? ==> availableCategories == outcome.value.0 && availableTags == outcome.value.1
      ensures outcome.Err? ==> availableCategories == old(availableCategories) && availableTags == old(availableTags)
    {
      if outcome.Ok? {
        availableCategories, availableTags := outcome.value.0, outcome.value.1;
      }
    }

    /** Choosing a cover image; cancelling the file dialog changes nothing. */
    method HandleImageChange(file: Option<File>, objectUrl: string)
      modifies this`coverImage, this`previewUrl
      ensures file.Some? ==> coverImage == file && previewUrl == Some(objectUrl)
      ensures file.None? ==> coverImage == old(coverImage) && previewUrl == old(previewUrl)
    {
      if file.Some? {
        coverImage, previewUrl := file, Some(objectUrl);
      }
    }

    /** `insertMarkdown(prefix, suffix)`. */
    method InsertMarkdown(prefix: string, suffix: string)
      requires Valid()
      modifies this`content, this`textarea
      ensures Valid()
      ensures (content, textarea) == Inserted(old(content), old(textarea), prefix, suffix)
    {
      if textarea.None? {
        return;
      }
      var start := textarea.value.start;
      var end := textarea.value.end;
      var text := content;
      content := text[..start] + prefix + text[start..end] + suffix + text[end..];
      var cursor := start + |prefix| + (end - start) + |suffix|;
      textarea := Some(Selection(cursor, cursor));
    }

    /** A toolbar click; this page always supplies the image handler. */
    method ClickToolbar(b: Button)
      requires Valid()
      modifies this`content, this`textarea, this`isImageModalOpen
      ensures Valid()
      ensures ActionOf(b, true).OpenImageModal? ==>
        isImageModalOpen && content == old(content) && textarea == old(textarea)
      ensures ActionOf(b, true).Insert? ==>
        (content, textarea) == Inserted(old(content), old(textarea), ActionOf(b, true).prefix, ActionOf(b, true).suffix) &&
        isImageModalOpen == old(isImageModalOpen)
    {
      match ActionOf(b, true)
      case OpenImageModal =>
        isImageModalOpen := true;
      case Insert(prefix, suffix) =>
        InsertMarkdown(prefix, suffix);
    }

    method CloseImageModal()
      modifies this`isImageModalOpen
      ensures !isImageModalOpen
    {
      isImageModalOpen := false;
    }

    /** `handleImageUpload`: uploads with the current slug; on success the
        image Markdown is inserted at the selection with an empty suffix,
        on failure the buffer is untouched and the error is re-thrown. */
    method HandleImageUpload(file: File, alt: string, outcome: Result<string>)
      returns (request: Form, thrown: bool, notice: Option<string>)
      requires Valid()
      modifies this`content, this`textarea
      ensures Valid()
      ensures request == UploadForm(file, slug)
      ensures outcome.Ok? ==>
        !thrown && notice.None? &&
        (content, textarea) == Inserted(old(content), old(textarea), ImageMarkdown(alt, outcome.value), "")
      ensures outcome.Err? ==>
        thrown && notice == Some(UploadFailedNotice) &&
        content == old(content) && textarea == old(textarea)
    {
      request := UploadForm(file, slug);
      if outcome.Ok? {
        InsertMarkdown(ImageMarkdown(alt, outcome.value), "");
        thrown, notice := false, None;
      } else {
        thrown, notice := true, Some(UploadFailedNotice);
      }
    }

    predicate MissingRequired()
      reads this
    {
      title == "" || slug == "" || content == ""
    }

    /** Builds the submitted form with successive `append` calls. */
    method BuildForm(isDraft: bool) returns (form: Form)
      ensures form == SubmitForm(title, slug, content, excerpt, isDraft, coverImage, selectedCategories, selectedTags)
    {
      form := [("title", Text(title)), ("slug", Text(slug)), ("content", Text(content)), ("excerpt", Text(excerpt))];
      form := form + [("is_draft", Text(BoolText(isDraft)))];
      form := form + [("is_published", Text(BoolText(!isDraft)))];
      form := form + [("is_archived", Text("false"))];
      if coverImage.Some? {
        form := form + [("cover_image", Blob(coverImage.value))];
      }
      assert form == TextFields(title, slug, content, excerpt, isDraft) + CoverEntries(coverImage);
      var head := form;
      var ids := CategoryIds(selectedCategories);
      var i := 0;
      while i < |selectedCategories|
        invariant 0 <= i <= |selectedCategories|
        invariant form == head + IdEntries("categories", ids[..i])
      {
        IdEntriesSnoc("categories", ids, i);
        form := form + [("categories", Text(IntToString(ids[i])))];
        i := i + 1;
      }
      assert ids[..i] == ids;
      head := form;
      var tagIds := TagIds(selectedTags);
      i := 0;
      while i < |selectedTags|
        invariant 0 <= i <= |selectedTags|
        invariant form == head + IdEntries("tags", tagIds[..i])
      {
        IdEntriesSnoc("tags", tagIds, i);
        form := form + [("tags", Text(IntToString(tagIds[i])))];
        i := i + 1;
      }
      assert tagIds[..i] == tagIds;
    }

    /** `handleSubmit(action)`: refuses when a required field is empty;
        otherwise creates the post (remembering the returned slug) or
        updates the one created earlier, and a successful publish returns
        to the home page. */
    method HandleSubmit(action: SubmitAction, outcome: Result<string>)
      returns (request: Option<SubmitRequest>, notice: string, goHome: bool)
      requires Valid()
      modifies this`isSubmitting, this`currentSlug
      ensures Valid()
      ensures MissingRequired() ==>
        request.None? && notice == RequiredNotice && !goHome &&
        currentSlug == old(currentSlug) && isSubmitting == old(isSubmitting)
      ensures !MissingRequired() ==>
        var form := SubmitForm(title, slug, content, excerpt, action == Draft, coverImage, selectedCategories, selectedTags);
        request == Some(if old(currentSlug) != "" then UpdatePost(old(currentSlug), form) else CreatePost(form)) &&
        currentSlug == (if old(currentSlug) == "" && outcome.Ok? then outcome.value else old(currentSlug)) &&
        notice == (if outcome.Err? then SubmitFailedNotice else if action == Draft then DraftSavedNotice else PublishedNotice) &&
        goHome == (outcome.Ok? && action == Publish) &&
        !isSubmitting
    {
      if MissingRequired() {
        return None, RequiredNotice, false;
      }
      isSubmitting := true;
      var isDraft := action == Draft;
      var form := BuildForm(isDraft);
      if currentSlug != "" {
        request := Some(UpdatePost(currentSlug, form));
      } else {
        request := Some(CreatePost(form));
        if outcome.Ok? {
          currentSlug := outcome.value;
        }
      }
      if outcome.Ok? {
        notice := if isDraft then DraftSavedNotice else PublishedNotice;
        goHome := !isDraft;
      } else {
        notice, goHome := SubmitFailedNotice, false;
      }
      isSubmitting := false;
    }

    /** `handleCreateCategory`: the new category joins the list and is
        selected only when no category is selected yet. */
    method HandleCreateCategory(outcome: Result<Category>) returns (notice: Option<string>)
      requires Valid()
      modifies this`availableCategories, this`selectedCategories
      ensures Valid()
      ensures outcome.Ok? ==>
        notice.None? &&
        availableCategories == old(availableCategories) + [outcome.value] &&
        selectedCategories == (if old(selectedCategories) == [] then [outcome.value] else old(selectedCategories))
      ensures outcome.Err? ==>
        notice == Some(CreateCategoryFailedNotice) &&
        availableCategories == old(availableCategories) && selectedCategories == old(selectedCategories)
    {
      if outcome.Err? {
        return Some(CreateCategoryFailedNotice);
      }
      availableCategories := availableCategories + [outcome.value];
      if |selectedCategories| == 0 {
        selectedCategories := [outcome.value];
      }
      notice := None;
    }

    /** `handleCreateTag`: the new tag joins the list and is selected only
        while fewer than five tags are selected. */
    method HandleCreateTag(outcome: Result<Tag>) returns (notice: Option<string>)
      requires Valid()
      modifies this`availableTags, this`selectedTags
      ensures Valid()
      ensures outcome.Ok? ==>
        notice.None? &&
        availableTags == old(availableTags) + [outcome.value] &&
        selectedTags == (if |old(selectedTags)| < TagLimit then old(selectedTags) + [outcome.value] else old(selectedTags))
      ensures outcome.Err? ==>
        notice == Some(CreateTagFailedNotice) &&
        availableTags == old(availableTags) && selectedTags == old(selectedTags)
    {
      if outcome.Err? {
        return Some(CreateTagFailedNotice);
      }
      availableTags := availableTags + [outcome.value];
      if |selectedTags| < 5 {
        selectedTags := selectedTags + [outcome.value];
      }
      notice := None;
    }

    /** Picking a category in its selector, which offers suggestions only
        while the one-category limit is not reached. */
    method PickCategory(item: Category)
      requires Valid()
      modifies this`selectedCategories
      ensures Valid()
      ensures selectedCategories ==
        if LimitReached(Some(CategoryLimit), |old(selectedCategories)|) then old(selectedCategories)
        else SelectCategory(old(selectedCategories), item)
    {
      if !LimitReached(Some(CategoryLimit), |selectedCategories|) {
        selectedCategories := SelectCategory(selectedCategories, item);
      }
    }

    method RemoveCategory(id: int)
      requires Valid()
      modifies this`selectedCategories
      ensures Valid()
      ensures selectedCategories == RemoveById(old(selectedCategories), id, (c: Category) => c.id)
    {
      selectedCategories := RemoveById(selectedCategories, id, (c: Category) => c.id);
    }

    /** Picking a tag in its selector, which offers suggestions only while
        fewer than five tags are selected. */
    method PickTag(item: Tag)
      requires Valid()
      modifies this`selectedTags
      ensures Valid()
      ensures selectedTags ==
        if LimitReached(Some(TagLimit), |old(selectedTags)|) then old(selectedTags)
        else SelectTag(old(selectedTags), item)
    {
      if !LimitReached(Some(TagLimit), |selectedTags|) {
        selectedTags := SelectTag(selectedTags, item);
      }
    }

    method RemoveTag(id: int)
      requires Valid()
      modifies this`selectedTags
      ensures Valid()
      ensures selectedTags == RemoveById(old(selectedTags), id, TagId)
    {
      selectedTags := RemoveById(selectedTags, id, TagId);
    }
  }
}
