# A Dafny model of the yueswater-web blog frontend

This project models the logic inside the blog's Next.js frontend and
proves properties of it:

- the post editor: the Markdown buffer and toolbar, the category and tag
  pickers, and the submit form;
- the figure-citation rewrite of the live preview;
- the admin post table and its status toggle;
- the home page's orderings and pagination;
- the API client's URL, header and error-message rules, and the media URL
  helpers;
- the post, category and tag services;
- the like button, the comment list, the image-upload dialog and the LaTeX
  compile panel;
- the favourites statistics and tables, the post card, the ranking tables,
  the tag and category clouds, the table of contents and the code-block
  header.

Each source file is one Dafny module, in one `.dfy` file with a matching
name. Pure code (string transforms, sorts, slices and maps) becomes
functions and lemmas. Components whose handlers update `useState` fields
become classes whose methods change those fields, under `modifies` clauses.

Network requests are not performed. A request's outcome is a parameter:
`Result.Ok(value)` or `Result.Err(message)`. The environment is an input:
`NEXT_PUBLIC_API_URL`, `SERVER_API_URL`, whether `window` exists, the
textarea's selection, and the elements' `offsetTop`. Alerts, toasts and
navigations are returned, or recorded in a `toasts` field.

A few shared helper modules support the rest:

- `Wrappers`: `Option` and `Result`.
- `Strings`: `String(n)`, `padStart`, `split`/`join`, `trim`, `toLowerCase`.
- `Json`: JSON values, JavaScript truthiness, `String(v)` and
  `JSON.stringify`.
- `Seqs`: `filter` and `slice`.
- `Ranking`: a stable descending sort, standing for
  `[...xs].sort((a, b) => key(b) - key(a))`.
- `Entities`: the backend's records.

The write page's `insertMarkdown` puts the cursor after the inserted
suffix (`src/app/admin/write/page.tsx:116`), so bold on an empty buffer leaves
the cursor after both markers, at 4 (`WritePage.BoldOnEmptyBuffer`).

## Model

| member | source | states |
|---|---|---|
| ApiClient.StripTrailingSlashes | src/services/apiClient.ts:1 | the result is a prefix of the input that does not end in `/`, and everything removed was `/` |
| ApiClient.StripIdempotent | src/services/apiClient.ts:1 | stripping the trailing slashes twice is stripping them once |
| ApiClient.BaseUrl | src/services/apiClient.ts:1 | a set, non-empty `NEXT_PUBLIC_API_URL` with all its trailing slashes removed; an unset or empty one gives the local default `http://localhost:8088/api`; never ends in `/` |
| ApiClient.WithLeadingSlash | src/services/apiClient.ts:12 | the endpoint starts with `/`; one that already does is unchanged, any other gets exactly one `/` in front |
| ApiClient.CleanEndpoint | src/services/apiClient.ts:12-15 | the normalised endpoint starts with `/` and has a `?` or a trailing `/`; a `/` is appended iff the endpoint has no `?` and no trailing `/` |
| ApiClient.CleanEndpointIdempotent | src/services/apiClient.ts:12-15 | normalising a normalised endpoint changes nothing |
| ApiClient.BuildHeaders | src/services/apiClient.ts:17-27 | JSON `Content-Type` unless the body is a `FormData`; a bearer `Authorization` iff not `skipAuth` and a token exists; every other header of the caller is kept and nothing else is added |
| ApiClient.ErrorMessage | src/services/apiClient.ts:34-37 | the message is `detail`, else `message`, else `API 請求失敗`; a string is used as is, any other value JSON-encoded |
| UrlHelpers.StripApi | src/utils/urlHelpers.ts:20-21 | only the first `/api` of an environment URL is removed; an unset variable stays unset |
| UrlHelpers.BaseUrl | src/utils/urlHelpers.ts:23-25 | the media host: on the client the public URL or `http://localhost:8088`; on the server the server URL, then the public URL, then `http://yueswater-server:8088`; never empty |
| UrlHelpers.UrlPathname | src/utils/urlHelpers.ts:11-18 | the pathname of a parsed `http(s)` URL starts with `/` and holds no `?` or `#`; anything unparsable is a failure |
| UrlHelpers.GetFullImageUrl | src/utils/urlHelpers.ts:1-29 | an empty or missing path gives `""`; an external URL is returned unchanged; a relative path is put under the host with exactly one `/`; an internal URL is re-rooted on the host by its pathname, and kept as is when it does not parse |
| UrlHelpers.PathnameOfHttpUrl | src/utils/urlHelpers.ts:11-18 | the pathname parsed from `http://` + host + path + query is the path, without the query |
| UrlHelpers.InternalUrlRehosted | src/utils/urlHelpers.ts:6-28 | an `http://host/path?query` URL on an internal host becomes host + path, losing its query |
| UrlHelpers.ReplaceAll | src/utils/urlHelpers.ts:43 | a replacement at least as long as the pattern never shortens the text |
| UrlHelpers.ReplaceAllNoMatch | src/utils/urlHelpers.ts:43 | a text without the pattern is unchanged by the global replace |
| UrlHelpers.ReplaceAllFirstMatch | src/utils/urlHelpers.ts:43 | with the leftmost match at i, the text before the leftmost match is copied, the match becomes the replacement and the scan resumes right after it; with the no-match case this fixes the whole result |
| UrlHelpers.ReplaceAllLength | src/utils/urlHelpers.ts:43 | each replaced match changes the length by the replacement's length minus the pattern's length |
| UrlHelpers.ReplaceAllKeepsPrefix | src/utils/urlHelpers.ts:43 | the text before the first match is copied unchanged |
| UrlHelpers.ProcessContentImages | src/utils/urlHelpers.ts:31-44 | empty content stays empty; content without `/media/` is unchanged; each `/media/` found adds the host's length |
| UrlHelpers.OverlappingMatchesRewrittenOnce | src/utils/urlHelpers.ts:43 | matches do not overlap: in `/media/media/` followed by any text without `/media/`, only the first `/media/` is prefixed with the host |
| UrlHelpers.OverlapExample | src/utils/urlHelpers.ts:43 | the smallest such case: `/media/media/x` becomes host + `/media/media/x` |
| UrlHelpers.ReplaceAllSingleMatch | src/utils/urlHelpers.ts:43 | a match followed by text without the pattern: only that match is replaced |
| CategoryService.WithSlugFallback | src/services/categoryService.ts:12-15 | same length and order; each slug is the item's own when non-empty, else its name; every other field copied; items with a slug come out identical |
| CategoryService.FallbackIdempotent | src/services/categoryService.ts:14 | a slug is empty afterwards iff both slug and name were empty, and applying the fallback twice is applying it once |
| TagService.WithSlugFallback | src/services/tagService.ts:11-14 | same length and order; each slug is the item's own when non-empty, else its name; every other field copied; items with a slug come out identical |
| TagService.FallbackIdempotent | src/services/tagService.ts:13 | a slug is empty afterwards iff both slug and name were empty, and applying the fallback twice is applying it once |
| PostService.ViewPost | src/services/postService.ts:40-48 | recording a view always completes normally, whatever the request's outcome |
| PostService.PublishedPosts | src/services/postService.ts:51-54 | a post is kept iff it is published and not a draft |
| PostService.PublishedPostsAppend | src/services/postService.ts:53 | the filter keeps the backend's order: filtering a concatenation concatenates the filtered parts |
| PostService.FeaturedPost | src/services/postService.ts:57-60 | `null` iff no post is public; otherwise the first public post of the list |
| PostService.CreatePostError | src/services/postService.ts:17-20 | the error message is `String(detail)` when `detail` is truthy, else `發布文章失敗` (also for an unparsable body) |
| PostService.FirstElement | src/services/postService.ts:149 | `v?.[0]` is the first element of a non-empty array and `undefined` for a missing, `null`, boolean or numeric value |
| PostService.CreateCommentError | src/services/postService.ts:147-151 | the first `content` validation error when truthy, else `detail`, else `留言發送失敗` |
| PostService.ContentErrorWins | src/services/postService.ts:149 | a `content` error wins over `detail` |
| PostService.UpdateCommentError | src/services/postService.ts:169-172 | `String(detail)` when truthy, else `更新留言失敗` |
| PostService.UploadImageError | src/services/postService.ts:108-111 | `String(detail)` when truthy, else `圖片上傳失敗` |
| PostService.UploadForm | src/services/postService.ts:93-98 | the form carries the image once, the slug once when non-empty and not at all otherwise, and no other key |
| EditorPreview.RunLength | src/app/admin/components/EditorPreview.tsx:24 | the greedy `[\w-]*` run: all of its characters match and the next one does not |
| EditorPreview.RewriteFigureRefs | src/app/admin/components/EditorPreview.tsx:23-26 | the rewrite preserves the length |
| EditorPreview.RewritePointwise | src/app/admin/components/EditorPreview.tsx:24-25 | position i becomes `#` where an `@fig-<word char>` citation starts and keeps its character everywhere else |
| EditorPreview.RewriteChangesOnlyCitations | src/app/admin/components/EditorPreview.tsx:24-25 | a character changes iff a citation starts there; any other `@` is left alone |
| EditorPreview.NoCitationAfterRewrite | src/app/admin/components/EditorPreview.tsx:24-25 | no citation survives the rewrite |
| EditorPreview.RewriteIdempotent | src/app/admin/components/EditorPreview.tsx:23-26 | rewriting twice is rewriting once |
| EditorPreview.PreviewMarkdown | src/app/admin/components/EditorPreview.tsx:110 | empty content renders the placeholder `*預覽內容將顯示於此...*`; other content renders its rewrite, of the same length |
| MarkdownToolbar.ActionOf | src/app/admin/components/MarkdownToolbar.tsx:30-116 | the image button opens the dialog iff the page gives a handler; bold, italic, admonitions, code and math wrap with a non-empty prefix and suffix; every other insertion has an empty suffix; admonitions close with `\n:::` |
| WritePage.Splice | src/app/admin/write/page.tsx:104-111 | the new text is the old text up to `start`, the prefix, the selection, the suffix and the old text from `end`; its length grows by exactly the prefix and suffix |
| WritePage.CursorAfterSuffix | src/app/admin/write/page.tsx:116-117 | the new cursor lies within the new text, just after the inserted suffix |
| WritePage.Inserted | src/app/admin/write/page.tsx:101-119 | without a textarea nothing changes; otherwise the selection collapses to just after the suffix, inside the grown text |
| WritePage.BoldOnEmptyBuffer | src/app/admin/write/page.tsx:111-116 | bold inserts `**`/`**`; on an empty buffer this gives `****` with the cursor at 4 |
| WritePage.AccessFor | src/app/admin/write/page.tsx:43-57 | the page is usable iff the session is loaded and the user is `yueswater`; a signed-out visitor is sent to the login page |
| WritePage.TextFieldsGetAll | src/app/admin/write/page.tsx:130-139 | the four texts appear once each; `is_draft` and `is_published` are opposite; `is_archived` is `"false"` |
| WritePage.CoverEntriesGetAll | src/app/admin/write/page.tsx:141-143 | the cover appears once when chosen, and not at all otherwise |
| WritePage.GetAllIdEntries | src/app/admin/write/page.tsx:145-146 | the ids appear under their key, one entry per selected item, in selection order |
| WritePage.SubmitFormValues | src/app/admin/write/page.tsx:129-146 | under every key, the submitted form holds exactly the expected values: the texts, the draft/publish flags, the cover if any, and the category and tag ids in order |
| WritePage.Editor.constructor | src/app/admin/write/page.tsx:23-40 | the page starts with empty fields, no selection, no cover and nothing loaded |
| WritePage.Editor.AttachTextarea | src/app/admin/write/page.tsx:235 | mounting the textarea gives a caret at 0 |
| WritePage.Editor.EditContent | src/app/admin/write/page.tsx:237 | typing replaces the buffer and its selection |
| WritePage.Editor.EditSlug | src/app/admin/components/PostMetaForm.tsx:97-99 | the slug changes only while the post has not been created yet |
| WritePage.Editor.FetchData | src/app/admin/write/page.tsx:59-71 | success stores both lists; failure keeps them |
| WritePage.Editor.HandleImageChange | src/app/admin/write/page.tsx:75-81 | a chosen file becomes the cover with its preview URL; cancelling changes nothing |
| WritePage.Editor.InsertMarkdown | src/app/admin/write/page.tsx:101-119 | the buffer and the selection become `Inserted` of the old ones |
| WritePage.Editor.ClickToolbar | src/app/admin/write/page.tsx:204-207 | the image button opens the dialog without touching the buffer; any other button inserts its pair |
| WritePage.Editor.CloseImageModal | src/app/admin/write/page.tsx:258 | the dialog is closed |
| WritePage.Editor.HandleImageUpload | src/app/admin/write/page.tsx:83-98 | uploads with the current slug; success inserts `![alt](url)` with an empty suffix; failure alerts, re-throws and leaves the buffer untouched |
| WritePage.Editor.BuildForm | src/app/admin/write/page.tsx:129-146 | the successive `append` calls build exactly the submitted form |
| WritePage.Editor.HandleSubmit | src/app/admin/write/page.tsx:122-164 | nothing is sent while a required field is empty; otherwise the post is created (and its slug kept) or, once created, updated; the notice depends on outcome and action; only a successful publish goes home; `isSubmitting` is reset |
| WritePage.Editor.HandleCreateCategory | src/app/admin/write/page.tsx:167-175 | the new category joins the list and is selected only when none is; a failure changes nothing and alerts |
| WritePage.Editor.HandleCreateTag | src/app/admin/write/page.tsx:178-186 | the new tag joins the list and is selected only while fewer than five are; a failure changes nothing and alerts |
| WritePage.Editor.PickCategory | src/app/admin/components/PostMetaForm.tsx:110-118 | a pick replaces the selection unless the one-category limit is reached |
| WritePage.Editor.RemoveCategory | src/app/admin/components/PostMetaForm.tsx:115 | removal drops the categories with that id |
| WritePage.Editor.PickTag | src/app/admin/components/PostMetaForm.tsx:125-137 | a pick adds a new tag id unless five tags are selected |
| WritePage.Editor.RemoveTag | src/app/admin/components/PostMetaForm.tsx:134 | removal drops the tags with that id |
| SmartSelector.FilteredItems | src/app/admin/components/SmartSelector.tsx:33-37 | the suggestions are exactly the items not selected by id whose lower-cased name contains the lower-cased query |
| SmartSelector.FilteredItemsAppend | src/app/admin/components/SmartSelector.tsx:33-37 | the suggestions keep the order of the items: those of a concatenation are those of its parts, concatenated |
| SmartSelector.FilteredItemsOne | src/app/admin/components/SmartSelector.tsx:33-37 | a single item is offered once exactly when it is unselected and matches, and not at all otherwise |
| SmartSelector.EmptyQueryOffersAllUnselected | src/app/admin/components/SmartSelector.tsx:36 | an empty query offers every unselected item |
| SmartSelector.ExactMatch | src/app/admin/components/SmartSelector.tsx:40 | none iff no item, selected or not, has the query's name up to case; otherwise the first such item |
| SmartSelector.LimitMessage | src/app/admin/components/SmartSelector.tsx:117 | the notice for limit 1 asks to remove the category; any other limit gets the tag-limit text, whose middle is the decimal digits denoting the limit (after a `-` when it is negative) |
| SmartSelector.TagLimitFive | src/app/admin/components/SmartSelector.tsx:117 | the tag selector's limit of five shows `已達到標籤上限 (5 個)` |
| Strings.IntToStringDenotes | src/app/admin/components/SmartSelector.tsx:117 | `${n}` of an integer is a non-empty run of digits denoting it, preceded by `-` when negative |
| SmartSelector.Selector.constructor | src/app/admin/components/SmartSelector.tsx:28-29 | the query starts empty and the list closed |
| SmartSelector.Selector.Render | src/app/admin/components/SmartSelector.tsx:62-118 | the limit notice iff the limit is reached; otherwise the search box, whose list is open iff focused with a non-empty query; the list holds the suggestions, and the create entry iff nothing is named like the query and the trimmed query is non-empty |
| SmartSelector.Selector.Change | src/app/admin/components/SmartSelector.tsx:70-73 | typing sets the query and opens the list |
| SmartSelector.Selector.Focus | src/app/admin/components/SmartSelector.tsx:74 | focusing opens the list |
| SmartSelector.Selector.Blur | src/app/admin/components/SmartSelector.tsx:75 | leaving closes the list |
| SmartSelector.Selector.ClickOption | src/app/admin/components/SmartSelector.tsx:85-88 | clicking a shown suggestion hands that item over and clears the query; the item is unselected |
| SmartSelector.Selector.ClickCreate | src/app/admin/components/SmartSelector.tsx:101-104 | clicking the shown create entry hands over the trimmed, non-empty query and clears it |
| PostMetaForm.SelectCategory | src/app/admin/components/PostMetaForm.tsx:114 | a pick replaces the selection by exactly that category |
| PostMetaForm.RemoveById | src/app/admin/components/PostMetaForm.tsx:115 | no survivor has the id; every entry with another id survives |
| PostMetaForm.RemoveAbsentId | src/app/admin/components/PostMetaForm.tsx:115 | removing an id nobody has changes nothing |
| PostMetaForm.RemoveByIdAppend | src/app/admin/components/PostMetaForm.tsx:134 | the survivors keep their order |
| PostMetaForm.SelectTag | src/app/admin/components/PostMetaForm.tsx:129-133 | a tag whose id is present leaves the list unchanged; any other is appended |
| PostMetaForm.SelectTagKeepsDistinct | src/app/admin/components/PostMetaForm.tsx:129-133 | a pick keeps the tag ids pairwise distinct |
| PostMetaForm.RemoveTagKeepsDistinct | src/app/admin/components/PostMetaForm.tsx:134 | a removal keeps the tag ids pairwise distinct |
| PostMetaForm.TagEditsKeepDistinct | src/app/admin/components/PostMetaForm.tsx:129-134 | tag ids stay pairwise distinct under any sequence of picks and removals |
| ManagePage.StatusFor | src/app/admin/manage/page.tsx:32-35 | each requested status sets exactly its own flag |
| ManagePage.ToggledRowDisablesOnlyItsButton | src/app/admin/components/PostManageTable.tsx:78-94 | after a toggle the table disables exactly the button of the requested status |
| ManagePage.Manager.constructor | src/app/admin/manage/page.tsx:12-13 | the page starts loading with no posts |
| ManagePage.Manager.FetchPosts | src/app/admin/manage/page.tsx:16-25 | success replaces the list; failure keeps it and shows an error toast; `loading` is cleared either way |
| ManagePage.Manager.HandleToggleStatus | src/app/admin/manage/page.tsx:31-44 | sends the status payload; a successful update shows a toast and refetches; a failure shows an error toast and does not refetch |
| ManagePage.Manager.Screen | src/app/admin/manage/page.tsx:46-52 | a spinner iff loading; otherwise a table with one row per post |
| PostManageTable.TruncateTitle | src/app/admin/components/PostManageTable.tsx:14 | a title of at most 15 characters is unchanged; a longer one becomes its first 15 plus `...`; at most 18 characters; it starts with the first `min(15, n)` characters |
| PostManageTable.CategoryLabel | src/app/admin/components/PostManageTable.tsx:39 | the category's name when non-empty; `未分類` when there is no category or its name is empty |
| PostManageTable.RowFor | src/app/admin/components/PostManageTable.tsx:33-94 | each status button is disabled iff the post has that status; each badge is shown iff the status holds; tags get a `#` |
| PostManageTable.Render | src/app/admin/components/PostManageTable.tsx:107-109 | one row per post in order; the empty message iff there are no posts |
| HomePage.SortedByDate | src/app/page.tsx:59-63 | a permutation of the posts, newest first by `published_at`, else `created_at` |
| HomePage.SortedByPopularity | src/app/page.tsx:66-70 | a permutation of the posts by view count, ties by likes, both descending, missing counts as 0 |
| HomePage.Trending | src/app/page.tsx:71 | the first `min(5, n)` posts of the popularity order |
| HomePage.TotalPages | src/app/page.tsx:74 | the least page count whose pages of five hold all posts; zero iff there are none |
| HomePage.PageShape | src/app/page.tsx:75-76 | each page in range is the matching slice of between one and five items |
| HomePage.PagesPartition | src/app/page.tsx:74-76 | pages 1 to `totalPages`, concatenated, give back the whole list |
| HomePage.Home.constructor | src/app/page.tsx:14-18 | the page starts loading, on page 1, with no posts |
| HomePage.Home.LoadPosts | src/app/page.tsx:23-35 | success stores the posts, failure leaves the list as it was, and loading ends either way |
| HomePage.Home.ClickPrev | src/app/page.tsx:110-112 | moves back one page only while the controls are shown and Prev is enabled |
| HomePage.Home.ClickNext | src/app/page.tsx:124-126 | moves on one page only while the controls are shown and Next is enabled |
| HomePage.Home.CurrentPagePosts | src/app/page.tsx:75-76 | the cards are page `currentPage` of the posts sorted newest first: at most five, all from the list, and empty, so the notice shows, iff there are no posts |
| LikeSection.Optimistic | src/components/features/posts/LikeSection.tsx:41-43 | a click flips `liked`, and the count goes up by one iff the post is now liked, else down by one |
| LikeSection.OptimisticTwiceRestores | src/components/features/posts/LikeSection.tsx:41-43 | two optimistic toggles cancel out |
| LikeSection.LikeButton.constructor | src/components/features/posts/LikeSection.tsx:15-17 | the state starts from the props, not loading |
| LikeSection.LikeButton.Sync | src/components/features/posts/LikeSection.tsx:19-28 | the server's status replaces the values; a failed sync keeps them |
| LikeSection.LikeButton.Click | src/components/features/posts/LikeSection.tsx:33-43 | ignored while loading; otherwise it snapshots the values, shows the optimistic state and sends the toggle |
| LikeSection.LikeButton.Resolve | src/components/features/posts/LikeSection.tsx:45-56 | success takes the server's values, failure restores the snapshot exactly, and loading ends either way |
| CommentSection.FailureToast | src/components/features/posts/CommentSection.tsx:37 | an error toast carrying the error's message, or the fallback text when that message is empty |
| CommentSection.RemoveComment | src/components/features/posts/CommentSection.tsx:47 | no survivor has the id; every other comment survives |
| CommentSection.RemoveCommentAppend | src/components/features/posts/CommentSection.tsx:47 | the survivors keep their order: removing from a concatenation removes from each part |
| CommentSection.RemoveCommentOne | src/components/features/posts/CommentSection.tsx:47 | a single comment survives once exactly when its id differs, and is dropped otherwise |
| CommentSection.FailedDeleteShowsServiceMessage | src/components/features/posts/CommentSection.tsx:50 | a rejected delete shows `deleteComment`'s own message `刪除留言失敗`, not the fallback |
| CommentSection.ReplaceComment | src/components/features/posts/CommentSection.tsx:58-60 | same length; the entries with the id become the updated comment, all others stay |
| CommentSection.ReplaceAbsentId | src/components/features/posts/CommentSection.tsx:58-60 | replacing an id nobody has changes nothing |
| CommentSection.CommentBox.constructor | src/components/features/posts/CommentSection.tsx:20-24 | the list starts from the initial comments, nothing typed or being edited |
| CommentSection.CommentBox.TypeComment | src/components/features/posts/CommentSection.tsx:98 | typing sets the input |
| CommentSection.CommentBox.Submit | src/components/features/posts/CommentSection.tsx:26-41 | nothing is sent for blank text, no user or no post id; success puts the comment first and clears the input; failure changes neither and shows an error toast; `isSubmitting` is reset |
| CommentSection.CommentBox.Delete | src/components/features/posts/CommentSection.tsx:43-52 | nothing happens unless confirmed; success removes the comments with that id; failure keeps the list and shows an error toast |
| CommentSection.CommentBox.StartEditing | src/components/features/posts/CommentSection.tsx:68-71 | the editor opens on that comment with its text |
| CommentSection.CommentBox.TypeEdit | src/components/features/posts/CommentSection.tsx:169 | typing sets the edit text |
| CommentSection.CommentBox.CancelEditing | src/components/features/posts/CommentSection.tsx:174 | the editor closes |
| CommentSection.CommentBox.Update | src/components/features/posts/CommentSection.tsx:54-66 | blank text sends nothing; success replaces the comments with that id, keeps the length and closes the editor; failure keeps the list and shows an error toast |
| ImageUploadModal.AltStemBeforeLastDot | src/app/admin/components/ImageUploadModal.tsx:30 | the proposed alt text is the file name up to its last dot, or empty when the name has no dot |
| ImageUploadModal.StemEndsAtDot | src/app/admin/components/ImageUploadModal.tsx:30 | when the dot at `dot` is the last one, the alt text is the name before it |
| ImageUploadModal.AltStemExamples | src/app/admin/components/ImageUploadModal.tsx:30 | `photo.png` gives `photo`, `a.b.png` gives `a.b`, `noext` gives the empty text |
| ImageUploadModal.UploadDialog.constructor | src/app/admin/components/ImageUploadModal.tsx:16-19 | the dialog starts without file, preview or alt text, not uploading |
| ImageUploadModal.UploadDialog.ChooseFile | src/app/admin/components/ImageUploadModal.tsx:24-32 | a chosen file replaces the old one with its preview and proposes its stem as alt text; cancelling changes nothing |
| ImageUploadModal.UploadDialog.TypeAlt | src/app/admin/components/ImageUploadModal.tsx:111 | typing sets the alt text |
| ImageUploadModal.UploadDialog.StartSubmit | src/app/admin/components/ImageUploadModal.tsx:34-38 | without a file nothing happens; otherwise the upload of the file with the current alt text starts |
| ImageUploadModal.UploadDialog.FinishSubmit | src/app/admin/components/ImageUploadModal.tsx:38-49 | success clears file, preview and alt text and closes; failure alerts and keeps them for a retry; uploading ends either way |
| ImageUploadModal.UploadDialog.Close | src/app/admin/components/ImageUploadModal.tsx:52-55 | the dialog closes iff no upload runs |
| LatexEditor.GetBaseUrl | src/components/markdown/LatexEditor.tsx:18-21 | one trailing `/api` is removed; any other URL is unchanged |
| LatexEditor.GetBaseUrlRemovesOnce | src/components/markdown/LatexEditor.tsx:20 | only one `/api` goes: `url/api/api` gives `url/api` |
| LatexEditor.RejectionMessage | src/components/markdown/LatexEditor.tsx:35-37 | a rejected compile's message is `String(log)` when truthy, else `編譯失敗` |
| LatexEditor.Compiler.constructor | src/components/markdown/LatexEditor.tsx:12-16 | the panel starts on the given code in `zh`, idle, with no PDF and no error |
| LatexEditor.Compiler.EditCode | src/components/markdown/LatexEditor.tsx:97 | editing sets the code |
| LatexEditor.Compiler.SelectLang | src/components/markdown/LatexEditor.tsx:66 | the select sets the language |
| LatexEditor.Compiler.StartCompile | src/components/markdown/LatexEditor.tsx:23-33 | compiling starts, the error is cleared, a held PDF URL is revoked (and still held), and the code and language are posted unchanged |
| LatexEditor.Compiler.FinishCompile | src/components/markdown/LatexEditor.tsx:35-46 | a PDF replaces the URL; a rejection or exception records its message and keeps the old, revoked URL; compiling ends either way |
| LatexEditor.Compiler.Download | src/components/markdown/LatexEditor.tsx:49-57 | a download link to the held URL, named `latex-document.pdf`, iff a URL is held |
| StatsDashboard.BumpLookup | src/components/features/favorites/StatsDashboard.tsx:19 | one increment adds one to that key's count and changes no other |
| StatsDashboard.BumpTotal | src/components/features/favorites/StatsDashboard.tsx:19 | one increment adds one to the total |
| StatsDashboard.BumpKeys | src/components/features/favorites/StatsDashboard.tsx:19 | one increment adds the key to the record's keys and keeps them distinct |
| StatsDashboard.TallyCounts | src/components/features/favorites/StatsDashboard.tsx:16-28 | after counting a list of keys, each key's count is its number of occurrences, the counts add up to the length, and no key has two entries |
| StatsDashboard.TagNames | src/components/features/favorites/StatsDashboard.tsx:23-27 | only non-empty tag names are counted |
| StatsDashboard.CategoryKeys | src/components/features/favorites/StatsDashboard.tsx:18 | one category key per bookmark, `未分類` when it has none |
| StatsDashboard.TallyTags | src/components/features/favorites/StatsDashboard.tsx:23-28 | the inner loop counts one post's named tags on top of the counts so far |
| StatsDashboard.Tabulate | src/components/features/favorites/StatsDashboard.tsx:16-28 | the two loops produce the counts of all category keys and of all tag names |
| StatsDashboard.CategoryCountsAddUp | src/components/features/favorites/StatsDashboard.tsx:16-19 | each category's count is its number of bookmarks, and the counts sum to the number of bookmarks |
| StatsDashboard.TagCountsStep | src/components/features/favorites/StatsDashboard.tsx:22-28 | a bookmark adds to each tag the number of times its post names that tag |
| StatsDashboard.EmptyNameNeverCounted | src/components/features/favorites/StatsDashboard.tsx:24-27 | nameless tags are never counted |
| StatsDashboard.Top | src/components/features/favorites/StatsDashboard.tsx:35-39 | `["無數據", 0]` for an empty record; otherwise an entry of the record whose count is at least every other |
| StatsDashboard.TagLabel | src/components/features/favorites/StatsDashboard.tsx:67 | the no-data text when there is no data, else `#` and the tag |
| StatsDashboard.NoBookmarksNoData | src/components/features/favorites/StatsDashboard.tsx:37 | with no bookmarks both cards show their no-data texts |
| PostCard.StripMarks | src/components/features/posts/PostCard.tsx:122 | no `#`, `*` or backtick survives, and the result is no longer than the content |
| PostCard.StripMarksAppend | src/components/features/posts/PostCard.tsx:122 | the kept characters stay in order: stripping a concatenation strips each part |
| PostCard.StripMarksOne | src/components/features/posts/PostCard.tsx:122 | a mark is deleted and every other character is kept |
| PostCard.StripMarksPlain | src/components/features/posts/PostCard.tsx:122 | content without marks is unchanged |
| PostCard.Excerpt | src/components/features/posts/PostCard.tsx:122 | a non-empty excerpt is shown as is; otherwise the first `min(n, len)` characters of the stripped content plus `...`, at most n + 3 long, with no marks |
| PostCard.PlainExcerpt | src/components/features/posts/PostCard.tsx:122 | without an excerpt, content free of marks shows its own first n characters plus `...` |
| PostCard.HeadingExcerpt | src/components/features/posts/PostCard.tsx:122 | a `## ` heading loses its hashes but keeps its space before the characters are counted |
| PostCard.CardExcerpt | src/components/features/posts/PostCard.tsx:253 | every variant but the sidebar shows the excerpt at its own length (100 hero, 120 list, 40 grid) |
| PostCard.RankText | src/components/features/posts/PostCard.tsx:177 | the ranking text has at least two characters |
| PostCard.RankBadge | src/components/features/posts/PostCard.tsx:173-177 | no badge iff the ranking is missing or 0; the badge shows the padded ranking and is highlighted iff the ranking is at most 3 |
| PostCard.RankTextDenotes | src/components/features/posts/PostCard.tsx:177 | a positive ranking's text is all digits, denotes the ranking, and has exactly two characters below 100 |
| PostCard.SeventhIsZeroPadded | src/components/features/posts/PostCard.tsx:177 | ranking 7 is shown as `07` |
| PostCard.ListCategoryLabel | src/components/features/posts/PostCard.tsx:240-245 | the category's name when there is a category, even an empty one; `Uncategorized` otherwise |
| PostCard.GridCategoryLabel | src/components/features/posts/PostCard.tsx:295 | the category's name when non-empty; `Uncategorized` when there is no category or its name is empty |
| PostCard.CategoryLabelsDiffer | src/components/features/posts/PostCard.tsx:295 | the two labels differ exactly for a category with an empty name |
| PostCard.PostLink | src/components/features/posts/PostCard.tsx:17 | the link is `/posts/` followed by the slug |
| CategoryListTable.SortedCategories | src/components/features/categories/CategoryListTable.tsx:12 | a permutation of the categories with counts non-increasing |
| CategoryListTable.RankStyle | src/components/features/categories/CategoryListTable.tsx:43-51 | rows 1, 2 and 3 get gold, silver and bronze, each only there; every other row is neutral |
| CategoryListTable.Rows | src/components/features/categories/CategoryListTable.tsx:35-59 | one row per category in sorted order, ranked from 1, styled by position, linking to `/categories/<slug>` |
| CategoryListTable.RowsRankEveryCategory | src/components/features/categories/CategoryListTable.tsx:12 | every category gets exactly one row, and the counts never increase down the table |
| CategoryListTable.SortedCategoriesStable | src/components/features/categories/CategoryListTable.tsx:12 | sorting the sorted list changes nothing |
| TagListTable.SortedTags | src/components/features/tags/TagListTable.tsx:12 | a permutation of the tags with counts non-increasing, a missing count as 0 |
| TagListTable.Render | src/components/features/tags/TagListTable.tsx:18-51 | the header gives the number of tags; each row has rank i + 1, the i-th sorted tag, its count or 0, and `/tags/<slug>` |
| TagListTable.MissingCountSortsLast | src/components/features/tags/TagListTable.tsx:12 | a tag without a count sorts below every tag with a positive count |
| TagListTable.SortedTagsStable | src/components/features/tags/TagListTable.tsx:12 | sorting the sorted list changes nothing |
| FavoriteTable.DisplayItems | src/components/features/favorites/FavoriteTable.tsx:12 | exactly the first `min(5, n)` bookmarks, in order |
| FavoriteTable.Rows | src/components/features/favorites/FavoriteTable.tsx:39-42 | one row per shown bookmark with its title, linking to `/posts/<slug>` |
| FavoriteTable.ViewAll | src/components/features/favorites/FavoriteTable.tsx:67-72 | the link to `/favorites/all` iff there are more than five bookmarks; its text gives the total |
| FavoriteTable.ViewAllIffSomeHidden | src/components/features/favorites/FavoriteTable.tsx:67 | the link appears iff the table leaves a bookmark out, and the table followed by the rest is the whole list |
| CloudLayout.Px | src/components/features/tags/TagCloud.tsx:43 | a length `<n>px` holds no space |
| CloudLayout.MarginSplits | src/components/features/tags/TagCloud.tsx:83-84 | splitting `"<Y>px <X>px"` on the space gives back exactly the two lengths |
| CloudLayout.SpacingOf | src/components/features/categories/CategoryCloud.tsx:82-83 | the bottom margin is `Y px` and the right margin `X px` |
| TagCloud.ColorClass | src/components/features/tags/TagCloud.tsx:29-32 | the colour is one of the five palette classes |
| TagCloud.ColorPeriodic | src/components/features/tags/TagCloud.tsx:31 | the colour is `palette[i mod 5]` and repeats every five items |
| TagCloud.Rotate | src/components/features/tags/TagCloud.tsx:37 | the tilt is `(7i) mod 15` degrees, positive for even and negative for odd indices, so at most 14 either way |
| TagCloud.MarginX | src/components/features/tags/TagCloud.tsx:38 | the right margin lies in 0..19 |
| TagCloud.MarginY | src/components/features/tags/TagCloud.tsx:39 | the bottom margin lies in 0..14 |
| TagCloud.StyleAt | src/components/features/tags/TagCloud.tsx:36-45 | an item's colour, tilt and margins are functions of its index alone |
| CategoryCloud.ColorClass | src/components/features/categories/CategoryCloud.tsx:26-35 | the colour is one of the five palette classes |
| CategoryCloud.ColorPeriodic | src/components/features/categories/CategoryCloud.tsx:34 | the colour is `palette[i mod 5]` and repeats every five items |
| CategoryCloud.Rotate | src/components/features/categories/CategoryCloud.tsx:40 | the tilt is `(13i) mod 10` degrees, positive for even indices, so at most 9 either way |
| CategoryCloud.MarginX | src/components/features/categories/CategoryCloud.tsx:41 | the right margin lies in 0..29 |
| CategoryCloud.MarginY | src/components/features/categories/CategoryCloud.tsx:42 | the bottom margin lies in 0..19 |
| CategoryCloud.StyleAt | src/components/features/categories/CategoryCloud.tsx:38-45 | an item's colour, tilt and margins are functions of its index alone |
| TableOfContents.Level | src/components/features/posts/TableOfContents.tsx:27 | `H2` gives level 2 and `H3` level 3 |
| TableOfContents.Extract | src/components/features/posts/TableOfContents.tsx:24-28 | one heading per element with its id and text (empty when missing), indented 0 for `h2` and 12 for `h3` |
| TableOfContents.LastReached | src/components/features/posts/TableOfContents.tsx:39-46 | the last heading in document order whose element exists at or above the scroll line, or none |
| TableOfContents.Contents.constructor | src/components/features/posts/TableOfContents.tsx:17-18 | no headings and no active entry at first |
| TableOfContents.Contents.Collect | src/components/features/posts/TableOfContents.tsx:19-31 | the headings are extracted from the content element; without it nothing changes |
| TableOfContents.Contents.HandleScroll | src/components/features/posts/TableOfContents.tsx:36-47 | the backward loop activates the last heading reached at `scrollY + 150`; with none reached the active entry stays |
| TableOfContents.Contents.Install | src/components/features/posts/TableOfContents.tsx:33-55 | the scroll handler is installed, and run once, iff there are headings |
| TableOfContents.Contents.ClickEntry | src/components/features/posts/TableOfContents.tsx:73-77 | clicking an entry activates it |
| TableOfContents.Contents.Render | src/components/features/posts/TableOfContents.tsx:57-87 | nothing iff there are no headings; otherwise one entry per heading with its text, `#id` link, indent and active mark |
| TableOfContents.LastReachedIs | src/components/features/posts/TableOfContents.tsx:39-45 | a reached heading with none reached after it is the one found |
| TableOfContents.LastReachedNone | src/components/features/posts/TableOfContents.tsx:39-47 | with no heading reached, none is found |
| CodeBlock.WordRun | src/components/markdown/CodeBlock.tsx:16 | the greedy `\w+` run: its characters are word characters and the next one is not |
| CodeBlock.FirstMatch | src/components/markdown/CodeBlock.tsx:16 | the leftmost `language-` followed by a word character, or none |
| CodeBlock.Language | src/components/markdown/CodeBlock.tsx:16-17 | empty without a match; otherwise the maximal non-empty word run right after the leftmost match |
| CodeBlock.ClassName | src/components/markdown/CodeBlock.tsx:14 | a present `className` is returned as is; a missing child, `props` or `className` gives `""` |
| CodeBlock.Label | src/components/markdown/CodeBlock.tsx:41 | never empty; the language when there is one, else `TEXT` |
| CodeBlock.PythonExample | src/components/markdown/CodeBlock.tsx:16-17 | `language-python` names `python` |
| CodeBlock.BarePrefixHasNoLanguage | src/components/markdown/CodeBlock.tsx:16-17 | a `language-` with nothing after it names no language |
| CodeBlock.CopyButton.constructor | src/components/markdown/CodeBlock.tsx:8 | the button starts not copied |
| CodeBlock.CopyButton.Copy | src/components/markdown/CodeBlock.tsx:20-27 | nothing is attempted without the `pre` element; an accepted clipboard write shows "copied"; a rejected one changes nothing |
| CodeBlock.CopyButton.TimerFires | src/components/markdown/CodeBlock.tsx:27 | the timer clears "copied" |

## Left out

- Network, storage and navigation: the `fetch` calls, `localStorage`, the router and `window.confirm`. Their results are parameters (`Result` outcomes, a token, a `confirmed` flag).
- `getAllPosts` and `updatePostStatus`, called by the admin page, are not defined in `src/services/postService.ts`. Their outcomes are parameters.
- The `createPost`, `updatePost` and `uploadImage` requests themselves are not modelled; their outcomes are parameters. `updatePost`'s fixed message is kept only as a constant, because the write page shows its own fixed alert instead (`src/app/admin/write/page.tsx:160`). `deleteComment`'s fixed message is what the comment list shows on a failed delete (`CommentSection.FailedDeleteShowsServiceMessage`).
- Third-party rendering: react-markdown with its plugins, Prism, framer-motion animations and the toast component.
- Floating point: the clouds' `getSizeStyles`, which scales by the largest count.
- ApiClient.ErrorMessage: the error body is modelled as a JSON object; a body that fails to parse counts as `{}` (`src/services/apiClient.ts:35`), and an array, string, number or boolean body has no `detail` or `message` and gives the generic text, as an empty object does. A body that parses to `null` is not modelled: there `errorData.detail` (`src/services/apiClient.ts:36`) throws a TypeError, and callers receive that error's message instead of any of the three modelled messages.
- PostService.CreatePostError, PostService.CreateCommentError, PostService.UpdateCommentError, PostService.UploadImageError: the error body is modelled as a JSON object. A body that fails to parse counts as `{}` (`src/services/postService.ts:18`, `:109`, `:148`, `:170`). An array, string, number or boolean body has no `detail` or `content` and gives the fixed text, as an empty object does. A body that parses to `null` is not modelled: reading `errorData.detail` (`src/services/postService.ts:19`, `:110`, `:171`) or `errorData.content` (`src/services/postService.ts:149`) then throws a TypeError, and callers receive that error's message instead of `String(detail)` or the fixed text.
- JSON numbers are integers: fractions, NaN and infinities in error payloads are not represented, so `String(v)` of a fractional number is not modelled.
- Dates and locale: timestamps are abstract integers, and an unparsable date (NaN) is not represented. The statistics' date bucket (`toLocaleDateString`) is not modelled.
- Timers and focus: the cursor restore in `setTimeout` is not modelled; the model sets the selection at once. The selector's 200 ms blur delay and the copy button's 2 s reset are modelled only as separate events (`Blur`, `TimerFires`).
- String lengths count Unicode scalar values; JavaScript counts UTF-16 code units. The two differ for characters outside the Basic Multilingual Plane in `truncateTitle`, `substring` and `padStart`.
- `toLowerCase` is modelled for ASCII letters only.
- `String.prototype.replace` with a string pattern is modelled for literal replacement texts; `$` patterns in the replacement are not.
- `new URL(...)` is modelled for `http://` and `https://` URLs with a non-empty host; credentials, ports and the URL parser's normalisations are left out.
- `Record<string, number>` keys are kept in insertion order. JavaScript enumerates integer-like keys first, which only changes which tied entry `getTop` picks. Keys inherited from `Object.prototype` (`constructor`, `__proto__`) are not modelled.
- StatsDashboard.Top: states that the chosen entry has a maximal count, not which of several tied entries the sort leaves first.
- HomePage.SortedByDate, HomePage.SortedByPopularity, CategoryListTable.SortedCategories, TagListTable.SortedTags: the model's sort is stable, and the contracts state ordering and permutation, not the order among equal keys.
- UrlHelpers.ReplaceAll: its own contract states only the length bound; the left-to-right scan is stated by `ReplaceAllNoMatch` and `ReplaceAllFirstMatch`, which together fix the whole result, with `ReplaceAllLength` and `ReplaceAllKeepsPrefix`; keeping these out of the function's own contract keeps each proof about it small.
- UrlHelpers.ProcessContentImages: its own contract states the empty case, the no-match case and the length change; the rest of the rewrite is stated about `ReplaceAll` (`ReplaceAllFirstMatch`, `ReplaceAllKeepsPrefix`), not repeated here.
- The image dialog's `if (!isOpen) return null` is not modelled: the dialog's state is modelled as if always mounted.
- The key strings React uses for list items, and the text the copy button copies (`innerText`), are not modelled.
- The write page's cover preview URL is created but never revoked; the model records the URL and, like the source, does not revoke it.
