# Blog CMS core, modelled in Dafny

This project models the self-contained logic of a React blog CMS and proves properties of it. The app has a public blog, an admin area and a global store.

- **Blog side.** The model covers:
  - ranking related posts;
  - the listing pipelines of the post grid, the post list, the search results and the sidebar (filter, sort, paginate);
  - the page-number window of the pagination control;
  - the comment thread's guards;
  - two newsletter sign-up boxes;
  - the password-reset form;
  - the SEO head derivations.
- **Admin side.** The model covers:
  - the category manager, user management and comment moderation lists, each edited by id;
  - the media library's accept/size validator and merge rule;
  - the post editor's field updates, tag parsing and slug button;
  - the analytics duration formatter.
- **Shared code.**
  - The text utilities: slug, reading time, truncation, excerpt, `classNames`, the e-mail regular expression and the status colours.
  - The global store's actions, getters and persisted projection.

The model takes the form of the code it describes:

- **Expression chains** become functions. Lemmas then state what the chains compute: subsequences, permutations, order, stability, bounds, round trips and idempotence.
- **Components and the store** become classes whose fields are the component state. Each handler is a method whose `ensures` gives the whole new state, usually as `Snapshot() == old(Snapshot()).(field := ...)`.
- **Loops in the source** are methods with loops proved against a specification function:
  - the pushes of `getVisiblePages`;
  - the `Map` and `Set` filling in `PostList` and `SearchResults`;
  - the upload loop.
- **The user filter effect** reassigns its list through a chain of conditional `.filter` calls, with no loop. It is a method that does the same conditional reassignments, proved equal to one specification function.
- **Awaited calls** (a subscription, a password update) are split in two:
  - the handler up to the `await` returns the request and sets the busy flag;
  - a `Settle` method takes the outcome as an event.

  The media upload is split the same way (`BeginUpload`, `FinishUpload`). The list reported to `onFileSelect` is built from the `files` the running `handleFiles` closed over, not from the current list. A drop always reaches the first render's handler, whose list was empty, so with `multiple` the report after a drop leaves out the files already listed (`MediaUpload.StaleReport`).
- **Inputs from the environment** are parameters: clock readings (`now`), generated ids, object URLs, `window.confirm` answers and loaded mock data.

Module layout, one file each:

| module | what it holds |
|---|---|
| `Js` | JavaScript string and number semantics (see the list below) |
| `Seqs` | filter, map-where, dedup-by-key and toggle, with their laws |
| `Sorting` | a stable insertion sort standing for `Array.prototype.sort`, which is stable since ES2019, with its proofs |
| `Types` | the entities of `src/types/index.ts` |
| `Paging` | the shared page slice and the "Showing a-b of n" figures |

The `Js` module covers:

- `trim` over the `\s` set;
- `split`, `join` and `slice` with negative indices;
- `includes`, `startsWith` and `endsWith`;
- truncating `%` and `Math.ceil` division;
- number-to-string conversion and `padStart`.

Every other module is named after its component.

## Model

| member | source | states |
|---|---|---|
| RelatedPosts.RelatedEligible | src/components/blog/RelatedPosts.tsx:28-30 | every related post comes from the pool, is published, and has an id different from the current post's |
| RelatedPosts.RelatedNoneEligible | src/components/blog/RelatedPosts.tsx:32 | with no eligible candidate the result is empty |
| RelatedPosts.RelatedLength | src/components/blog/RelatedPosts.tsx:79-82 | the result has min(maxPosts, number of eligible posts) entries |
| RelatedPosts.RelatedOrdered | src/components/blog/RelatedPosts.tsx:79-82 | the result is the posts of the first maxPosts ranked entries; scores do not increase; equal-score entries keep pool order |
| RelatedPosts.RankedProps | src/components/blog/RelatedPosts.tsx:35-80 | the ranking is a permutation of the scored pool, in non-increasing score order, stable on ties |
| RelatedPosts.RankedEntries | src/components/blog/RelatedPosts.tsx:26-76 | every ranked entry is an eligible pool post paired with its own score |
| RelatedPosts.ScoreAll | src/components/blog/RelatedPosts.tsx:35-76 | one scored entry per candidate, in candidate order, carrying that candidate's score |
| RelatedPosts.PostsOf | src/components/blog/RelatedPosts.tsx:82 | the posts of the entries, in order |
| RelatedPosts.HigherFirstIsComparator | src/components/blog/RelatedPosts.tsx:80 | `b.score - a.score` is a total preorder, so the sort's guarantees apply |
| RelatedPosts.SharedCategoriesBounds | src/components/blog/RelatedPosts.tsx:39-42 | the number of shared categories is at most the current post's; it is all of them when the candidate has them all, and none when no id is shared |
| RelatedPosts.SharedCategoriesGrow | src/components/blog/RelatedPosts.tsx:39-42 | giving the candidate another category never lowers the shared count |
| RelatedPosts.SharedTagsGrow | src/components/blog/RelatedPosts.tsx:45-48 | giving the candidate another tag never lowers the shared count |
| RelatedPosts.LengthTermProps | src/components/blog/RelatedPosts.tsx:56-62 | the length term lies in [0, 5]; it is 5 for equal non-empty contents and 0 when exactly one content, or both, are empty |
| RelatedPosts.RecencyBands | src/components/blog/RelatedPosts.tsx:65-67 | the recency bonus is 2 within 7 days, 1 within 30 days and 0 otherwise, with the days compared as exact rationals |
| RelatedPosts.DaysAtMost | src/components/blog/RelatedPosts.tsx:65-66 | comparing the rational age in days with d is the same as comparing the age with d days of milliseconds |
| RelatedPosts.ScoreBonuses | src/components/blog/RelatedPosts.tsx:51-73 | the same author adds exactly 8, more than 100 views exactly 1, and the featured flag exactly 2 |
| RelatedPosts.ScoreNonNegative | src/components/blog/RelatedPosts.tsx:36-75 | every score is at least 0 |
| RelatedPosts.ScoreMonotone | src/components/blog/RelatedPosts.tsx:39-48 | adding a category or a tag to the candidate never lowers its score |
| PostGrid.FilterPostsSpec | src/components/blog/PostGrid.tsx:38-67 | the chain of optional filters equals one filter by the conjunction of search text, category slug, and all tag slugs (AND) |
| PostGrid.FilterPostsProps | src/components/blog/PostGrid.tsx:38-67 | the shown posts are a subsequence of the posts; they are exactly those meeting every active filter |
| PostGrid.FilterPostsNoFilters | src/components/blog/PostGrid.tsx:38-67 | with no query, category or tag, every post is shown |
| PostGrid.GridCompareIsComparator | src/components/blog/PostGrid.tsx:70-91 | the sort comparator is a total preorder for every field and order |
| PostGrid.SortPostsProps | src/components/blog/PostGrid.tsx:70-91 | the sorted list is a permutation, ordered by the comparator, and stable |
| PostGrid.SortPostsOrder | src/components/blog/PostGrid.tsx:70-91 | date and popularity sort descending unless the order is 'asc'. Title sorts by the collation ascending for 'desc' and descending for 'asc', the reverse of the labels |
| PostGrid.SortPostsUnknownField | src/components/blog/PostGrid.tsx:88-89 | an unknown sort field leaves the order unchanged |
| PostGrid.ParseSortRoundTrip | src/components/blog/PostGrid.tsx:118-122 | the select value `field-order` parses back into its field and order |
| PostGrid.GridState.constructor | src/components/blog/PostGrid.tsx:25-30 | page 1, no category, no tags, sort by date descending |
| PostGrid.GridState.SetSearchQuery | src/components/blog/PostGrid.tsx:33-35 | a new query resets the page to 1; nothing else changes |
| PostGrid.GridState.HandlePageChange | src/components/blog/PostGrid.tsx:101-104 | only the page changes |
| PostGrid.GridState.HandleCategoryChange | src/components/blog/PostGrid.tsx:106-108 | the category becomes the slug or ''; a changed category resets the page |
| PostGrid.GridState.HandleTagToggle | src/components/blog/PostGrid.tsx:110-116 | the slug is removed if selected and appended otherwise; the page resets |
| PostGrid.GridState.HandleSortChange | src/components/blog/PostGrid.tsx:118-122 | field and order come from the split value; a changed sort resets the page |
| PostGrid.GridState.ClearAll | src/components/blog/PostGrid.tsx:222-225 | no category, no tags, page 1; the sort and query stay |
| Paging.TotalPages | src/components/blog/PostGrid.tsx:94 | the page count is the least k with k pages covering all items |
| Paging.PageContents | src/components/blog/PostGrid.tsx:94-99 | a page is the slice starting at (page-1)*perPage, of at most perPage items |
| Paging.PageBeyondLast | src/components/blog/PostGrid.tsx:94-99 | a page past the last is empty |
| Paging.PagesPrefix | src/components/blog/PostList.tsx:76-78 | the first m pages concatenated are the first m*perPage items |
| Paging.PagesCoverAll | src/components/blog/PostList.tsx:76-78 | all pages concatenated give back every item in order |
| Paging.PageRangeCounts | src/components/blog/PostGrid.tsx:279-281 | on an existing page the "Showing a-b of n" figures satisfy 1 <= a <= b <= n and count exactly the items shown |
| PostList.ListCompareIsComparator | src/components/blog/PostList.tsx:28-52 | the sort comparator is a total preorder |
| PostList.SortPostsProps | src/components/blog/PostList.tsx:28-52 | the sorted list is a permutation, ordered by the comparator, and stable |
| PostList.SortPostsOrder | src/components/blog/PostList.tsx:28-52 | 'date' sorts newest first, 'readingTime' longest first and 'popularity' most viewed first, and 'asc' reverses each; 'title' sorts by ascending collation, and by descending collation under 'asc' |
| PostList.FilterByCategoryProps | src/components/blog/PostList.tsx:55-60 | no selection keeps the sorted list; a selection keeps exactly the posts with a category of that id, in sorted order |
| PostList.UniqueCategories | src/components/blog/PostList.tsx:63-73 | the loop over posts and their categories yields the first category seen for each id, in discovery order |
| PostList.UniqueCategoriesProps | src/components/blog/PostList.tsx:63-73 | the categories have distinct ids, cover every id that occurs, form a subsequence of all categories, and each is the first with its id |
| PostList.ListPages | src/components/blog/PostList.tsx:76-78 | a page holds at most ten posts and the pages together are the filtered list |
| PostList.ListState.constructor | src/components/blog/PostList.tsx:21-25 | sort by date descending, no category, page 1 |
| PostList.ListState.SetCategory | src/components/blog/PostList.tsx:81-83 | the category is set; a change resets the page |
| PostList.ListState.HandleSortChange | src/components/blog/PostList.tsx:85-87 | the sort field is set; a change resets the page |
| PostList.ListState.ToggleOrder | src/components/blog/PostList.tsx:149 | 'asc' becomes 'desc' and anything else 'asc'; the page resets |
| PostList.ListState.HandlePageChange | src/components/blog/PostList.tsx:89-92 | only the page changes |
| PostList.ListState.ClearFilters | src/components/blog/PostList.tsx:156-164 | the category is cleared and the sort is back to date descending, so the button is no longer offered; the page resets when something changed |
| SearchResults.UniqueNames | src/components/blog/SearchResults.tsx:45-66 | the loop filling the Set yields each name once, in first-seen order |
| SearchResults.UniqueNamesProps | src/components/blog/SearchResults.tsx:45-66 | the names are distinct; they are exactly the names that occur, as a subsequence |
| SearchResults.CategoryNames | src/components/blog/SearchResults.tsx:46-49 | one name per category, in order |
| SearchResults.TagNames | src/components/blog/SearchResults.tsx:54-57 | one name per tag, in order |
| SearchResults.CategoryLists | src/components/blog/SearchResults.tsx:45-51 | one list of category names per post |
| SearchResults.TagLists | src/components/blog/SearchResults.tsx:53-59 | one list of tag names per post |
| SearchResults.AuthorLists | src/components/blog/SearchResults.tsx:61-66 | one author name per post |
| SearchResults.KeepAnyName | src/components/blog/SearchResults.tsx:71-86 | a kept post has at least one selected category name and one selected tag name: the filters are OR on names |
| SearchResults.OneCategorySuffices | src/components/blog/SearchResults.tsx:73-78 | one matching category name is enough to keep a post, whatever else is selected |
| SearchResults.OneTagSuffices | src/components/blog/SearchResults.tsx:80-86 | one matching tag name is enough to keep a post, whatever else is selected |
| SearchResults.DateRangeFilter | src/components/blog/SearchResults.tsx:91-100 | 'today', 'week' and 'month' keep posts no older than 1, 7 or 30 days; any other range keeps everything |
| SearchResults.ReadingTimeFilter | src/components/blog/SearchResults.tsx:102-109 | 'quick' keeps reading times up to 5, 'medium' up to 15, any other choice up to 999 |
| SearchResults.AuthorFilter | src/components/blog/SearchResults.tsx:111-113 | a selected author keeps exactly that author's posts |
| SearchResults.ResultsUnfiltered | src/components/blog/SearchResults.tsx:71-140 | no filters and relevance sort give the posts unchanged |
| SearchResults.ComparatorsAreComparators | src/components/blog/SearchResults.tsx:119-140 | the three comparators are total preorders |
| SearchResults.SortResultsProps | src/components/blog/SearchResults.tsx:119-140 | sorting is a permutation: date newest first, views most first, reading time quickest first |
| SearchResults.SortResultsStable | src/components/blog/SearchResults.tsx:119-140 | each sort keeps equal elements in filtered order |
| SearchResults.HasActiveFiltersIff | src/components/blog/SearchResults.tsx:160-162 | a filter is active exactly when the record differs from the cleared one |
| SearchResults.CheckboxUndo | src/components/blog/SearchResults.tsx:262-268 | checking then unchecking an unchecked box restores the selection |
| SearchResults.SearchState.constructor | src/components/blog/SearchResults.tsx:33-42 | relevance sort and no filters |
| SearchResults.SearchState.HandleFilterChange | src/components/blog/SearchResults.tsx:143-148 | only the named filter changes |
| SearchResults.SearchState.SetSortBy | src/components/blog/SearchResults.tsx:33-34 | only the sort option changes |
| SearchResults.SearchState.ClearFilters | src/components/blog/SearchResults.tsx:150-158 | every filter is cleared and none is active; the sort stays |
| Sidebar.RecentPostsProps | src/components/blog/Sidebar.tsx:31-35 | five published posts of the store, or all of them when there are fewer, newest first; no published post left out is newer than one shown |
| Sidebar.PopularPostsProps | src/components/blog/Sidebar.tsx:38-41 | five published posts with views, or all of them when there are fewer, most viewed first; no such post left out has more views than one shown |
| Sidebar.FeaturedPostsProps | src/components/blog/Sidebar.tsx:44-46 | the first (at most three) published featured posts in pool order, exactly three when there are that many |
| Sidebar.SortedTake | src/components/blog/Sidebar.tsx:31-41 | the first k of a sorted list are sorted, drawn from the list, k long or the whole list, and nothing left out ranks before anything taken |
| Sidebar.SortedTop | src/components/blog/Sidebar.tsx:31-41 | sorting a pool and taking the first k gives a sorted run of pool elements, k long or the whole pool, with no pool element left out ranking before one taken |
| Sidebar.CategoryCountProps | src/components/blog/Sidebar.tsx:106-109 | a category's count adds one per published post carrying it and never exceeds the published posts |
| Sidebar.HandleCategoryClick | src/components/blog/Sidebar.tsx:48-50 | the store's selected category becomes the id; nothing else changes |
| Sidebar.HandleTagClick | src/components/blog/Sidebar.tsx:52-57 | the id is toggled in the store's selected tags; nothing else changes |
| Sidebar.ClearFilters | src/components/blog/Sidebar.tsx:59-62 | no selected category and no selected tags; nothing else changes |
| Pagination.GetVisiblePages | src/components/blog/Pagination.tsx:37-84 | the pushes across the three branches build exactly the specified page window |
| Pagination.PushRun | src/components/blog/Pagination.tsx:41-45 | a `for` loop of pushes appends the run lo..hi |
| Pagination.PushMiddle | src/components/blog/Pagination.tsx:50-75 | the pushes between the first and the last page build exactly the middle of the window, in each of the three cases |
| Pagination.PushInside | src/components/blog/Pagination.tsx:66-75 | a loop that skips the first and last page appends the run clipped to 2..total-1 |
| Pagination.RunAscending | src/components/blog/Pagination.tsx:41-45 | a run holds hi-lo+1 consecutive pages in increasing order |
| Pagination.VisibleAllPages | src/components/blog/Pagination.tsx:41-45 | when every page fits, the window is 1..total |
| Pagination.MiddleAscending | src/components/blog/Pagination.tsx:50-75 | between the first and last entries, every page number lies in 2..total-1, increasing |
| Pagination.VisibleWindow | src/components/blog/Pagination.tsx:47-80 | with more pages than fit, the window starts with page 1 and ends with the last page, with numbers strictly increasing |
| Pagination.VisibleAtStart | src/components/blog/Pagination.tsx:50-57 | page 1 of 10 shows 1 2 3 4 … 10 |
| Pagination.VisibleAtEnd | src/components/blog/Pagination.tsx:58-65 | page 10 of 10 shows 1 … 7 8 9 10 |
| Pagination.VisibleInMiddle | src/components/blog/Pagination.tsx:66-75 | page 5 of 10 shows 1 … 4 5 6 … 10 |
| Pagination.Render | src/components/blog/Pagination.tsx:33-35 | nothing is rendered for at most one page; otherwise the window |
| Pagination.PageChange | src/components/blog/Pagination.tsx:86-90 | a page is reported only if it lies in 1..total and differs from the current one |
| Pagination.PageInfoAgrees | src/components/blog/Pagination.tsx:92-96 | the control's item figures equal the list summaries' and count exactly the page's items |
| Utils.SlugWithIsSlug | src/utils/index.ts:1-8 | any keep-class inside a-z, 0-9, '-' and white space yields only a-z, 0-9 and single dashes |
| Utils.GenerateSlugProps | src/utils/index.ts:1-8 | the slug uses only a-z, 0-9 and '-', has no "--", and is idempotent |
| Utils.SlugWithFixesSlugs | src/utils/index.ts:1-8 | a string that is already a slug is its own slug |
| Utils.CollapseRuns | src/utils/index.ts:4-5 | a run of matching characters becomes one replacement; other characters are kept |
| Utils.CollapseRunsFixed | src/utils/index.ts:4-5 | a string with no run to collapse is unchanged |
| Utils.SlugTabExample | src/utils/index.ts:3-4 | for any two lower-case letters, a tab between them becomes '-' in the shared slug and is dropped in the editors' slug |
| Utils.GenerateSlugTab | src/utils/index.ts:3-4 | for any two lower-case letters, the shared slug turns a tab between them into one '-' |
| Utils.EditorSlugTab | src/components/admin/PostEditor.tsx:112-114 | for any two lower-case letters, the editors' slug drops a tab between them, since it keeps only a-z, 0-9, space and '-' |
| Utils.ReadingTimeProps | src/utils/index.ts:30-34 | the time is at least 1 and blank text counts as one word. Otherwise the words are the white-space-separated runs; the time is the least k with 200k >= words |
| Utils.SplitOnSpaceRunsCount | src/utils/index.ts:32 | splitting trimmed text on white-space runs yields one non-empty piece per word start |
| Utils.SplitOnSpaceRunsConcat | src/utils/index.ts:32 | the pieces together are the text without its white space |
| Utils.TruncateTextProps | src/utils/index.ts:36-39 | short text is unchanged; longer text is its trimmed prefix plus "...", at most three characters over the limit |
| Utils.StripTags | src/utils/index.ts:42 | removing tags never lengthens the text and adds no character |
| Utils.StripTagsNoTags | src/utils/index.ts:42 | the result contains no '<' followed later by '>' |
| Utils.StripTagsFixed | src/utils/index.ts:42 | text without tags is unchanged |
| Utils.ExcerptProps | src/utils/index.ts:41-45 | the excerpt keeps no tag, stripping is idempotent, and text without '<' is only truncated |
| Utils.ClassNamesEmpty | src/utils/index.ts:58-60 | the class string is empty exactly when no argument is truthy |
| Utils.ClassNamesSplit | src/utils/index.ts:58-60 | splitting the class string on spaces gives back the truthy arguments' texts in order |
| Utils.IsValidEmailIff | src/utils/index.ts:62-65 | the regular expression accepts exactly the strings without white space that have one '@' with text before it and a '.' after it that has text on both sides |
| Utils.MatchHasShape | src/utils/index.ts:62-65 | every match has that shape |
| Utils.ShapeMatches | src/utils/index.ts:62-65 | every string of that shape matches |
| Utils.PostStatusColor | src/utils/index.ts:71-82 | green exactly for published, blue exactly for scheduled, grey otherwise |
| Utils.CommentStatusColor | src/utils/index.ts:84-95 | green for approved, yellow for pending, red for rejected, grey otherwise |
| Types.CategoryIds | src/types/index.ts:24-30 | the ids of the categories, in order |
| Types.TagIds | src/types/index.ts:32-37 | the ids of the tags, in order |
| Types.PostPatchLaws | src/store/index.ts:98-103 | an empty patch changes nothing; supplied fields win; an absent id is kept; applying a patch twice is like once |
| Store.UpdateByIdProps | src/store/index.ts:98-103 | an update changes exactly the entries with the id, keeps length and order, and is a no-op for an unknown id |
| Store.DeleteByIdProps | src/store/index.ts:104-107 | a delete keeps exactly the entries without the id, in order; deleting twice is like once |
| Store.UpdatePostKeepsIds | src/store/index.ts:98-103 | a patch without an id keeps every post's id |
| Store.GettersProps | src/store/index.ts:164-172 | the published and draft lists are exactly the posts of that status, in order; featured is the published list cut at three, whatever the flag |
| Store.PartializeIff | src/store/index.ts:176-180 | two states persist alike exactly when they agree on the user, the authentication flag and the sidebar flag |
| Store.BlogStore.constructor | src/store/index.ts:80-93 | empty lists, no current post, null user, not authenticated, empty query, no selection |
| Store.BlogStore.SetPosts | src/store/index.ts:96 | only the posts are replaced |
| Store.BlogStore.AddPost | src/store/index.ts:97 | the post is put first |
| Store.BlogStore.UpdatePost | src/store/index.ts:98-103 | the posts with the id are patched; nothing else changes |
| Store.BlogStore.DeletePost | src/store/index.ts:104-107 | the posts with the id are removed; nothing else changes |
| Store.BlogStore.SetCurrentPost | src/store/index.ts:108 | only the current post changes |
| Store.BlogStore.SetPostsLoading | src/store/index.ts:109 | only the loading flag changes |
| Store.BlogStore.SetPostsError | src/store/index.ts:110 | only the error changes |
| Store.BlogStore.SetCategories | src/store/index.ts:112 | only the categories are replaced |
| Store.BlogStore.AddCategory | src/store/index.ts:113-114 | the category is appended last |
| Store.BlogStore.UpdateCategory | src/store/index.ts:115-120 | the categories with the id are patched |
| Store.BlogStore.DeleteCategory | src/store/index.ts:121-124 | the categories with the id are removed |
| Store.BlogStore.SetTags | src/store/index.ts:126 | only the tags are replaced |
| Store.BlogStore.AddTag | src/store/index.ts:127-128 | the tag is appended last |
| Store.BlogStore.UpdateTag | src/store/index.ts:129-134 | the tags with the id are patched |
| Store.BlogStore.DeleteTag | src/store/index.ts:135-138 | the tags with the id are removed |
| Store.BlogStore.SetComments | src/store/index.ts:140 | only the comments are replaced |
| Store.BlogStore.AddComment | src/store/index.ts:141-142 | the comment is put first |
| Store.BlogStore.UpdateComment | src/store/index.ts:143-148 | the comments with the id are patched |
| Store.BlogStore.DeleteComment | src/store/index.ts:149-152 | the comments with the id are removed |
| Store.BlogStore.SetUser | src/store/index.ts:154 | only the user changes |
| Store.BlogStore.SetIsAuthenticated | src/store/index.ts:155 | only the authentication flag changes |
| Store.BlogStore.SetAuthLoading | src/store/index.ts:156 | only the auth loading flag changes |
| Store.BlogStore.SetSidebarOpen | src/store/index.ts:158 | only the sidebar flag changes |
| Store.BlogStore.SetSearchQuery | src/store/index.ts:159 | only the query changes |
| Store.BlogStore.SetSelectedCategory | src/store/index.ts:160 | only the selected category changes |
| Store.BlogStore.SetSelectedTags | src/store/index.ts:161 | only the selected tags change |
| CategoryManager.SavedEditing | src/components/admin/CategoryManager.tsx:70-77 | an edit overwrites name, slug and description of the category with the editing id, keeps its id, post count and creation date, and leaves every other category alone |
| CategoryManager.SavedCreating | src/components/admin/CategoryManager.tsx:78-89 | a create appends one category built from the form with post count 0 |
| CategoryManager.EditThenSubmit | src/components/admin/CategoryManager.tsx:98-106 | editing a category and submitting unchanged only turns a missing description into '' |
| CategoryManager.DeletedProps | src/components/admin/CategoryManager.tsx:108-117 | a delete keeps exactly the other categories, in order |
| CategoryManager.FormOf | src/components/admin/CategoryManager.tsx:100-104 | the form gets the name and slug, and the description or '' |
| CategoryManager.WithSlug | src/components/admin/CategoryManager.tsx:126-134 | only the slug changes, to the name's slug made of a-z, 0-9 and single dashes |
| CategoryManager.Manager.constructor | src/components/admin/CategoryManager.tsx:19-27 | no categories, form closed and empty, nothing being edited |
| CategoryManager.Manager.Load | src/components/admin/CategoryManager.tsx:33-64 | only the categories are replaced, by the loaded list |
| CategoryManager.Manager.OpenForm | src/components/admin/CategoryManager.tsx:153 | only the form opens |
| CategoryManager.Manager.SetField | src/components/admin/CategoryManager.tsx:185 | only the named form field changes |
| CategoryManager.Manager.HandleSubmit | src/components/admin/CategoryManager.tsx:66-96 | the list is saved (update or create) and the form is reset and closed |
| CategoryManager.Manager.HandleEdit | src/components/admin/CategoryManager.tsx:98-106 | the category becomes the editing target, is copied into the form, and the form opens |
| CategoryManager.Manager.HandleDelete | src/components/admin/CategoryManager.tsx:108-118 | a confirmed delete removes the id; a refused one changes nothing |
| CategoryManager.Manager.ResetForm | src/components/admin/CategoryManager.tsx:120-124 | empty form, nothing edited, form closed; the list stays |
| CategoryManager.Manager.GenerateSlug | src/components/admin/CategoryManager.tsx:206 | only the form's slug changes |
| UserManagement.FilterUsers | src/pages/admin/UserManagement.tsx:65-84 | the successive conditional filters give exactly the users meeting every active filter |
| UserManagement.VisibleProps | src/pages/admin/UserManagement.tsx:65-84 | the visible users are a subsequence; each meets the case-insensitive search and the exact role and status; every matching user is shown |
| UserManagement.VisibleNoFilters | src/pages/admin/UserManagement.tsx:66-83 | with no filter, every user is visible |
| UserManagement.WithRoleProps | src/pages/admin/UserManagement.tsx:96-98 | only the role of the users with the id changes; the length is kept |
| UserManagement.WithStatusProps | src/pages/admin/UserManagement.tsx:112-114 | only the status of the users with the id changes; the length is kept |
| UserManagement.DeleteHides | src/pages/admin/UserManagement.tsx:130 | after a delete, no visible user has the id and every other user remains |
| UserManagement.UserAdmin.constructor | src/pages/admin/UserManagement.tsx:61 | the loaded users, all visible, no filters |
| UserManagement.UserAdmin.Refilter | src/pages/admin/UserManagement.tsx:65-84 | the visible list is recomputed from the users and filters |
| UserManagement.UserAdmin.SetSearchTerm | src/pages/admin/UserManagement.tsx:21 | the term is set and the visible list recomputed |
| UserManagement.UserAdmin.SetRoleFilter | src/pages/admin/UserManagement.tsx:22 | the role filter is set and the visible list recomputed |
| UserManagement.UserAdmin.SetStatusFilter | src/pages/admin/UserManagement.tsx:23 | the status filter is set and the visible list recomputed |
| UserManagement.UserAdmin.HandleRoleChange | src/pages/admin/UserManagement.tsx:88-102 | the role is updated by id and the visible list recomputed |
| UserManagement.UserAdmin.HandleStatusChange | src/pages/admin/UserManagement.tsx:104-118 | the status is updated by id and the visible list recomputed |
| UserManagement.UserAdmin.HandleDeleteUser | src/pages/admin/UserManagement.tsx:120-134 | a confirmed delete removes the id from the users and from the visible list; a refused one changes nothing |
| CommentModeration.FilteredProps | src/components/admin/CommentModeration.tsx:107-109 | 'all' shows every comment; any other value shows exactly the comments with that status, in order |
| CommentModeration.WithStatusProps | src/components/admin/CommentModeration.tsx:68-76 | only the status of the comments with the id changes; nothing is removed |
| CommentModeration.OfferedProps | src/components/admin/CommentModeration.tsx:173-201 | Approve and Reject are offered exactly for pending comments; Delete always |
| CommentModeration.DeleteKeepsComment | src/components/admin/CommentModeration.tsx:194-200 | Delete marks the comment rejected and keeps the count |
| CommentModeration.StatusColorAgrees | src/components/admin/CommentModeration.tsx:78-91 | the badge colours equal the shared comment colours: yellow, green and red, with grey for spam and unknown statuses |
| CommentModeration.Moderation.constructor | src/components/admin/CommentModeration.tsx:26-28 | the loaded comments with filter 'all', so all are shown |
| CommentModeration.Moderation.SetStatusFilter | src/components/admin/CommentModeration.tsx:28 | only the filter changes |
| CommentModeration.Moderation.HandleStatusChange | src/components/admin/CommentModeration.tsx:68-76 | the status is updated by id; the count is unchanged |
| CommentModeration.Moderation.Perform | src/components/admin/CommentModeration.tsx:173-200 | an offered button sets its status on that comment |
| MediaUpload.SomeEntryMatchesIff | src/components/admin/MediaUpload.tsx:67-72 | `some` holds exactly when one entry matches |
| MediaUpload.WildcardEntry | src/components/admin/MediaUpload.tsx:68-70 | an entry ending "/*" matches exactly the MIME types that start with the entry minus its '*' |
| MediaUpload.ExtensionEntry | src/components/admin/MediaUpload.tsx:71 | any other entry matches the exact MIME type, or a name ending with the entry minus its first character |
| MediaUpload.ExtensionWithoutDot | src/components/admin/MediaUpload.tsx:71 | '.pdf' accepts a file named "notapdf" |
| MediaUpload.EmptyEntryMatchesAll | src/components/admin/MediaUpload.tsx:71 | an empty entry, as left by a trailing comma, matches every file |
| MediaUpload.SplitFive | src/components/admin/MediaUpload.tsx:67 | five comma-free entries joined by commas split back into those five |
| MediaUpload.SomeOfFive | src/components/admin/MediaUpload.tsx:67-72 | a five-entry list matches exactly when one of its entries does |
| MediaUpload.DefaultEntryRules | src/components/admin/MediaUpload.tsx:67-72 | what each default entry matches: image/ and video/ prefixes, and pdf, doc and docx name endings or exact types |
| MediaUpload.FiveEntryTypes | src/components/admin/MediaUpload.tsx:67-72 | an accept string splitting into the default entries accepts exactly the types and names of those rules |
| MediaUpload.DefaultAcceptEntries | src/components/admin/MediaUpload.tsx:37 | the default accept string splits into its five entries |
| MediaUpload.DefaultAcceptTypes | src/components/admin/MediaUpload.tsx:37-72 | by default, accepted types are image/ and video/ types, and names ending pdf, doc or docx |
| MediaUpload.SizeLimit | src/components/admin/MediaUpload.tsx:38-74 | by default a file is small enough exactly when it has at most 10485760 bytes |
| MediaUpload.ValidFilesProps | src/components/admin/MediaUpload.tsx:66-84 | the valid files are a subsequence; each is of an accepted type and within the size; every such file is kept |
| MediaUpload.ClassifyProps | src/components/admin/MediaUpload.tsx:105-106 | image/ types are images, video/ types videos, everything else documents |
| MediaUpload.UploadAll | src/components/admin/MediaUpload.tsx:89-118 | the loop pushes one entry per valid file, in order |
| MediaUpload.UploadedProps | src/components/admin/MediaUpload.tsx:102-112 | each entry has the file's name, size and kind, the given id, and the name as alt text |
| MediaUpload.MergeProps | src/components/admin/MediaUpload.tsx:120 | with `multiple` the new files come after the old; otherwise they replace them |
| MediaUpload.UpdateMetadataProps | src/components/admin/MediaUpload.tsx:138-142 | only the named alt or caption field of the entries with the id changes |
| MediaUpload.RemoveFileProps | src/components/admin/MediaUpload.tsx:134-136 | exactly the other entries remain, in order |
| MediaUpload.Library.constructor | src/components/admin/MediaUpload.tsx:33-43 | the props are kept and no file is listed, no upload runs and the drop zone is inactive |
| MediaUpload.StaleReport | src/components/admin/MediaUpload.tsx:56-63 | with `multiple` and a non-empty list, the list reported after a drop (built from an empty captured list) differs from the stored list |
| MediaUpload.Library.HandleDrag | src/components/admin/MediaUpload.tsx:46-54 | enter and over activate the drop zone, leave deactivates it, other events keep it; the files and the upload flag are unchanged |
| MediaUpload.Library.BeginUpload | src/components/admin/MediaUpload.tsx:65-118 | with no valid file nothing changes; otherwise the upload flag is set and the entries for the valid files are built, the stored list is not yet touched |
| MediaUpload.Library.FinishUpload | src/components/admin/MediaUpload.tsx:120-126 | the new entries are merged into the current list, the upload flag is cleared, and the report is the merge with the captured list, equal to the new list when the captured list was current |
| MediaUpload.Library.HandleFileInput | src/components/admin/MediaUpload.tsx:129-132 | starts an upload that captured the current list |
| MediaUpload.Library.HandleDrop | src/components/admin/MediaUpload.tsx:56-63 | deactivates the drop zone and starts an upload that captured the empty list of the first render |
| MediaUpload.Library.RemoveFile | src/components/admin/MediaUpload.tsx:134-136 | entries with the id are removed |
| MediaUpload.Library.UpdateFileMetadata | src/components/admin/MediaUpload.tsx:138-142 | the metadata update by id is applied |
| PostEditor.SetFieldFrame | src/components/admin/PostEditor.tsx:80-82 | an input change sets its own field and leaves every other field, the tags, the id and the dates |
| PostEditor.SetFieldSame | src/components/admin/PostEditor.tsx:80-82 | writing back a field's own value changes nothing |
| PostEditor.TrimPiece | src/components/admin/PostEditor.tsx:86 | a trimmed comma-free piece has no comma and no white space at either end |
| PostEditor.ParseTagsProps | src/components/admin/PostEditor.tsx:86 | at most commas+1 tags; a subsequence of the trimmed pieces; none empty, untrimmed or holding a comma |
| PostEditor.ParseTagsJoin | src/components/admin/PostEditor.tsx:86 | non-empty, trimmed, comma-free tags joined by commas parse back to themselves |
| PostEditor.ParseTagsJoinSpaced | src/components/admin/PostEditor.tsx:278 | the same tags joined by ", ", as the tag input shows them, also parse back to themselves through the handler of line 86 |
| PostEditor.WithSlug | src/components/admin/PostEditor.tsx:110-118 | only the slug changes, to the title's slug made of a-z, 0-9 and single dashes, which is its own slug |
| PostEditor.WithSlugIdempotent | src/components/admin/PostEditor.tsx:110-118 | pressing the slug button twice is like once |
| Utils.EditorSlugProps | src/components/admin/PostEditor.tsx:110-116 | the editors' slug uses only a-z, 0-9 and '-', has no "--", and is idempotent |
| PostEditor.Editor.constructor | src/components/admin/PostEditor.tsx:34-48 | an empty draft with no tags and the preview hidden |
| PostEditor.Editor.HandleInputChange | src/components/admin/PostEditor.tsx:80-82 | only the named field of the post changes |
| PostEditor.Editor.HandleTagInput | src/components/admin/PostEditor.tsx:84-89 | the tags are replaced by the parsed tags only when the input holds a comma |
| PostEditor.Editor.GenerateSlug | src/components/admin/PostEditor.tsx:110-118 | only the post's slug changes |
| PostEditor.Editor.TogglePreview | src/components/admin/PostEditor.tsx:152 | only the preview flag flips |
| CommentSection.CanModerateIff | src/components/blog/CommentSection.tsx:78-84 | a user may moderate exactly when signed in with a non-empty id equal to the comment's author id |
| CommentSection.ToggleOpen | src/components/blog/CommentSection.tsx:128 | the open comment closes; any other opens |
| CommentSection.ToggleOpenTwice | src/components/blog/CommentSection.tsx:128 | two clicks on the same button leave that form open only if it was open before |
| CommentSection.SubmitDisabledIff | src/components/blog/CommentSection.tsx:167 | a submit button is disabled exactly for blank text |
| CommentSection.Section.constructor | src/components/blog/CommentSection.tsx:36-43 | empty texts, no open reply or report form |
| CommentSection.Section.SetNewComment | src/components/blog/CommentSection.tsx:255 | only the new-comment text changes |
| CommentSection.Section.SetReplyText | src/components/blog/CommentSection.tsx:160 | only the reply text changes |
| CommentSection.Section.SetReportReason | src/components/blog/CommentSection.tsx:189-198 | only the report reason changes |
| CommentSection.Section.HandleSubmitComment | src/components/blog/CommentSection.tsx:45-59 | blank text sends nothing and keeps the text; otherwise a pending comment with the post id, raw text and current user id is sent and the box empties |
| CommentSection.Section.HandleSubmitReply | src/components/blog/CommentSection.tsx:61-68 | a reply needs non-blank text and an open reply; sending clears both |
| CommentSection.Section.HandleReportComment | src/components/blog/CommentSection.tsx:70-76 | a report needs a non-blank reason; sending closes the form and clears the reason |
| CommentSection.Section.ClickReply | src/components/blog/CommentSection.tsx:128 | the reply form toggles on that comment |
| CommentSection.Section.ClickReport | src/components/blog/CommentSection.tsx:137 | the report form toggles on that comment |
| CommentSection.Section.CancelReply | src/components/blog/CommentSection.tsx:174-177 | the reply form closes and its text clears |
| CommentSection.Section.CancelReport | src/components/blog/CommentSection.tsx:213-216 | the report form closes and its reason clears |
| NewsletterSignup.ReviewMeaning | src/components/blog/NewsletterSignup.tsx:55-64 | blank exactly for a blank address, accepted exactly for the e-mail shape, malformed otherwise |
| NewsletterSignup.ShapeNotBlank | src/components/blog/NewsletterSignup.tsx:35-38 | an address of the accepted shape is never blank |
| NewsletterSignup.LeadingSpaceMalformed | src/components/blog/NewsletterSignup.tsx:60-64 | the check sees the untrimmed value, so a leading space makes a non-blank address malformed |
| NewsletterSignup.VerdictError | src/components/blog/NewsletterSignup.tsx:56-61 | a rejected submit always shows a non-empty message |
| NewsletterSignup.LiveValidity | src/components/blog/NewsletterSignup.tsx:45-49 | the live flag is false exactly for a non-empty value of the wrong shape |
| NewsletterSignup.SubmitDisabledIff | src/components/blog/NewsletterSignup.tsx:126 | the button is enabled exactly when nothing is submitting or succeeded and the address is non-blank and held valid |
| NewsletterSignup.TypedThenEnabled | src/components/blog/NewsletterSignup.tsx:40-64 | a button enabled after typing holds an address the submit accepts |
| NewsletterSignup.Signup.constructor | src/components/blog/NewsletterSignup.tsx:29-33 | empty address, no error, flags off, held valid |
| NewsletterSignup.Signup.HandleEmailChange | src/components/blog/NewsletterSignup.tsx:40-50 | the address is stored, the error cleared and the live flag refreshed |
| NewsletterSignup.Signup.HandleSubmit | src/components/blog/NewsletterSignup.tsx:52-68 | blank and malformed addresses set their message and start nothing; an accepted one clears the error, starts submitting and is sent |
| NewsletterSignup.Signup.HandleKeyPress | src/components/blog/NewsletterSignup.tsx:87-91 | Enter submits; any other key does nothing |
| NewsletterSignup.Signup.Settle | src/components/blog/NewsletterSignup.tsx:77-84 | success sets the success flag and empties the address; failure shows the thrown message or the default; submitting ends |
| NewsletterSignup.Signup.SuccessElapsed | src/components/blog/NewsletterSignup.tsx:79 | only the success flag is cleared |
| Newsletter.SubmitDisabledIff | src/components/blog/Newsletter.tsx:126 | disabled exactly while subscribing or for a blank address, so a malformed address can still be submitted |
| Newsletter.Box.constructor | src/components/blog/Newsletter.tsx:19-22 | empty address, flags off, no error |
| Newsletter.Box.HandleEmailChange | src/components/blog/Newsletter.tsx:64-67 | the address is stored and the error cleared |
| Newsletter.Box.HandleSubmit | src/components/blog/Newsletter.tsx:24-38 | subscribing starts exactly for an accepted address; otherwise the blank or malformed message is set |
| Newsletter.Box.Settle | src/components/blog/Newsletter.tsx:47-56 | success marks subscribed and empties the address; failure sets the fixed message; subscribing ends |
| Newsletter.Box.SubscribeAnother | src/components/blog/Newsletter.tsx:80 | only the subscribed flag is cleared |
| ResetPassword.Check | src/pages/ResetPasswordPage.tsx:39-58 | the update is sent exactly for equal passwords of at least 6 characters with both tokens; mismatch exactly when the passwords differ |
| ResetPassword.CheckOrder | src/pages/ResetPasswordPage.tsx:39-58 | a short mismatched password reports the mismatch; too short exactly for equal short passwords; bad link exactly for valid passwords without both tokens |
| ResetPassword.Page.constructor | src/pages/ResetPasswordPage.tsx:10-26 | empty fields, not loading; the invalid-link error exactly when a token is missing |
| ResetPassword.Page.HandleInputChange | src/pages/ResetPasswordPage.tsx:28-34 | only the named field changes |
| ResetPassword.Page.HandleSubmit | src/pages/ResetPasswordPage.tsx:36-71 | mismatch and too-short set their error and send nothing; a missing token ends with "Invalid reset link" and loading off; otherwise loading starts and the update is sent |
| ResetPassword.Page.Settle | src/pages/ResetPasswordPage.tsx:60-69 | success sets the confirmation message; failure shows the thrown message or the default; loading ends |
| SeoHead.FullTitle | src/components/blog/SEOHead.tsx:41 | the title always names the site; one that already names it is kept; others get " \| site" appended |
| SeoHead.FullTitleIdempotent | src/components/blog/SEOHead.tsx:41 | building the full title twice is like once |
| SeoHead.Absolute | src/components/blog/SEOHead.tsx:42-43 | the address ends with the path, and begins "http" whenever the site address does |
| SeoHead.AbsoluteIdempotent | src/components/blog/SEOHead.tsx:42-43 | making an address absolute twice is like once; an address beginning "http" is kept unchanged; a relative path follows the site address |
| SeoHead.FullImage | src/components/blog/SEOHead.tsx:42 | no image gives the site's default picture; an image is made absolute |
| SeoHead.FullCanonical | src/components/blog/SEOHead.tsx:43 | absent exactly without a canonical address; otherwise absolute and non-empty |
| SeoHead.AddressesAreAbsolute | src/components/blog/SEOHead.tsx:42-43 | image and canonical use the same rule and begin "http" when the site address does |
| SeoHead.StructuredDataProps | src/components/blog/SEOHead.tsx:46-93 | an article only for article pages with a publication date. The modification date falls back to it, the page id falls back to the site address, and the keywords are the joined tags. Every other page describes the site with its search target |
| SeoHead.Robots | src/components/blog/SEOHead.tsx:133-135 | written exactly when noindex or nofollow is set, naming the choice for each |
| Analytics.SecondsField | src/pages/admin/Analytics.tsx:59-60 | the seconds field has exactly two digits and reads back as s mod 60, below 60 |
| Analytics.DurationRoundTrip | src/pages/admin/Analytics.tsx:57-61 | for s >= 0 the text is digits, ':' and two digits, and minutes*60 + seconds read back give s |
| Analytics.UnderAMinute | src/pages/admin/Analytics.tsx:58-60 | under a minute the text is "0:" and the two-digit seconds |
| Analytics.SampleSession | src/pages/admin/Analytics.tsx:37 | the mock 185 seconds render "3:05" |
| Analytics.FormatNat | src/pages/admin/Analytics.tsx:57-61 | for a non-negative count the text is the whole minutes, ':' and the padded seconds |
| Js.SplitProps | src/components/admin/PostEditor.tsx:86 | `split` gives commas+1 pieces, none with the separator, that join back to the input |
| Js.SplitJoin | src/components/blog/PostGrid.tsx:119 | separator-free pieces, joined, split back to themselves |
| Js.TrimEmptyIffBlank | src/components/blog/CommentSection.tsx:47 | `trim()` is empty exactly for blank text |
| Js.JsRem | src/pages/admin/Analytics.tsx:59 | `%` truncates toward zero: the Euclidean remainder for a non-negative dividend, and minus the remainder of the negated dividend for a negative one |
| Sorting.SortBySorted | src/components/blog/PostGrid.tsx:70-91 | the sort orders by any total-preorder comparator |
| Sorting.SortByStable | src/components/blog/PostGrid.tsx:70-91 | the sort keeps equal elements in input order |
| Seqs.DedupKeys | src/components/blog/PostList.tsx:63-73 | deduplication by key keeps exactly the keys not yet seen |

## Left out

- **Clocks, randomness and generated values** are parameters rather than reads:
  - `Date.now()` and `new Date()` in RelatedPosts and SearchResults (`now`);
  - `Date.now()` ids in CategoryManager (`newId`);
  - the `file-<time>-<random>` ids and `URL.createObjectURL` in MediaUpload (`ids`, `urlOf`);
  - the upload timestamp.
- **Timers** are not modelled as time:
  - the simulated upload progress loop and its `uploadProgress` map;
  - the 5-second success reset and the 2-second redirect;
  - `debounce`.

  A timer's effect that changes state is a separate method (`NewsletterSignup.Signup.SuccessElapsed`).
- **Awaited calls become events.** The subscription, `authApi.updatePassword` (which has no definition in the repository) and the simulated delays are outcome events given to `Settle`. The navigation after success is not modelled.
- **Loading flags and fetches.** The `isLoading`/`isSaving` flags and the loading skeletons are left out. So are PostEditor's `loadPost`, `loadCategories`, `handleSave` and navigation, which only touch a database that is commented out. The mock data loads of UserManagement and CommentModeration are constructor arguments.
- **`window.confirm`** is a boolean argument (`confirmed`).
- **Collation and case.**
  - `localeCompare` is an abstract comparator required to be a total preorder; ICU collation is not modelled.
  - `toLowerCase` lowers ASCII letters only.
  - `\s` is the fixed set of ECMAScript white-space and line-terminator characters.
  - String lengths count characters rather than UTF-16 code units.
- **Floating point and locale formatting:** `formatFileSize`, `formatNumber`, `formatDate` and `formatDateTime`. The related-post score is an exact rational rather than a double.
- **Dates** are integer milliseconds. In SearchResults, `new Date(p.publishedAt \|\| p.createdAt)` is the effective-date integer.
- **DOM effects.** SEOHead's `useEffect` meta-tag writes (including og:url and the article meta tags) and `window.scrollTo` on page change are left out; only the derived values are modelled.
- **Display-only state.** The `searchQuery` prop of SearchResults, which is only displayed, and the text of the results summary (only its figures are modelled).
- **Glue and presentation.** Supabase clients, react-query hooks, routing in App and every presentational component are not part of this model.
- **Regular expressions.** Newsletter's local `isValidEmail` is the same regular expression as `Utils.IsValidEmail`, so both components use that one definition. `Utils.StripTags` models `/<[^>]*>/g` as removing each `<...>` run.
- **Form events.** The "Enter" key of NewsletterSignup is modelled; other form-submit wiring (`preventDefault`) is not.
- **`MediaUpload.Library.BeginUpload`:** the per-file `try/catch` is not modelled, since nothing in the loop body can throw once ids and URLs are parameters. `maxSize` is an integer number of megabytes. The awaits inside the loop are one suspension between `BeginUpload` and `FinishUpload`: `RemoveFile`, `UpdateFileMetadata` or another upload may run in that gap, but the model does not interleave them inside the loop, where they could not change `newFiles` anyway. `uploadProgress` is not modelled.
- **Store getters** are functions of the current state (`Store.BlogStore.PublishedPosts` and the others). Zustand's `persist` storage itself is not modelled; only the `partialize` projection is.
- **The handlers' `try/catch` around the list updates** of UserManagement and CommentModeration log an error that state updates cannot raise, so it is not modelled.
