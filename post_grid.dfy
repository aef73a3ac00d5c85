/** The filterable, sortable, paged grid of posts (`PostGrid.tsx`). The search query
    comes from the global store; category and tags are matched by slug, and a post must
    carry every selected tag. `localeCompare` is the comparator parameter `collate`. */
module PostGrid {
  import opened Js
  import opened Seqs
  import opened Sorting
  import opened Types
  import opened Paging

  const DefaultPostsPerPage: int := 12

  /** The lower-cased query occurs in the lower-cased title, excerpt or content. */
  predicate MatchesSearch(p: BlogPost, query: string) {
    var q := ToLower(query);
    Includes(ToLower(p.title), q) || Includes(ToLower(p.excerpt), q) || Includes(ToLower(p.content), q)
  }

  predicate HasCategorySlug(p: BlogPost, slug: string) {
    exists c :: c in p.categories && c.slug == slug
  }

  /** Every selected tag slug is on the post. */
  predicate HasAllTagSlugs(p: BlogPost, tags: seq<string>) {
    forall t :: t in tags ==> exists g :: g in p.tags && g.slug == t
  }

  /** `filteredPosts`: the three filters in turn, each applied only when active. */
  function FilterPosts(posts: seq<BlogPost>, query: string, category: string, tags: seq<string>): seq<BlogPost> {
    var bySearch := if query != "" then Filter(posts, (p: BlogPost) => MatchesSearch(p, query)) else posts;
    var byCategory := if category != "" then Filter(bySearch, (p: BlogPost) => HasCategorySlug(p, category)) else bySearch;
    if |tags| > 0 then Filter(byCategory, (p: BlogPost) => HasAllTagSlugs(p, tags)) else byCategory
  }

  /** What a post must satisfy to be shown, every active filter at once. */
  predicate GridMatches(p: BlogPost, query: string, category: string, tags: seq<string>) {
    (query == "" || MatchesSearch(p, query))
    && (category == "" || HasCategorySlug(p, category))
    && HasAllTagSlugs(p, tags)
  }

  /** The filter chain keeps exactly the posts meeting every active filter, in their
      original order. */
  lemma FilterPostsSpec(posts: seq<BlogPost>, query: string, category: string, tags: seq<string>)
    ensures FilterPosts(posts, query, category, tags)
         == Filter(posts, (p: BlogPost) => GridMatches(p, query, category, tags))
  {
    var s := (p: BlogPost) => MatchesSearch(p, query);
    var c := (p: BlogPost) => HasCategorySlug(p, category);
    var t := (p: BlogPost) => HasAllTagSlugs(p, tags);
    var ps := (p: BlogPost) => query == "" || s(p);
    var pc := (p: BlogPost) => category == "" || c(p);
    var all := (p: BlogPost) => GridMatches(p, query, category, tags);
    var bySearch := if query != "" then Filter(posts, s) else posts;
    if query != "" {
      FilterExt(posts, s, ps);
    } else {
      FilterAll(posts, ps);
    }
    assert bySearch == Filter(posts, ps);
    var byCategory := if category != "" then Filter(bySearch, c) else bySearch;
    if category != "" {
      FilterExt(bySearch, c, pc);
    } else {
      FilterAll(bySearch, pc);
    }
    var psc := (p: BlogPost) => ps(p) && pc(p);
    FilterFilter(posts, ps, pc, psc);
    assert byCategory == Filter(posts, psc);
    if |tags| > 0 {
    } else {
      FilterAll(byCategory, t);
    }
    FilterFilter(posts, psc, t, all);
  }

  /** Shown posts meet every active filter, every post that meets them is shown, and
      the order of `posts` is kept. */
  lemma FilterPostsProps(posts: seq<BlogPost>, query: string, category: string, tags: seq<string>)
    ensures var r := FilterPosts(posts, query, category, tags);
      IsSubsequence(r, posts)
      && (forall p :: p in r ==> p in posts && GridMatches(p, query, category, tags))
      && (forall p :: p in posts && GridMatches(p, query, category, tags) ==> p in r)
  {
    FilterPostsSpec(posts, query, category, tags);
  }

  /** With no active filter every post is shown, unchanged. */
  lemma FilterPostsNoFilters(posts: seq<BlogPost>)
    ensures FilterPosts(posts, "", "", []) == posts
  {
  }

  /** The comparison before the order is applied. An unknown field compares equal. */
  function BaseCompare(sortBy: string, collate: (string, string) -> int, a: BlogPost, b: BlogPost): int {
    if sortBy == "date" then EffectiveDate(b) - EffectiveDate(a)
    else if sortBy == "title" then collate(a.title, b.title)
    else if sortBy == "popularity" then b.viewCount - a.viewCount
    else 0
  }

  /** The comparator `sortedPosts` passes to `sort`: 'asc' negates the comparison. */
  function GridCompare(sortBy: string, sortOrder: string, collate: (string, string) -> int): (BlogPost, BlogPost) -> int {
    (a: BlogPost, b: BlogPost) =>
      if sortOrder == "asc" then -BaseCompare(sortBy, collate, a, b) else BaseCompare(sortBy, collate, a, b)
  }

  function SortPosts(filtered: seq<BlogPost>, sortBy: string, sortOrder: string,
                     collate: (string, string) -> int): seq<BlogPost> {
    SortBy(filtered, GridCompare(sortBy, sortOrder, collate))
  }

  lemma GridCompareIsComparator(sortBy: string, sortOrder: string, collate: (string, string) -> int)
    requires IsComparator(collate)
    ensures IsComparator(GridCompare(sortBy, sortOrder, collate))
  {
    var cmp := GridCompare(sortBy, sortOrder, collate);
    forall a, b, c | cmp(a, b) <= 0 && cmp(b, c) <= 0 ensures cmp(a, c) <= 0 {
      if sortBy == "title" {
        if sortOrder == "asc" {
          assert collate(b.title, a.title) <= 0 && collate(c.title, b.title) <= 0;
        } else {
          assert collate(a.title, b.title) <= 0 && collate(b.title, c.title) <= 0;
        }
      }
    }
    forall a, b ensures cmp(a, b) < 0 <==> cmp(b, a) > 0 {
      if sortBy == "title" {
        assert collate(a.title, b.title) < 0 <==> collate(b.title, a.title) > 0;
        assert collate(b.title, a.title) < 0 <==> collate(a.title, b.title) > 0;
      }
    }
  }

  /** The sorted list is a reordering of the filtered one, ordered by the comparator,
      with posts that compare equal kept in their filtered order. */
  lemma SortPostsProps(filtered: seq<BlogPost>, sortBy: string, sortOrder: string,
                       collate: (string, string) -> int, y: BlogPost)
    requires IsComparator(collate)
    ensures multiset(SortPosts(filtered, sortBy, sortOrder, collate)) == multiset(filtered)
    ensures SortedBy(SortPosts(filtered, sortBy, sortOrder, collate), GridCompare(sortBy, sortOrder, collate))
    ensures Filter(SortPosts(filtered, sortBy, sortOrder, collate), EquivTo(GridCompare(sortBy, sortOrder, collate), y))
         == Filter(filtered, EquivTo(GridCompare(sortBy, sortOrder, collate), y))
  {
    GridCompareIsComparator(sortBy, sortOrder, collate);
    SortBySorted(filtered, GridCompare(sortBy, sortOrder, collate));
    SortByStable(filtered, GridCompare(sortBy, sortOrder, collate), y);
  }

  /** What each sort option produces. 'date-desc' is newest first and 'date-asc' oldest
      first; 'title-desc' is in `collate` order, so the option labelled "Title A-Z"
      ('title-asc') lists titles in reverse `collate` order; 'popularity-desc' is most
      viewed first. */
  lemma SortPostsOrder(filtered: seq<BlogPost>, sortBy: string, sortOrder: string,
                       collate: (string, string) -> int)
    requires IsComparator(collate)
    ensures var r := SortPosts(filtered, sortBy, sortOrder, collate);
      (sortBy == "date" && sortOrder != "asc" ==>
         forall i, j :: 0 <= i < j < |r| ==> EffectiveDate(r[i]) >= EffectiveDate(r[j]))
      && (sortBy == "date" && sortOrder == "asc" ==>
         forall i, j :: 0 <= i < j < |r| ==> EffectiveDate(r[i]) <= EffectiveDate(r[j]))
      && (sortBy == "title" && sortOrder != "asc" ==>
         forall i, j :: 0 <= i < j < |r| ==> collate(r[i].title, r[j].title) <= 0)
      && (sortBy == "title" && sortOrder == "asc" ==>
         forall i, j :: 0 <= i < j < |r| ==> collate(r[i].title, r[j].title) >= 0)
      && (sortBy == "popularity" && sortOrder != "asc" ==>
         forall i, j :: 0 <= i < j < |r| ==> r[i].viewCount >= r[j].viewCount)
      && (sortBy == "popularity" && sortOrder == "asc" ==>
         forall i, j :: 0 <= i < j < |r| ==> r[i].viewCount <= r[j].viewCount)
  {
    var cmp := GridCompare(sortBy, sortOrder, collate);
    GridCompareIsComparator(sortBy, sortOrder, collate);
    SortBySorted(filtered, cmp);
    var r := SortPosts(filtered, sortBy, sortOrder, collate);
    if sortBy == "date" {
      SortedByDate(r, sortOrder, collate);
    } else if sortBy == "title" {
      SortedByTitle(r, sortOrder, collate);
    } else if sortBy == "popularity" {
      SortedByViews(r, sortOrder, collate);
    }
  }

  /** A list sorted by the 'date' comparator is ordered by the date. */
  lemma SortedByDate(r: seq<BlogPost>, sortOrder: string, collate: (string, string) -> int)
    requires SortedBy(r, GridCompare("date", sortOrder, collate))
    ensures sortOrder == "asc" ==> forall i, j :: 0 <= i < j < |r| ==> EffectiveDate(r[i]) <= EffectiveDate(r[j])
    ensures sortOrder != "asc" ==> forall i, j :: 0 <= i < j < |r| ==> EffectiveDate(r[i]) >= EffectiveDate(r[j])
  {
    var cmp := GridCompare("date", sortOrder, collate);
    forall i, j | 0 <= i < j < |r|
      ensures if sortOrder == "asc" then EffectiveDate(r[i]) <= EffectiveDate(r[j]) else EffectiveDate(r[i]) >= EffectiveDate(r[j])
    {
      assert cmp(r[i], r[j]) <= 0;
    }
  }

  /** A list sorted by the 'title' comparator is ordered by the title. */
  lemma SortedByTitle(r: seq<BlogPost>, sortOrder: string, collate: (string, string) -> int)
    requires SortedBy(r, GridCompare("title", sortOrder, collate))
    ensures sortOrder == "asc" ==> forall i, j :: 0 <= i < j < |r| ==> collate(r[i].title, r[j].title) >= 0
    ensures sortOrder != "asc" ==> forall i, j :: 0 <= i < j < |r| ==> collate(r[i].title, r[j].title) <= 0
  {
    var cmp := GridCompare("title", sortOrder, collate);
    forall i, j | 0 <= i < j < |r|
      ensures if sortOrder == "asc" then collate(r[i].title, r[j].title) >= 0 else collate(r[i].title, r[j].title) <= 0
    {
      assert cmp(r[i], r[j]) <= 0;
    }
  }

  /** A list sorted by the 'popularity' comparator is ordered by the views. */
  lemma SortedByViews(r: seq<BlogPost>, sortOrder: string, collate: (string, string) -> int)
    requires SortedBy(r, GridCompare("popularity", sortOrder, collate))
    ensures sortOrder == "asc" ==> forall i, j :: 0 <= i < j < |r| ==> r[i].viewCount <= r[j].viewCount
    ensures sortOrder != "asc" ==> forall i, j :: 0 <= i < j < |r| ==> r[i].viewCount >= r[j].viewCount
  {
    var cmp := GridCompare("popularity", sortOrder, collate);
    forall i, j | 0 <= i < j < |r|
      ensures if sortOrder == "asc" then r[i].viewCount <= r[j].viewCount else r[i].viewCount >= r[j].viewCount
    {
      assert cmp(r[i], r[j]) <= 0;
    }
  }

  /** A sort field the switch does not know leaves the filtered order as it is. */
  lemma SortPostsUnknownField(filtered: seq<BlogPost>, sortBy: string, sortOrder: string,
                              collate: (string, string) -> int)
    requires sortBy != "date" && sortBy != "title" && sortBy != "popularity"
    ensures SortPosts(filtered, sortBy, sortOrder, collate) == filtered
  {
    SortByIdentity(filtered, GridCompare(sortBy, sortOrder, collate));
  }

  /** `value.split('-')` destructured into field and order; a missing order is "". */
  function ParseSort(value: string): (string, string) {
    var pieces := Split(value, '-');
    (pieces[0], if |pieces| > 1 then pieces[1] else "")
  }

  /** The select's value `${sortBy}-${sortOrder}` parses back into its two parts. */
  lemma ParseSortRoundTrip(field: string, order: string)
    requires '-' !in field && '-' !in order
    ensures ParseSort(field + "-" + order) == (field, order)
  {
    assert Join([field, order], ['-']) == field + "-" + order;
    SplitJoin([field, order], '-');
  }

  /** The component's state. `searchQuery` mirrors the global store. Every handler sets
      the page back to 1 when it changes a filter or the sort, as the reset effect does;
      writing a tag list always makes a new array, so toggling and clearing tags always
      reset the page. */
  class GridState {
    var currentPage: int
    var selectedCategory: string
    var selectedTags: seq<string>
    var sortBy: string
    var sortOrder: string
    var searchQuery: string

    constructor(query: string)
      ensures currentPage == 1 && selectedCategory == "" && selectedTags == []
      ensures sortBy == "date" && sortOrder == "desc" && searchQuery == query
    {
      currentPage := 1;
      selectedCategory := "";
      selectedTags := [];
      sortBy := "date";
      sortOrder := "desc";
      searchQuery := query;
    }

    /** `sortedPosts`, from the current state. */
    function Sorted(posts: seq<BlogPost>, collate: (string, string) -> int): seq<BlogPost>
      reads this
    {
      SortPosts(FilterPosts(posts, searchQuery, selectedCategory, selectedTags), sortBy, sortOrder, collate)
    }

    /** `paginatedPosts`. */
    function Shown(posts: seq<BlogPost>, collate: (string, string) -> int, perPage: int): seq<BlogPost>
      reads this
    {
      PageOf(Sorted(posts, collate), currentPage, perPage)
    }

    /** The search box writes the store's query; a different query resets the page. */
    method SetSearchQuery(q: string)
      modifies this
      ensures searchQuery == q
      ensures currentPage == if q != old(searchQuery) then 1 else old(currentPage)
      ensures selectedCategory == old(selectedCategory) && selectedTags == old(selectedTags)
      ensures sortBy == old(sortBy) && sortOrder == old(sortOrder)
    {
      if q != searchQuery {
        currentPage := 1;
      }
      searchQuery := q;
    }

    method HandlePageChange(page: int)
      modifies this
      ensures currentPage == page
      ensures selectedCategory == old(selectedCategory) && selectedTags == old(selectedTags)
      ensures sortBy == old(sortBy) && sortOrder == old(sortOrder) && searchQuery == old(searchQuery)
    {
      currentPage := page;
    }

    /** `setSelectedCategory(categorySlug || '')`. */
    method HandleCategoryChange(slug: Option<string>)
      modifies this
      ensures selectedCategory == slug.GetOr("")
      ensures currentPage == if selectedCategory != old(selectedCategory) then 1 else old(currentPage)
      ensures selectedTags == old(selectedTags)
      ensures sortBy == old(sortBy) && sortOrder == old(sortOrder) && searchQuery == old(searchQuery)
    {
      var next := slug.GetOr("");
      if next != selectedCategory {
        currentPage := 1;
      }
      selectedCategory := next;
    }

    /** Removes a selected slug, or appends an unselected one. */
    method HandleTagToggle(slug: string)
      modifies this
      ensures selectedTags == Toggle(old(selectedTags), slug)
      ensures currentPage == 1
      ensures selectedCategory == old(selectedCategory)
      ensures sortBy == old(sortBy) && sortOrder == old(sortOrder) && searchQuery == old(searchQuery)
    {
      selectedTags := Toggle(selectedTags, slug);
      currentPage := 1;
    }

    /** Splits "field-order" at '-' into the sort field and the order. */
    method HandleSortChange(value: string)
      modifies this
      ensures (sortBy, sortOrder) == ParseSort(value)
      ensures currentPage ==
        if sortBy != old(sortBy) || sortOrder != old(sortOrder) then 1 else old(currentPage)
      ensures selectedCategory == old(selectedCategory) && selectedTags == old(selectedTags)
      ensures searchQuery == old(searchQuery)
    {
      var parsed := ParseSort(value);
      if parsed.0 != sortBy || parsed.1 != sortOrder {
        currentPage := 1;
      }
      sortBy := parsed.0;
      sortOrder := parsed.1;
    }

    /** "Clear all": no category and no tags. */
    method ClearAll()
      modifies this
      ensures selectedCategory == "" && selectedTags == [] && currentPage == 1
      ensures sortBy == old(sortBy) && sortOrder == old(sortOrder) && searchQuery == old(searchQuery)
    {
      selectedCategory := "";
      selectedTags := [];
      currentPage := 1;
    }
  }
}
