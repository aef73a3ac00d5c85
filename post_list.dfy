/** The sortable list of posts with a category filter (`PostList.tsx`). Here the sort
    runs first and the category filter, matched by category id, second; pages hold ten
    posts; the category menu lists each category of the posts once. */
module PostList {
  import opened Js
  import opened Seqs
  import opened Sorting
  import opened Types
  import opened Paging

  const PostsPerPage: int := 10

  /** The comparison before the order is applied; an unknown field compares equal. The
      reading-time field is the stored `readingTime`, not one computed from content. */
  function BaseCompare(sortBy: string, collate: (string, string) -> int, a: BlogPost, b: BlogPost): int {
    if sortBy == "date" then EffectiveDate(b) - EffectiveDate(a)
    else if sortBy == "title" then collate(a.title, b.title)
    else if sortBy == "readingTime" then b.readingTime - a.readingTime
    else if sortBy == "popularity" then b.viewCount - a.viewCount
    else 0
  }

  /** 'asc' negates the comparison. */
  function ListCompare(sortBy: string, sortOrder: string, collate: (string, string) -> int): (BlogPost, BlogPost) -> int {
    (a: BlogPost, b: BlogPost) =>
      if sortOrder == "asc" then -BaseCompare(sortBy, collate, a, b) else BaseCompare(sortBy, collate, a, b)
  }

  /** `sortedPosts`, sorted on a copy of `posts`. */
  function SortPosts(posts: seq<BlogPost>, sortBy: string, sortOrder: string,
                     collate: (string, string) -> int): seq<BlogPost> {
    SortBy(posts, ListCompare(sortBy, sortOrder, collate))
  }

  lemma ListCompareIsComparator(sortBy: string, sortOrder: string, collate: (string, string) -> int)
    requires IsComparator(collate)
    ensures IsComparator(ListCompare(sortBy, sortOrder, collate))
  {
    var cmp := ListCompare(sortBy, sortOrder, collate);
    forall a, b, c | cmp(a, b) <= 0 && cmp(b, c) <= 0 ensures cmp(a, c) <= 0 {
      if sortBy == "title" {
        if sortOrder == "asc" {
          assert collate(b.title, a.title) <= 0 && collate(c.title, b.title) <= 0;
        } else {
          assert collate(a.title, b.title) <= 0 && collate(b.title, c.title) <= 0;
        }
      }
    }
    forall a, b ensures cmp(a, b) < 0 <==> cmp(b, a) > 0 {
      if sortBy == "title" {
        assert collate(a.title, b.title) < 0 <==> collate(b.title, a.title) > 0;
        assert collate(b.title, a.title) < 0 <==> collate(a.title, b.title) > 0;
      }
    }
  }

  /** The sorted list is a stable reordering of `posts` by the comparator. */
  lemma SortPostsProps(posts: seq<BlogPost>, sortBy: string, sortOrder: string,
                       collate: (string, string) -> int, y: BlogPost)
    requires IsComparator(collate)
    ensures multiset(SortPosts(posts, sortBy, sortOrder, collate)) == multiset(posts)
    ensures SortedBy(SortPosts(posts, sortBy, sortOrder, collate), ListCompare(sortBy, sortOrder, collate))
    ensures Filter(SortPosts(posts, sortBy, sortOrder, collate), EquivTo(ListCompare(sortBy, sortOrder, collate), y))
         == Filter(posts, EquivTo(ListCompare(sortBy, sortOrder, collate), y))
  {
    ListCompareIsComparator(sortBy, sortOrder, collate);
    SortBySorted(posts, ListCompare(sortBy, sortOrder, collate));
    SortByStable(posts, ListCompare(sortBy, sortOrder, collate), y);
  }

  /** Each field orders in its direction, reversed by 'asc': the date newest first,
      the stored reading time and the views largest first, and 'title' inverted exactly
      as in the grid, 'asc' giving reverse `collate` order. */
  lemma SortPostsOrder(posts: seq<BlogPost>, sortBy: string, sortOrder: string,
                       collate: (string, string) -> int)
    requires IsComparator(collate)
    ensures var r := SortPosts(posts, sortBy, sortOrder, collate);
      (sortBy == "date" && sortOrder != "asc" ==>
         forall i, j :: 0 <= i < j < |r| ==> EffectiveDate(r[i]) >= EffectiveDate(r[j]))
      && (sortBy == "date" && sortOrder == "asc" ==>
         forall i, j :: 0 <= i < j < |r| ==> EffectiveDate(r[i]) <= EffectiveDate(r[j]))
      && (sortBy == "title" && sortOrder != "asc" ==>
         forall i, j :: 0 <= i < j < |r| ==> collate(r[i].title, r[j].title) <= 0)
      && (sortBy == "title" && sortOrder == "asc" ==>
         forall i, j :: 0 <= i < j < |r| ==> collate(r[i].title, r[j].title) >= 0)
      && (sortBy == "readingTime" && sortOrder != "asc" ==>
         forall i, j :: 0 <= i < j < |r| ==> r[i].readingTime >= r[j].readingTime)
      && (sortBy == "readingTime" && sortOrder == "asc" ==>
         forall i, j :: 0 <= i < j < |r| ==> r[i].readingTime <= r[j].readingTime)
      && (sortBy == "popularity" && sortOrder != "asc" ==>
         forall i, j :: 0 <= i < j < |r| ==> r[i].viewCount >= r[j].viewCount)
      && (sortBy == "popularity" && sortOrder == "asc" ==>
         forall i, j :: 0 <= i < j < |r| ==> r[i].viewCount <= r[j].viewCount)
  {
    var cmp := ListCompare(sortBy, sortOrder, collate);
    ListCompareIsComparator(sortBy, sortOrder, collate);
    SortBySorted(posts, cmp);
    var r := SortPosts(posts, sortBy, sortOrder, collate);
    if sortBy == "date" {
      SortedByDate(r, sortOrder, collate);
    } else if sortBy == "title" {
      SortedByTitle(r, sortOrder, collate);
    } else if sortBy == "readingTime" {
      SortedByReadingTime(r, sortOrder, collate);
    } else if sortBy == "popularity" {
      SortedByViews(r, sortOrder, collate);
    }
  }

  /** A list sorted by the 'date' comparator is ordered by the date. */
  lemma SortedByDate(r: seq<BlogPost>, sortOrder: string, collate: (string, string) -> int)
    requires SortedBy(r, ListCompare("date", sortOrder, collate))
    ensures sortOrder == "asc" ==> forall i, j :: 0 <= i < j < |r| ==> EffectiveDate(r[i]) <= EffectiveDate(r[j])
    ensures sortOrder != "asc" ==> forall i, j :: 0 <= i < j < |r| ==> EffectiveDate(r[i]) >= EffectiveDate(r[j])
  {
    var cmp := ListCompare("date", sortOrder, collate);
    forall i, j | 0 <= i < j < |r|
      ensures if sortOrder == "asc" then EffectiveDate(r[i]) <= EffectiveDate(r[j]) else EffectiveDate(r[i]) >= EffectiveDate(r[j])
    {
      assert cmp(r[i], r[j]) <= 0;
    }
  }

  /** A list sorted by the 'title' comparator is ordered by the title. */
  lemma SortedByTitle(r: seq<BlogPost>, sortOrder: string, collate: (string, string) -> int)
    requires SortedBy(r, ListCompare("title", sortOrder, collate))
    ensures sortOrder == "asc" ==> forall i, j :: 0 <= i < j < |r| ==> collate(r[i].title, r[j].title) >= 0
    ensures sortOrder != "asc" ==> forall i, j :: 0 <= i < j < |r| ==> collate(r[i].title, r[j].title) <= 0
  {
    var cmp := ListCompare("title", sortOrder, collate);
    forall i, j | 0 <= i < j < |r|
      ensures if sortOrder == "asc" then collate(r[i].title, r[j].title) >= 0 else collate(r[i].title, r[j].title) <= 0
    {
      assert cmp(r[i], r[j]) <= 0;
    }
  }

  /** A list sorted by the 'readingTime' comparator is ordered by the reading time. */
  lemma SortedByReadingTime(r: seq<BlogPost>, sortOrder: string, collate: (string, string) -> int)
    requires SortedBy(r, ListCompare("readingTime", sortOrder, collate))
    ensures sortOrder == "asc" ==> forall i, j :: 0 <= i < j < |r| ==> r[i].readingTime <= r[j].readingTime
    ensures sortOrder != "asc" ==> forall i, j :: 0 <= i < j < |r| ==> r[i].readingTime >= r[j].readingTime
  {
    var cmp := ListCompare("readingTime", sortOrder, collate);
    forall i, j | 0 <= i < j < |r|
      ensures if sortOrder == "asc" then r[i].readingTime <= r[j].readingTime else r[i].readingTime >= r[j].readingTime
    {
      assert cmp(r[i], r[j]) <= 0;
    }
  }

  /** A list sorted by the 'popularity' comparator is ordered by the views. */
  lemma SortedByViews(r: seq<BlogPost>, sortOrder: string, collate: (string, string) -> int)
    requires SortedBy(r, ListCompare("popularity", sortOrder, collate))
    ensures sortOrder == "asc" ==> forall i, j :: 0 <= i < j < |r| ==> r[i].viewCount <= r[j].viewCount
    ensures sortOrder != "asc" ==> forall i, j :: 0 <= i < j < |r| ==> r[i].viewCount >= r[j].viewCount
  {
    var cmp := ListCompare("popularity", sortOrder, collate);
    forall i, j | 0 <= i < j < |r|
      ensures if sortOrder == "asc" then r[i].viewCount <= r[j].viewCount else r[i].viewCount >= r[j].viewCount
    {
      assert cmp(r[i], r[j]) <= 0;
    }
  }

  predicate HasCategoryId(p: BlogPost, id: string) {
    exists c :: c in p.categories && c.id == id
  }

  /** `filteredPosts`: no selection keeps the sorted list. */
  function FilterByCategory(sorted: seq<BlogPost>, selected: string): seq<BlogPost> {
    if selected == "" then sorted else Filter(sorted, (p: BlogPost) => HasCategoryId(p, selected))
  }

  /** The filter keeps exactly the posts with a category of the selected id, in sorted
      order; an empty selection keeps everything. */
  lemma FilterByCategoryProps(sorted: seq<BlogPost>, selected: string)
    ensures selected == "" ==> FilterByCategory(sorted, selected) == sorted
    ensures selected != "" ==>
      IsSubsequence(FilterByCategory(sorted, selected), sorted)
      && (forall p :: p in FilterByCategory(sorted, selected) ==> HasCategoryId(p, selected))
      && (forall p :: p in sorted && HasCategoryId(p, selected) ==> p in FilterByCategory(sorted, selected))
  {
  }

  /** Every category of every post, in the order the nested `forEach` visits them. */
  function AllCategories(posts: seq<BlogPost>): seq<Category> {
    if posts == [] then [] else posts[0].categories + AllCategories(posts[1..])
  }

  function CategoryId(c: Category): string {
    c.id
  }

  /** The values of the `Map` filled by the nested `forEach`: a category is written only
      under an id not yet present. `seen` is the map's key set, `cats` its values in
      insertion order. */
  method UniqueCategories(posts: seq<BlogPost>) returns (cats: seq<Category>)
    ensures cats == DedupBy(AllCategories(posts), CategoryId, {})
  {
    cats := [];
    var seen: set<string> := {};
    var i := 0;
    while i < |posts|
      invariant 0 <= i <= |posts|
      invariant cats + DedupBy(AllCategories(posts[i..]), CategoryId, seen)
             == DedupBy(AllCategories(posts), CategoryId, {})
    {
      var own := posts[i].categories;
      AllCategoriesFrom(posts, i);
      var j := 0;
      while j < |own|
        invariant 0 <= j <= |own|
        invariant cats + DedupBy(own[j..] + AllCategories(posts[i + 1..]), CategoryId, seen)
               == DedupBy(AllCategories(posts), CategoryId, {})
      {
        var c := own[j];
        KeepStep(cats, own, j, AllCategories(posts[i + 1..]), seen);
        if c.id !in seen {
          cats := cats + [c];
          seen := seen + {c.id};
        }
        j := j + 1;
      }
      assert own[j..] + AllCategories(posts[i + 1..]) == AllCategories(posts[i + 1..]);
      i := i + 1;
    }
  }

  /** The categories from post `i` on are its own followed by those of the later posts. */
  lemma AllCategoriesFrom(posts: seq<BlogPost>, i: int)
    requires 0 <= i < |posts|
    ensures AllCategories(posts[i..]) == posts[i].categories + AllCategories(posts[i + 1..])
  {
    assert posts[i..][1..] == posts[i + 1..];
  }

  /** One category through the map: it is kept and its id recorded exactly when the id
      is new. */
  lemma KeepStep(cats: seq<Category>, own: seq<Category>, j: int, later: seq<Category>, seen: set<string>)
    requires 0 <= j < |own|
    ensures var c := own[j];
      cats + DedupBy(own[j..] + later, CategoryId, seen)
      == (if c.id in seen then cats else cats + [c])
         + DedupBy(own[j + 1..] + later, CategoryId, if c.id in seen then seen else seen + {c.id})
  {
    var rest := own[j..] + later;
    assert rest[0] == own[j] && rest[1..] == own[j + 1..] + later;
    DedupByStep(rest, CategoryId, seen);
    if own[j].id in seen {
      assert seen + {own[j].id} == seen;
    }
  }

  /** The category menu lists each category id of the posts exactly once, under the first
      category seen with that id, in first-seen order. */
  lemma UniqueCategoriesProps(posts: seq<BlogPost>)
    ensures var cats := DedupBy(AllCategories(posts), CategoryId, {});
      (forall i, j :: 0 <= i < j < |cats| ==> cats[i].id != cats[j].id)
      && Keys(cats, CategoryId) == Keys(AllCategories(posts), CategoryId)
      && IsSubsequence(cats, AllCategories(posts))
      && (forall i :: 0 <= i < |cats| ==>
            FirstWithKey(AllCategories(posts), CategoryId, cats[i].id) == Some(cats[i]))
  {
    DedupDistinct(AllCategories(posts), CategoryId, {});
    DedupKeys(AllCategories(posts), CategoryId, {});
    DedupFirstSeen(AllCategories(posts), CategoryId, {});
  }

  /** Ten posts a page, `ceil(filtered / 10)` pages. */
  lemma ListPages(filtered: seq<BlogPost>, page: int)
    requires page >= 1
    ensures |PageOf(filtered, page, PostsPerPage)| <= PostsPerPage
    ensures Pages(filtered, PostsPerPage, TotalPages(|filtered|, PostsPerPage)) == filtered
  {
    PageContents(filtered, page, PostsPerPage);
    PagesCoverAll(filtered, PostsPerPage);
  }

  /** The component's state. A change to the category, the sort field or the order sets
      the page back to 1, as the reset effect does. */
  class ListState {
    var sortBy: string
    var sortOrder: string
    var selectedCategory: string
    var currentPage: int

    constructor()
      ensures sortBy == "date" && sortOrder == "desc" && selectedCategory == "" && currentPage == 1
    {
      sortBy := "date";
      sortOrder := "desc";
      selectedCategory := "";
      currentPage := 1;
    }

    /** `paginatedPosts`, from the current state. */
    function Shown(posts: seq<BlogPost>, collate: (string, string) -> int): seq<BlogPost>
      reads this
    {
      PageOf(FilterByCategory(SortPosts(posts, sortBy, sortOrder, collate), selectedCategory),
             currentPage, PostsPerPage)
    }

    /** The "Clear Filters" button is offered when anything differs from the defaults. */
    predicate ClearOffered()
      reads this
    {
      selectedCategory != "" || sortBy != "date" || sortOrder != "desc"
    }

    method SetCategory(id: string)
      modifies this
      ensures selectedCategory == id
      ensures currentPage == if id != old(selectedCategory) then 1 else old(currentPage)
      ensures sortBy == old(sortBy) && sortOrder == old(sortOrder)
    {
      if id != selectedCategory {
        currentPage := 1;
      }
      selectedCategory := id;
    }

    method HandleSortChange(field: string)
      modifies this
      ensures sortBy == field
      ensures currentPage == if field != old(sortBy) then 1 else old(currentPage)
      ensures selectedCategory == old(selectedCategory) && sortOrder == old(sortOrder)
    {
      if field != sortBy {
        currentPage := 1;
      }
      sortBy := field;
    }

    /** The order button: 'asc' becomes 'desc' and anything else 'asc'. */
    method ToggleOrder()
      modifies this
      ensures sortOrder == if old(sortOrder) == "asc" then "desc" else "asc"
      ensures currentPage == 1
      ensures selectedCategory == old(selectedCategory) && sortBy == old(sortBy)
    {
      sortOrder := if sortOrder == "asc" then "desc" else "asc";
      currentPage := 1;
    }

    method HandlePageChange(page: int)
      modifies this
      ensures currentPage == page
      ensures selectedCategory == old(selectedCategory) && sortBy == old(sortBy) && sortOrder == old(sortOrder)
    {
      currentPage := page;
    }

    /** Back to every category, by date, newest first. */
    method ClearFilters()
      modifies this
      ensures selectedCategory == "" && sortBy == "date" && sortOrder == "desc"
      ensures !ClearOffered()
      ensures currentPage == if old(ClearOffered()) then 1 else old(currentPage)
    {
      if ClearOffered() {
        currentPage := 1;
      }
      selectedCategory := "";
      sortBy := "date";
      sortOrder := "desc";
    }
  }
}
