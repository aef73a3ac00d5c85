/** The blog sidebar (`Sidebar.tsx`): recent, popular and featured post lists derived
    from the store's posts, per-category counts, and the category and tag selection it
    writes back to the store. */
module Sidebar {
  import opened Js
  import opened Seqs
  import opened Sorting
  import opened Types
  import opened Store

  /** Published, newest first, at most five. */
  function RecentPosts(posts: seq<BlogPost>): seq<BlogPost> {
    Slice(SortBy(PublishedOf(posts), NewestFirst), 0, 5)
  }

  /** Published with a non-zero view count. */
  predicate Viewed(p: BlogPost) {
    p.status == Published && p.viewCount != 0
  }

  /** Published and viewed, most viewed first, at most five. */
  function PopularPosts(posts: seq<BlogPost>): seq<BlogPost> {
    Slice(SortBy(Filter(posts, Viewed), MostViewedFirst), 0, 5)
  }

  predicate PublishedFeatured(p: BlogPost) {
    p.status == Published && p.isFeatured
  }

  /** The first three published featured posts, in pool order. */
  function FeaturedPosts(posts: seq<BlogPost>): seq<BlogPost> {
    Slice(Filter(posts, PublishedFeatured), 0, 3)
  }

  /** The first `k` of a sorted list are sorted, are elements of the list, number `k` or
      the whole list when it is shorter, and no element left out ranks before one taken. */
  lemma SortedTake<T>(s: seq<T>, cmp: (T, T) -> int, k: int)
    requires SortedBy(s, cmp)
    ensures SortedBy(Slice(s, 0, k), cmp)
    ensures forall x :: x in Slice(s, 0, k) ==> x in multiset(s)
    ensures k >= 0 ==> |Slice(s, 0, k)| == if k <= |s| then k else |s|
    ensures forall p, q :: p in s && p !in Slice(s, 0, k) && q in Slice(s, 0, k) ==> cmp(q, p) <= 0
  {
    var t := Slice(s, 0, k);
    assert t == s[..|t|];
    forall i, j | 0 <= i < j < |t| ensures cmp(t[i], t[j]) <= 0 {
      assert t[i] == s[i] && t[j] == s[j];
    }
    forall x | x in t ensures x in multiset(s) {
      var i :| 0 <= i < |t| && t[i] == x;
      assert s[i] == x;
    }
    forall p, q | p in s && p !in t && q in t ensures cmp(q, p) <= 0 {
      var i :| 0 <= i < |t| && t[i] == q;
      var j :| 0 <= j < |s| && s[j] == p;
      assert s[i] == q;
    }
  }

  /** Sorting a pool and taking the first `k`: sorted, drawn from the pool, `k` long or the
      whole pool, and no pool element left out ranks before one taken. */
  lemma SortedTop<T(!new)>(pool: seq<T>, cmp: (T, T) -> int, k: int)
    requires IsComparator(cmp)
    ensures var t := Slice(SortBy(pool, cmp), 0, k);
      SortedBy(t, cmp)
      && (forall x :: x in t ==> x in pool)
      && (k >= 0 ==> |t| == if k <= |pool| then k else |pool|)
      && (forall p, q :: p in pool && p !in t && q in t ==> cmp(q, p) <= 0)
  {
    var sorted := SortBy(pool, cmp);
    SortBySorted(pool, cmp);
    SortedTake(sorted, cmp, k);
    var t := Slice(sorted, 0, k);
    forall x | x in t ensures x in pool {
      assert x in multiset(sorted);
    }
    forall p, q | p in pool && p !in t && q in t ensures cmp(q, p) <= 0 {
      assert p in multiset(sorted);
    }
  }

  lemma NewestFirstIsComparator()
    ensures IsComparator(NewestFirst)
  {
  }

  lemma MostViewedFirstIsComparator()
    ensures IsComparator(MostViewedFirst)
  {
  }

  /** The recent list holds five published posts of the store, or all of them when
      there are fewer, newest first, and no published post left out is newer than one
      shown. */
  lemma RecentPostsProps(posts: seq<BlogPost>)
    ensures var n := |PublishedOf(posts)|;
      |RecentPosts(posts)| == if n < 5 then n else 5
    ensures forall p :: p in RecentPosts(posts) ==> p in posts && p.status == Published
    ensures var r := RecentPosts(posts);
      forall i, j :: 0 <= i < j < |r| ==> EffectiveDate(r[i]) >= EffectiveDate(r[j])
    ensures var r := RecentPosts(posts);
      forall p, q :: p in posts && p.status == Published && p !in r && q in r ==>
        EffectiveDate(q) >= EffectiveDate(p)
  {
    NewestFirstIsComparator();
    SortedTop(PublishedOf(posts), NewestFirst, 5);
    var r := RecentPosts(posts);
    forall i, j | 0 <= i < j < |r| ensures EffectiveDate(r[i]) >= EffectiveDate(r[j]) {
      assert NewestFirst(r[i], r[j]) <= 0;
    }
    forall p, q | p in posts && p.status == Published && p !in r && q in r
      ensures EffectiveDate(q) >= EffectiveDate(p)
    {
      assert p in PublishedOf(posts);
      assert NewestFirst(q, p) <= 0;
    }
  }

  /** The popular list holds five published viewed posts, or all of them when there are
      fewer, most viewed first, and no viewed post left out has more views than one
      shown. */
  lemma PopularPostsProps(posts: seq<BlogPost>)
    ensures var n := |Filter(posts, Viewed)|;
      |PopularPosts(posts)| == if n < 5 then n else 5
    ensures forall p :: p in PopularPosts(posts) ==> p in posts && p.status == Published && p.viewCount != 0
    ensures var r := PopularPosts(posts);
      forall i, j :: 0 <= i < j < |r| ==> r[i].viewCount >= r[j].viewCount
    ensures var r := PopularPosts(posts);
      forall p, q :: p in posts && Viewed(p) && p !in r && q in r ==> q.viewCount >= p.viewCount
  {
    MostViewedFirstIsComparator();
    SortedTop(Filter(posts, Viewed), MostViewedFirst, 5);
    var r := PopularPosts(posts);
    forall i, j | 0 <= i < j < |r| ensures r[i].viewCount >= r[j].viewCount {
      assert MostViewedFirst(r[i], r[j]) <= 0;
    }
    forall p, q | p in posts && Viewed(p) && p !in r && q in r ensures q.viewCount >= p.viewCount {
      assert p in Filter(posts, Viewed);
      assert MostViewedFirst(q, p) <= 0;
    }
  }

  /** The featured list is the first at most three posts that are published and
      flagged, in the order of the store. */
  lemma FeaturedPostsProps(posts: seq<BlogPost>)
    ensures |FeaturedPosts(posts)| <= 3
    ensures FeaturedPosts(posts) <= Filter(posts, PublishedFeatured)
    ensures |Filter(posts, PublishedFeatured)| >= 3 ==> |FeaturedPosts(posts)| == 3
    ensures forall p :: p in FeaturedPosts(posts) ==> p in posts && p.status == Published && p.isFeatured
  {
  }

  predicate CarriesCategory(p: BlogPost, id: string) {
    (exists c :: c in p.categories && c.id == id) && p.status == Published
  }

  /** The count shown beside a category. */
  function CategoryCount(posts: seq<BlogPost>, id: string): nat {
    |Filter(posts, (p: BlogPost) => CarriesCategory(p, id))|
  }

  /** The count grows by one for each published post carrying the category, and by
      nothing for any other post; it never exceeds the published posts. */
  lemma CategoryCountProps(posts: seq<BlogPost>, p: BlogPost, id: string)
    ensures CategoryCount(posts + [p], id) == CategoryCount(posts, id) + (if CarriesCategory(p, id) then 1 else 0)
    ensures CategoryCount(posts, id) <= |PublishedOf(posts)|
    ensures CategoryCount([], id) == 0
  {
    FilterAppend(posts, [p], (q: BlogPost) => CarriesCategory(q, id));
    FilterMonotone(posts, (q: BlogPost) => CarriesCategory(q, id), (q: BlogPost) => q.status == Published);
  }

  /** Selects the clicked category in the store. */
  method HandleCategoryClick(store: BlogStore, id: string)
    modifies store
    ensures store.Snapshot() == old(store.Snapshot()).(selectedCategory := Some(id))
  {
    store.SetSelectedCategory(Some(id));
  }

  /** Removes a selected tag id, or appends an unselected one. */
  method HandleTagClick(store: BlogStore, id: string)
    modifies store
    ensures store.Snapshot() == old(store.Snapshot()).(selectedTags := Toggle(old(store.selectedTags), id))
  {
    var newTags := Toggle(store.selectedTags, id);
    store.SetSelectedTags(newTags);
  }

  /** No category and no tags. */
  method ClearFilters(store: BlogStore)
    modifies store
    ensures store.Snapshot() == old(store.Snapshot()).(selectedCategory := None, selectedTags := [])
  {
    store.SetSelectedCategory(None);
    store.SetSelectedTags([]);
  }
}
