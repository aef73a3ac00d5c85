/** The search results page (`SearchResults.tsx`): filter menus built from the posts,
    the filter record, and the filtered, sorted list. Categories and tags are matched by
    name, and a post needs only one of the selected names (OR). The clock reading `now`
    (milliseconds) is a parameter. The search query itself is never applied here. */
module SearchResults {
  import opened Js
  import opened Seqs
  import opened Sorting
  import opened Types
  import Utils

  const MsPerDay: int := 24 * 60 * 60 * 1000

  function Same(s: string): string {
    s
  }

  /** All lists one after another. */
  function Flatten(lists: seq<seq<string>>): seq<string> {
    if lists == [] then [] else lists[0] + Flatten(lists[1..])
  }

  /** `Array.from` of a `Set` filled by `forEach` over the lists: each name once, in the
      order it was first added. */
  method UniqueNames(lists: seq<seq<string>>) returns (names: seq<string>)
    ensures names == DedupBy(Flatten(lists), Same, {})
  {
    names := [];
    var seen: set<string> := {};
    var i := 0;
    while i < |lists|
      invariant 0 <= i <= |lists|
      invariant names + DedupBy(Flatten(lists[i..]), Same, seen) == DedupBy(Flatten(lists), Same, {})
    {
      var own := lists[i];
      FlattenFrom(lists, i);
      var j := 0;
      while j < |own|
        invariant 0 <= j <= |own|
        invariant names + DedupBy(own[j..] + Flatten(lists[i + 1..]), Same, seen)
               == DedupBy(Flatten(lists), Same, {})
      {
        NameStep(names, own, j, Flatten(lists[i + 1..]), seen);
        if own[j] !in seen {
          names := names + [own[j]];
          seen := seen + {own[j]};
        }
        j := j + 1;
      }
      assert own[j..] + Flatten(lists[i + 1..]) == Flatten(lists[i + 1..]);
      i := i + 1;
    }
  }

  /** The names from list `i` on are its own followed by those of the later lists. */
  lemma FlattenFrom(lists: seq<seq<string>>, i: int)
    requires 0 <= i < |lists|
    ensures Flatten(lists[i..]) == lists[i] + Flatten(lists[i + 1..])
  {
    assert lists[i..][1..] == lists[i + 1..];
  }

  /** One name through the set: it is listed and recorded exactly when it is new. */
  lemma NameStep(names: seq<string>, own: seq<string>, j: int, later: seq<string>, seen: set<string>)
    requires 0 <= j < |own|
    ensures var x := own[j];
      names + DedupBy(own[j..] + later, Same, seen)
      == (if x in seen then names else names + [x])
         + DedupBy(own[j + 1..] + later, Same, if x in seen then seen else seen + {x})
  {
    var rest := own[j..] + later;
    assert rest[0] == own[j] && rest[1..] == own[j + 1..] + later;
    DedupByStep(rest, Same, seen);
    if own[j] in seen {
      assert seen + {own[j]} == seen;
    }
  }

  /** Each name occurring in the lists is listed exactly once, in first-seen order. */
  lemma UniqueNamesProps(lists: seq<seq<string>>)
    ensures var names := DedupBy(Flatten(lists), Same, {});
      (forall i, j :: 0 <= i < j < |names| ==> names[i] != names[j])
      && (forall x :: x in names <==> x in Flatten(lists))
      && IsSubsequence(names, Flatten(lists))
  {
    var all := Flatten(lists);
    var names := DedupBy(all, Same, {});
    DedupDistinct(all, Same, {});
    DedupKeys(all, Same, {});
    forall x | x in all ensures x in names {
      assert Same(x) in Keys(all, Same);
      assert x in Keys(names, Same);
      KeysWitness(names, Same, x);
    }
  }

  function CategoryNames(cs: seq<Category>): (r: seq<string>)
    ensures |r| == |cs| && forall i :: 0 <= i < |r| ==> r[i] == cs[i].name
  {
    if cs == [] then [] else [cs[0].name] + CategoryNames(cs[1..])
  }

  function TagNames(ts: seq<Tag>): (r: seq<string>)
    ensures |r| == |ts| && forall i :: 0 <= i < |r| ==> r[i] == ts[i].name
  {
    if ts == [] then [] else [ts[0].name] + TagNames(ts[1..])
  }

  /** The per-post name lists the three menus are built from. */
  function CategoryLists(posts: seq<BlogPost>): (r: seq<seq<string>>)
    ensures |r| == |posts| && forall i :: 0 <= i < |r| ==> r[i] == CategoryNames(posts[i].categories)
  {
    if posts == [] then [] else [CategoryNames(posts[0].categories)] + CategoryLists(posts[1..])
  }

  function TagLists(posts: seq<BlogPost>): (r: seq<seq<string>>)
    ensures |r| == |posts| && forall i :: 0 <= i < |r| ==> r[i] == TagNames(posts[i].tags)
  {
    if posts == [] then [] else [TagNames(posts[0].tags)] + TagLists(posts[1..])
  }

  function AuthorLists(posts: seq<BlogPost>): (r: seq<seq<string>>)
    ensures |r| == |posts| && forall i :: 0 <= i < |r| ==> r[i] == [posts[i].author.name]
  {
    if posts == [] then [] else [[posts[0].author.name]] + AuthorLists(posts[1..])
  }

  /** The filter record. */
  datatype Filters = Filters(categories: seq<string>, tags: seq<string>, dateRange: string,
                             readingTime: string, author: string)

  const NoFilters := Filters([], [], "", "", "")

  /** 'today', 'week' and 'month' look back 1, 7 and 30 days; anything else does not
      filter by date. */
  function DaysAgo(range: string): int {
    if range == "today" then 1 else if range == "week" then 7 else if range == "month" then 30 else 0
  }

  /** The reading-time cap: 'quick' 5, 'medium' 15, anything else 999 minutes. */
  function MaxTime(choice: string): int {
    if choice == "quick" then 5 else if choice == "medium" then 15 else 999
  }

  predicate AnyIn(selected: seq<string>, names: seq<string>) {
    exists x :: x in selected && x in names
  }

  /** The filter callback, check by check; each check returns false early. */
  predicate Keep(p: BlogPost, f: Filters, now: int) {
    if |f.categories| > 0 && !AnyIn(f.categories, CategoryNames(p.categories)) then false
    else if |f.tags| > 0 && !AnyIn(f.tags, TagNames(p.tags)) then false
    else if f.dateRange != "" && DaysAgo(f.dateRange) > 0
            && EffectiveDate(p) < now - DaysAgo(f.dateRange) * MsPerDay then false
    else if f.readingTime != "" && Utils.CalculateReadingTime(p.content) > MaxTime(f.readingTime) then false
    else if f.author != "" && p.author.name != f.author then false
    else true
  }

  function QuickestFirst(a: BlogPost, b: BlogPost): int {
    Utils.CalculateReadingTime(a.content) - Utils.CalculateReadingTime(b.content)
  }

  /** The comparator the switch sorts with; 'relevance' and any other value do not sort. */
  function SortResults(filtered: seq<BlogPost>, sortBy: string): seq<BlogPost> {
    if sortBy == "date" then SortBy(filtered, NewestFirst)
    else if sortBy == "views" then SortBy(filtered, MostViewedFirst)
    else if sortBy == "readingTime" then SortBy(filtered, QuickestFirst)
    else filtered
  }

  /** `filteredAndSortedPosts`. */
  function Results(posts: seq<BlogPost>, f: Filters, sortBy: string, now: int): seq<BlogPost> {
    SortResults(Filter(posts, (p: BlogPost) => Keep(p, f, now)), sortBy)
  }

  /** A selected category or tag list keeps a post that has any one of the selected
      names: the lists are OR filters. */
  lemma KeepAnyName(p: BlogPost, f: Filters, now: int)
    requires Keep(p, f, now)
    ensures |f.categories| > 0 ==> exists i :: 0 <= i < |p.categories| && p.categories[i].name in f.categories
    ensures |f.tags| > 0 ==> exists i :: 0 <= i < |p.tags| && p.tags[i].name in f.tags
  {
    if |f.categories| > 0 {
      var x :| x in f.categories && x in CategoryNames(p.categories);
      var i :| 0 <= i < |CategoryNames(p.categories)| && CategoryNames(p.categories)[i] == x;
      assert p.categories[i].name in f.categories;
    }
    if |f.tags| > 0 {
      var x :| x in f.tags && x in TagNames(p.tags);
      var i :| 0 <= i < |TagNames(p.tags)| && TagNames(p.tags)[i] == x;
      assert p.tags[i].name in f.tags;
    }
  }

  /** One shared tag name is enough, whatever else is selected. */
  lemma OneTagSuffices(p: BlogPost, now: int, i: int, others: seq<string>)
    requires 0 <= i < |p.tags|
    ensures Keep(p, NoFilters.(tags := others + [p.tags[i].name]), now)
  {
    var f := NoFilters.(tags := others + [p.tags[i].name]);
    assert p.tags[i].name in f.tags && p.tags[i].name in TagNames(p.tags);
  }

  /** One shared category name is enough, whatever else is selected. */
  lemma OneCategorySuffices(p: BlogPost, now: int, i: int, others: seq<string>)
    requires 0 <= i < |p.categories|
    ensures Keep(p, NoFilters.(categories := others + [p.categories[i].name]), now)
  {
    var f := NoFilters.(categories := others + [p.categories[i].name]);
    assert p.categories[i].name in f.categories && p.categories[i].name in CategoryNames(p.categories);
  }

  /** A date range of 1, 7 or 30 days drops exactly the posts dated before the cutoff
      `now - days * 86400000`; any other range drops nothing by date. */
  lemma DateRangeFilter(p: BlogPost, range: string, now: int)
    ensures DaysAgo(range) > 0 ==>
      (Keep(p, NoFilters.(dateRange := range), now) <==> EffectiveDate(p) >= now - DaysAgo(range) * MsPerDay)
    ensures DaysAgo(range) == 0 ==> Keep(p, NoFilters.(dateRange := range), now)
    ensures (range == "today" || range == "week" || range == "month") <==> DaysAgo(range) > 0
  {
  }

  /** The reading-time caps: 'quick' keeps at most 5 minutes and 'medium' at most 15;
      'long' caps at 999, so it keeps every post of 15 minutes or less too. */
  lemma ReadingTimeFilter(p: BlogPost, now: int)
    ensures Keep(p, NoFilters.(readingTime := "quick"), now) <==> Utils.CalculateReadingTime(p.content) <= 5
    ensures Keep(p, NoFilters.(readingTime := "medium"), now) <==> Utils.CalculateReadingTime(p.content) <= 15
    ensures Keep(p, NoFilters.(readingTime := "long"), now) <==> Utils.CalculateReadingTime(p.content) <= 999
    ensures Utils.CalculateReadingTime(p.content) <= 15 ==> Keep(p, NoFilters.(readingTime := "long"), now)
  {
    assert "quick" != "medium" by { assert "quick"[0] != "medium"[0]; }
    assert "long" != "quick" && "long" != "medium" by { assert "long"[0] != "quick"[0] && "long"[0] != "medium"[0]; }
    KeepReadingOnly(p, "quick", now);
    KeepReadingOnly(p, "medium", now);
    KeepReadingOnly(p, "long", now);
  }

  /** With only a reading-time choice, a post is kept exactly when it is within the cap. */
  lemma KeepReadingOnly(p: BlogPost, choice: string, now: int)
    requires choice != ""
    ensures Keep(p, NoFilters.(readingTime := choice), now) <==> Utils.CalculateReadingTime(p.content) <= MaxTime(choice)
  {
  }

  /** The author filter is an exact name match. */
  lemma AuthorFilter(p: BlogPost, name: string, now: int)
    requires name != ""
    ensures Keep(p, NoFilters.(author := name), now) <==> p.author.name == name
  {
  }

  /** With no filter and the 'relevance' sort, the results are the posts as given. */
  lemma ResultsUnfiltered(posts: seq<BlogPost>, now: int)
    ensures Results(posts, NoFilters, "relevance", now) == posts
  {
    FilterAll(posts, (p: BlogPost) => Keep(p, NoFilters, now));
  }

  lemma ComparatorsAreComparators()
    ensures IsComparator(NewestFirst) && IsComparator(MostViewedFirst) && IsComparator(QuickestFirst)
  {
  }

  /** The sorted results are a reordering of the kept posts: newest first for 'date',
      most viewed first for 'views', shortest reading time first for 'readingTime'. */
  lemma SortResultsProps(filtered: seq<BlogPost>, sortBy: string)
    ensures multiset(SortResults(filtered, sortBy)) == multiset(filtered)
    ensures var r := SortResults(filtered, sortBy);
      (sortBy == "date" ==> forall i, j :: 0 <= i < j < |r| ==> EffectiveDate(r[i]) >= EffectiveDate(r[j]))
      && (sortBy == "views" ==> forall i, j :: 0 <= i < j < |r| ==> r[i].viewCount >= r[j].viewCount)
      && (sortBy == "readingTime" ==> forall i, j :: 0 <= i < j < |r| ==>
            Utils.CalculateReadingTime(r[i].content) <= Utils.CalculateReadingTime(r[j].content))
  {
    ComparatorsAreComparators();
    if sortBy == "date" {
      SortBySorted(filtered, NewestFirst);
    } else if sortBy == "views" {
      SortBySorted(filtered, MostViewedFirst);
    } else if sortBy == "readingTime" {
      SortBySorted(filtered, QuickestFirst);
    }
  }

  /** Posts that tie under the chosen sort keep their relative order. */
  lemma SortResultsStable(filtered: seq<BlogPost>, y: BlogPost)
    ensures Filter(SortResults(filtered, "date"), EquivTo(NewestFirst, y)) == Filter(filtered, EquivTo(NewestFirst, y))
    ensures Filter(SortResults(filtered, "views"), EquivTo(MostViewedFirst, y)) == Filter(filtered, EquivTo(MostViewedFirst, y))
    ensures Filter(SortResults(filtered, "readingTime"), EquivTo(QuickestFirst, y)) == Filter(filtered, EquivTo(QuickestFirst, y))
  {
    ComparatorsAreComparators();
    SortByStable(filtered, NewestFirst, y);
    SortByStable(filtered, MostViewedFirst, y);
    SortByStable(filtered, QuickestFirst, y);
  }

  /** Some list filter is non-empty or some text filter is not ''. */
  predicate HasActiveFilters(f: Filters) {
    |f.categories| > 0 || |f.tags| > 0 || f.dateRange != "" || f.readingTime != "" || f.author != ""
  }

  /** A filter is active exactly when the record differs from the cleared one. */
  lemma HasActiveFiltersIff(f: Filters)
    ensures HasActiveFilters(f) <==> f != NoFilters
  {
  }

  /** One `handleFilterChange(filterType, value)` call. */
  datatype FilterChange =
    | SetCategories(categories: seq<string>)
    | SetTags(tags: seq<string>)
    | SetDateRange(range: string)
    | SetReadingTime(choice: string)
    | SetAuthor(name: string)

  /** The check-box handler: a checked box appends its value, an unchecked one filters it
      out. */
  function Checkbox(selected: seq<string>, value: string, checked: bool): seq<string> {
    if checked then selected + [value] else Filter(selected, (x: string) => x != value)
  }

  /** Checking and then unchecking a box that was not checked restores the selection. */
  lemma CheckboxUndo(selected: seq<string>, value: string)
    requires value !in selected
    ensures Checkbox(Checkbox(selected, value, true), value, false) == selected
  {
    var keep := (x: string) => x != value;
    FilterAppend(selected, [value], keep);
    FilterAll(selected, keep);
    assert Filter([value], keep) == [];
  }

  /** The component's sort choice and filter record. */
  class SearchState {
    var sortBy: string
    var filters: Filters

    constructor()
      ensures sortBy == "relevance" && filters == NoFilters
    {
      sortBy := "relevance";
      filters := NoFilters;
    }

    function Shown(posts: seq<BlogPost>, now: int): seq<BlogPost>
      reads this
    {
      Results(posts, filters, sortBy, now)
    }

    /** Spreads the previous record and overwrites the one named field. */
    method HandleFilterChange(change: FilterChange)
      modifies this
      ensures filters == match change
        case SetCategories(v) => old(filters).(categories := v)
        case SetTags(v) => old(filters).(tags := v)
        case SetDateRange(v) => old(filters).(dateRange := v)
        case SetReadingTime(v) => old(filters).(readingTime := v)
        case SetAuthor(v) => old(filters).(author := v)
      ensures sortBy == old(sortBy)
    {
      match change
      case SetCategories(v) => filters := filters.(categories := v);
      case SetTags(v) => filters := filters.(tags := v);
      case SetDateRange(v) => filters := filters.(dateRange := v);
      case SetReadingTime(v) => filters := filters.(readingTime := v);
      case SetAuthor(v) => filters := filters.(author := v);
    }

    method SetSortBy(option: string)
      modifies this
      ensures sortBy == option && filters == old(filters)
    {
      sortBy := option;
    }

    method ClearFilters()
      modifies this
      ensures filters == NoFilters && !HasActiveFilters(filters)
      ensures sortBy == old(sortBy)
    {
      filters := NoFilters;
    }
  }
}
