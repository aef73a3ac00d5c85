/** Client-side pagination shared by the post grid, the post list and the pagination
    control: `Math.ceil(n / perPage)` pages, page `p` being
    `items.slice((p - 1) * perPage, (p - 1) * perPage + perPage)`. */
module Paging {
  import opened Js

  /** `Math.ceil(n / perPage)`. */
  function TotalPages(n: nat, perPage: int): (r: nat)
    requires perPage > 0
    ensures n <= r * perPage
    ensures r == 0 || (r - 1) * perPage < n
  {
    CeilDiv(n, perPage)
  }

  /** The items shown on page `page`. */
  function PageOf<T>(items: seq<T>, page: int, perPage: int): seq<T> {
    var start := (page - 1) * perPage;
    Slice(items, start, start + perPage)
  }

  function Min(a: int, b: int): int {
    if a <= b then a else b
  }

  function Max(a: int, b: int): int {
    if a >= b then a else b
  }

  /** A page holds at most `perPage` items: the consecutive run that starts at
      `(page - 1) * perPage`, cut off at the end of the list. */
  lemma PageContents<T>(items: seq<T>, page: int, perPage: int)
    requires page >= 1 && perPage > 0
    ensures var start := (page - 1) * perPage;
      start >= 0
      && PageOf(items, page, perPage)
         == items[Min(start, |items|)..Min(start + perPage, |items|)]
    ensures |PageOf(items, page, perPage)| <= perPage
  {
    var start := (page - 1) * perPage;
    MulMonotone(0, page - 1, perPage);
    SliceRun(items, start, perPage);
  }

  /** `Slice` of a run of `len` items from a non-negative start, cut off at the end. */
  lemma SliceRun<T>(items: seq<T>, start: int, len: int)
    requires start >= 0 && len > 0
    ensures Slice(items, start, start + len) == items[Min(start, |items|)..Min(start + len, |items|)]
  {
    if start + len <= |items| {
      assert Slice(items, start, start + len) == items[start..start + len];
    } else if start <= |items| {
      assert Slice(items, start, start + len) == items[start..];
    } else {
      assert Slice(items, start, start + len) == [];
    }
  }

  /** A page after the last one is empty. */
  lemma PageBeyondLast<T>(items: seq<T>, page: int, perPage: int)
    requires perPage > 0 && page > TotalPages(|items|, perPage)
    ensures PageOf(items, page, perPage) == []
  {
    var t := TotalPages(|items|, perPage);
    MulMonotone(t, page - 1, perPage);
  }

  /** Pages `1..m` one after another. */
  function Pages<T>(items: seq<T>, perPage: int, m: nat): seq<T> {
    if m == 0 then [] else Pages(items, perPage, m - 1) + PageOf(items, m, perPage)
  }

  lemma {:induction false} PagesPrefix<T>(items: seq<T>, perPage: int, m: nat)
    requires perPage > 0
    ensures m * perPage >= 0
    ensures Pages(items, perPage, m) == items[..Min(m * perPage, |items|)]
  {
    if m > 0 {
      PagesPrefix(items, perPage, m - 1);
      NextMultiple(m, perPage);
      PagesStep(items, perPage, m, (m - 1) * perPage);
    }
  }

  lemma NextMultiple(m: nat, k: int)
    requires m > 0 && k > 0
    ensures (m - 1) * k + k == m * k && (m - 1) * k >= 0
  {
  }

  /** Page `m` continues the prefix shown by the pages before it. */
  lemma PagesStep<T>(items: seq<T>, perPage: int, m: nat, lo: int)
    requires m > 0 && perPage > 0 && lo >= 0 && lo == (m - 1) * perPage
    requires Pages(items, perPage, m - 1) == items[..Min(lo, |items|)]
    ensures Pages(items, perPage, m) == items[..Min(lo + perPage, |items|)]
  {
    var a, b := Min(lo, |items|), Min(lo + perPage, |items|);
    assert PageOf(items, m, perPage) == Slice(items, lo, lo + perPage);
    SliceRun(items, lo, perPage);
    assert Pages(items, perPage, m) == items[..a] + items[a..b];
    assert items[..a] + items[a..b] == items[..b];
  }

  /** Reading every page in turn shows every item exactly once, in order. */
  lemma PagesCoverAll<T>(items: seq<T>, perPage: int)
    requires perPage > 0
    ensures Pages(items, perPage, TotalPages(|items|, perPage)) == items
  {
    PagesPrefix(items, perPage, TotalPages(|items|, perPage));
  }

  /** The "Showing first - last of n" figures for a page. */
  datatype Range = Range(first: int, last: int)

  function PageRange(page: int, perPage: int, n: nat): Range {
    var start := (page - 1) * perPage;
    Range(start + 1, Min(start + perPage, n))
  }

  /** On an existing page the figures count exactly the items the page shows. */
  lemma PageRangeCounts<T>(items: seq<T>, page: int, perPage: int)
    requires perPage > 0 && 1 <= page <= TotalPages(|items|, perPage)
    ensures var r := PageRange(page, perPage, |items|);
      1 <= r.first <= r.last <= |items| && r.last - r.first + 1 == |PageOf(items, page, perPage)|
  {
    PageContents(items, page, perPage);
    var t := TotalPages(|items|, perPage);
    var start := (page - 1) * perPage;
    MulMonotone(page - 1, t - 1, perPage);
    assert start < |items|;
    assert |PageOf(items, page, perPage)| == Min(start + perPage, |items|) - start;
  }

  lemma MulMonotone(a: int, b: int, k: int)
    requires 0 <= a <= b && k > 0
    ensures 0 <= a * k <= b * k
  {
  }
}
