/** The pagination control (`Pagination.tsx`): the window of page buttons with
    ellipses, the guard on page changes, and the "Showing a-b of n" figures. */
module Pagination {
  import opened Js
  import Paging

  datatype PageItem = Num(n: int) | Ellipsis

  /** The buttons `lo, lo + 1, ..., hi`; none when `lo > hi`. */
  function Run(lo: int, hi: int): seq<PageItem>
    decreases hi - lo
  {
    if lo > hi then [] else Run(lo, hi - 1) + [Num(hi)]
  }

  /** The list `getVisiblePages` builds, case by case. */
  function VisiblePages(current: int, total: int, maxVisible: int): seq<PageItem> {
    if total <= maxVisible then Run(1, total)
    else [Num(1)] + Middle(current, total, maxVisible) + (if total > 1 then [Num(total)] else [])
  }

  /** What lies between the first and the last page when not every page fits. In the
      middle case only pages strictly between 1 and `total` are kept from the window
      around `current`. */
  function Middle(current: int, total: int, maxVisible: int): seq<PageItem> {
    var half := maxVisible / 2;
    if current <= half + 1 then
      Run(2, Paging.Min(maxVisible - 1, total - 1)) + (if total > maxVisible - 1 then [Ellipsis] else [])
    else if current >= total - half then
      (if total > maxVisible - 1 then [Ellipsis] else []) + Run(Paging.Max(2, total - maxVisible + 2), total - 1)
    else
      [Ellipsis] + Run(Paging.Max(current - half + 1, 2), Paging.Min(current + half - 1, total - 1)) + [Ellipsis]
  }

  /** Pushes `lo, ..., hi` onto `pages`. */
  method PushRun(pages: seq<PageItem>, lo: int, hi: int) returns (r: seq<PageItem>)
    ensures r == pages + Run(lo, hi)
  {
    r := pages;
    var i := lo;
    while i <= hi
      invariant lo <= i && (i <= hi + 1 || i == lo)
      invariant r == pages + Run(lo, i - 1)
      decreases hi - i
    {
      r := r + [Num(i)];
      i := i + 1;
    }
  }

  /** The middle-case loop: every `i` of the window that lies strictly between 1 and
      `total` is pushed. */
  method PushInside(pages: seq<PageItem>, lo: int, hi: int, total: int) returns (r: seq<PageItem>)
    ensures r == pages + Run(Paging.Max(lo, 2), Paging.Min(hi, total - 1))
  {
    r := pages;
    var i := lo;
    while i <= hi
      invariant lo <= i && (i <= hi + 1 || i == lo)
      invariant r == pages + Run(Paging.Max(lo, 2), Paging.Min(i - 1, total - 1))
      decreases hi - i
    {
      if i > 1 && i < total {
        r := r + [Num(i)];
      }
      i := i + 1;
    }
  }

  /** `getVisiblePages`, push by push. */
  method GetVisiblePages(current: int, total: int, maxVisible: int) returns (pages: seq<PageItem>)
    ensures pages == VisiblePages(current, total, maxVisible)
  {
    pages := [];
    if total <= maxVisible {
      pages := PushRun(pages, 1, total);
      assert pages == Run(1, total);
    } else {
      pages := pages + [Num(1)];
      pages := PushMiddle(pages, current, total, maxVisible);
      if total > 1 {
        pages := pages + [Num(total)];
      } else {
        assert pages == pages + [];
      }
    }
  }

  /** The pushes between the first and the last page. */
  method PushMiddle(pages: seq<PageItem>, current: int, total: int, maxVisible: int)
    returns (r: seq<PageItem>)
    ensures r == pages + Middle(current, total, maxVisible)
  {
    var half := maxVisible / 2;
    var e: seq<PageItem> := [];
    r := pages;
    if current <= half + 1 {
      var hi := Paging.Min(maxVisible - 1, total - 1);
      r := PushRun(r, 2, hi);
      if total > maxVisible - 1 {
        r := r + [Ellipsis];
        assert r == pages + (Run(2, hi) + [Ellipsis]);
      } else {
        assert r == pages + (Run(2, hi) + e);
      }
    } else if current >= total - half {
      var lo := Paging.Max(2, total - maxVisible + 2);
      var dots: seq<PageItem> := if total > maxVisible - 1 then [Ellipsis] else e;
      r := r + dots;
      r := PushRun(r, lo, total - 1);
      assert r == pages + (dots + Run(lo, total - 1));
    } else {
      var lo, hi := current - half + 1, current + half - 1;
      r := r + [Ellipsis];
      r := PushInside(r, lo, hi, total);
      r := r + [Ellipsis];
      assert r == pages + ([Ellipsis] + Run(Paging.Max(lo, 2), Paging.Min(hi, total - 1)) + [Ellipsis]);
    }
  }

  /** Every page number in the list lies in [lo, hi], and the numbers increase strictly
      from left to right. */
  predicate Ascending(items: seq<PageItem>, lo: int, hi: int) {
    (forall i :: 0 <= i < |items| && items[i].Num? ==> lo <= items[i].n <= hi)
    && (forall i, j :: 0 <= i < j < |items| && items[i].Num? && items[j].Num? ==> items[i].n < items[j].n)
  }

  lemma {:induction false} RunAscending(lo: int, hi: int)
    ensures Ascending(Run(lo, hi), lo, hi)
    ensures |Run(lo, hi)| == if lo > hi then 0 else hi - lo + 1
    ensures forall i :: 0 <= i < |Run(lo, hi)| ==> Run(lo, hi)[i] == Num(lo + i)
    decreases hi - lo
  {
    if lo <= hi {
      RunAscending(lo, hi - 1);
    }
  }

  lemma AscendingWiden(items: seq<PageItem>, lo: int, hi: int, lo': int, hi': int)
    requires Ascending(items, lo, hi) && lo' <= lo && hi <= hi'
    ensures Ascending(items, lo', hi')
  {
  }

  lemma AscendingAppend(a: seq<PageItem>, b: seq<PageItem>, lo: int, m: int, hi: int)
    requires Ascending(a, lo, m) && Ascending(b, m + 1, hi) && m <= hi && lo <= m + 1
    ensures Ascending(a + b, lo, hi)
  {
    var c := a + b;
    forall i, j | 0 <= i < j < |c| && c[i].Num? && c[j].Num? ensures c[i].n < c[j].n {
      if j < |a| {
        assert c[i] == a[i] && c[j] == a[j];
      } else if i >= |a| {
        assert c[i] == b[i - |a|] && c[j] == b[j - |a|];
      } else {
        assert c[i] == a[i] && c[j] == b[j - |a|];
      }
    }
    forall i | 0 <= i < |c| && c[i].Num? ensures lo <= c[i].n <= hi {
      if i < |a| {
        assert c[i] == a[i];
      } else {
        assert c[i] == b[i - |a|];
      }
    }
  }

  /** When every page fits, the list is exactly the pages 1 to `total`. */
  lemma VisibleAllPages(current: int, total: int, maxVisible: int)
    requires total <= maxVisible
    ensures |VisiblePages(current, total, maxVisible)| == if total < 1 then 0 else total
    ensures forall i :: 0 <= i < |VisiblePages(current, total, maxVisible)| ==>
      VisiblePages(current, total, maxVisible)[i] == Num(i + 1)
  {
    RunAscending(1, total);
  }

  /** The part between the first and the last button lies strictly inside (1, total). */
  lemma MiddleAscending(current: int, total: int, maxVisible: int)
    requires total > maxVisible && total > 1
    ensures var v := VisiblePages(current, total, maxVisible);
      |v| >= 2 && Ascending(v[1..|v| - 1], 2, total - 1)
  {
    var half := maxVisible / 2;
    var v := VisiblePages(current, total, maxVisible);
    var e: seq<PageItem> := [Ellipsis];
    var mid: seq<PageItem>;
    if current <= half + 1 {
      var r := Run(2, Paging.Min(maxVisible - 1, total - 1));
      mid := r + e;
      RunPlusEllipses(2, Paging.Min(maxVisible - 1, total - 1), total, [], e);
      assert [] + r + e == mid;
    } else if current >= total - half {
      var r := Run(Paging.Max(2, total - maxVisible + 2), total - 1);
      mid := e + r;
      RunPlusEllipses(Paging.Max(2, total - maxVisible + 2), total - 1, total, e, []);
      assert e + r + [] == mid;
    } else {
      mid := e + Run(Paging.Max(current - half + 1, 2), Paging.Min(current + half - 1, total - 1)) + e;
      RunPlusEllipses(Paging.Max(current - half + 1, 2), Paging.Min(current + half - 1, total - 1), total, e, e);
    }
    assert v == [Num(1)] + mid + [Num(total)];
    assert v[1..|v| - 1] == mid;
  }

  /** A run inside [2, total - 1], possibly with an ellipsis before or after it. */
  lemma RunPlusEllipses(lo: int, hi: int, total: int, pre: seq<PageItem>, post: seq<PageItem>)
    requires 2 <= lo && hi <= total - 1
    requires pre == [] || pre == [Ellipsis]
    requires post == [] || post == [Ellipsis]
    ensures Ascending(pre + Run(lo, hi) + post, 2, total - 1)
  {
    RunAscending(lo, hi);
    var r := Run(lo, hi);
    var c := pre + r + post;
    forall i | 0 <= i < |c| && c[i].Num? ensures 2 <= c[i].n <= total - 1 && |pre| <= i < |pre| + |r| && c[i] == r[i - |pre|] {
      if |pre| <= i < |pre| + |r| {
        assert c[i] == r[i - |pre|];
      }
    }
  }

  /** When pages are left out, the list starts with page 1 and ends with page `total`,
      and its page numbers increase strictly and stay within [1, total]. */
  lemma VisibleWindow(current: int, total: int, maxVisible: int)
    requires total > maxVisible && total > 1
    ensures var v := VisiblePages(current, total, maxVisible);
      |v| >= 2 && v[0] == Num(1) && v[|v| - 1] == Num(total) && Ascending(v, 1, total)
  {
    var v := VisiblePages(current, total, maxVisible);
    MiddleAscending(current, total, maxVisible);
    var mid := v[1..|v| - 1];
    assert v == [Num(1)] + mid + [Num(total)];
    AscendingAppend([Num(1)], mid, 1, 1, total - 1);
    AscendingAppend([Num(1)] + mid, [Num(total)], 1, total - 1, total);
  }

  /** Ten pages, five visible: at page 1 the list is 1 2 3 4 ... 10. */
  lemma VisibleAtStart()
    ensures VisiblePages(1, 10, 5) == [Num(1), Num(2), Num(3), Num(4), Ellipsis, Num(10)]
  {
    assert Run(2, 4) == [Num(2), Num(3), Num(4)] by {
      assert Run(2, 2) == [Num(2)];
      assert Run(2, 3) == [Num(2), Num(3)];
    }
  }

  /** At page 10 the list is 1 ... 7 8 9 10. */
  lemma VisibleAtEnd()
    ensures VisiblePages(10, 10, 5) == [Num(1), Ellipsis, Num(7), Num(8), Num(9), Num(10)]
  {
    assert Run(7, 9) == [Num(7), Num(8), Num(9)] by {
      assert Run(7, 7) == [Num(7)];
      assert Run(7, 8) == [Num(7), Num(8)];
    }
  }

  /** At page 5 the list is 1 ... 4 5 6 ... 10. */
  lemma VisibleInMiddle()
    ensures VisiblePages(5, 10, 5) == [Num(1), Ellipsis, Num(4), Num(5), Num(6), Ellipsis, Num(10)]
  {
    assert Run(4, 6) == [Num(4), Num(5), Num(6)] by {
      assert Run(4, 4) == [Num(4)];
      assert Run(4, 5) == [Num(4), Num(5)];
    }
  }

  /** Nothing is rendered for a single page or none. */
  function Render(current: int, total: int, maxVisible: int): (r: Option<seq<PageItem>>)
    ensures r.None? <==> total <= 1
    ensures r.Some? ==> r.value == VisiblePages(current, total, maxVisible)
  {
    if total <= 1 then None else Some(VisiblePages(current, total, maxVisible))
  }

  /** `handlePageChange`: the page handed on to `onPageChange`, if any. */
  function PageChange(page: int, current: int, total: int): (r: Option<int>)
    ensures r.Some? ==> r.value == page && 1 <= page <= total && page != current
    ensures r.None? ==> page < 1 || page > total || page == current
  {
    if page >= 1 && page <= total && page != current then Some(page) else None
  }

  /** `getPageInfo`: the first and last item numbers on the current page. */
  function PageInfo(current: int, perPage: int, totalItems: int): Paging.Range {
    Paging.Range((current - 1) * perPage + 1, Paging.Min(current * perPage, totalItems))
  }

  /** The control reports the same figures as the list summaries, so on an existing page
      they count exactly the items the page shows. */
  lemma PageInfoAgrees<T>(items: seq<T>, current: int, perPage: int)
    requires perPage > 0 && 1 <= current <= Paging.TotalPages(|items|, perPage)
    ensures PageInfo(current, perPage, |items|) == Paging.PageRange(current, perPage, |items|)
    ensures var r := PageInfo(current, perPage, |items|);
      1 <= r.first <= r.last <= |items| && r.last - r.first + 1 == |Paging.PageOf(items, current, perPage)|
  {
    assert (current - 1) * perPage + perPage == current * perPage;
    Paging.PageRangeCounts(items, current, perPage);
  }
}
