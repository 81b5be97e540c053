/** The page selector (components/Pagination.tsx): the list of page buttons
    with ellipses, and the Prev/Next buttons. */
module Pagination {
  import opened Types

  /** One entry of the selector: a page button or the '...' marker. */
  datatype PageItem = Number(n: int) | Ellipsis

  function Max(a: int, b: int): int { if a < b then b else a }
  function Min(a: int, b: int): int { if a < b then a else b }

  /** The page buttons `lo, lo + 1, ..., hi` (none when `lo > hi`). */
  function Range(lo: int, hi: int): seq<PageItem>
    decreases hi - lo
  {
    if lo > hi then [] else [Number(lo)] + Range(lo + 1, hi)
  }

  /** `Range(lo, hi)` holds exactly the pages `lo..hi`, in order. */
  lemma {:induction false} RangeAt(lo: int, hi: int)
    ensures |Range(lo, hi)| == Max(0, hi - lo + 1)
    ensures forall k :: 0 <= k < |Range(lo, hi)| ==> Range(lo, hi)[k] == Number(lo + k)
    decreases hi - lo
  {
    if lo <= hi {
      RangeAt(lo + 1, hi);
    }
  }

  lemma RangeSnoc(lo: int, hi: int)
    requires lo <= hi + 1
    ensures Range(lo, hi + 1) == Range(lo, hi) + [Number(hi + 1)]
  {
    RangeAt(lo, hi);
    RangeAt(lo, hi + 1);
  }

  /** The entries `getPageNumbers` returns: all pages when there are at most
      five, otherwise the first page, the window around the current page and
      the last page, with '...' where pages are skipped. */
  function PageList(currentPage: int, totalPages: int): seq<PageItem> {
    if totalPages <= 5 then Range(1, totalPages)
    else
      (if currentPage > 2 then [Number(1)] + (if currentPage > 3 then [Ellipsis] else []) else [])
      + Range(Max(1, currentPage - 1), Min(totalPages, currentPage + 1))
      + (if currentPage < totalPages - 1
         then (if currentPage < totalPages - 2 then [Ellipsis] else []) + [Number(totalPages)]
         else [])
  }

  /** The selector's entries, built with the source's loops and pushes. */
  method GetPageNumbers(currentPage: int, totalPages: int) returns (pages: seq<PageItem>)
    ensures pages == PageList(currentPage, totalPages)
  {
    var pageNumbers := PushRange([], 1, totalPages);
    if totalPages <= 5 {
      return pageNumbers;
    }
    var head: seq<PageItem> := [];
    if currentPage > 2 {
      head := head + [Number(1)];
      if currentPage > 3 {
        head := head + [Ellipsis];
      }
    }
    var lo, hi := Max(1, currentPage - 1), Min(totalPages, currentPage + 1);
    pages := PushRange(head, lo, hi);
    ghost var tail: seq<PageItem> := [];
    if currentPage < totalPages - 1 {
      if currentPage < totalPages - 2 {
        pages := pages + [Ellipsis];
        tail := tail + [Ellipsis];
      }
      pages := pages + [Number(totalPages)];
      tail := tail + [Number(totalPages)];
    }
    assert pages == head + Range(lo, hi) + tail;
  }

  /** `for (let i = lo; i <= hi; i++) pages.push(i)`. */
  method PushRange(pages: seq<PageItem>, lo: int, hi: int) returns (r: seq<PageItem>)
    ensures r == pages + Range(lo, hi)
  {
    r := pages;
    var i := lo;
    while i <= hi
      invariant lo <= i <= Max(lo, hi + 1)
      invariant r == pages + Range(lo, i - 1)
    {
      RangeSnoc(lo, i - 1);
      r := r + [Number(i)];
      i := i + 1;
    }
  }

  /** With at most five pages the selector lists exactly `1..totalPages`. */
  lemma FewPagesAllListed(currentPage: int, totalPages: int)
    requires totalPages <= 5
    ensures |PageList(currentPage, totalPages)| == Max(0, totalPages)
    ensures forall k :: 0 <= k < |PageList(currentPage, totalPages)| ==>
      PageList(currentPage, totalPages)[k] == Number(k + 1)
  {
    RangeAt(1, totalPages);
  }

  /** The seven forms the selector takes with more than five pages. */
  lemma {:induction false} ManyPagesCases(currentPage: int, totalPages: int)
    requires 5 < totalPages && 1 <= currentPage <= totalPages
    ensures var cp, tp, p := currentPage, totalPages, PageList(currentPage, totalPages);
      || (cp == 1 && p == [Number(1), Number(2), Ellipsis, Number(tp)])
      || (cp == 2 && p == [Number(1), Number(2), Number(3), Ellipsis, Number(tp)])
      || (cp == 3 && p == [Number(1), Number(2), Number(3), Number(4), Ellipsis, Number(tp)])
      || (3 < cp < tp - 2 &&
          p == [Number(1), Ellipsis, Number(cp - 1), Number(cp), Number(cp + 1), Ellipsis, Number(tp)])
      || (cp == tp - 2 && p == [Number(1), Ellipsis, Number(cp - 1), Number(cp), Number(cp + 1), Number(tp)])
      || (cp == tp - 1 && p == [Number(1), Ellipsis, Number(cp - 1), Number(cp), Number(tp)])
      || (cp == tp && p == [Number(1), Ellipsis, Number(cp - 1), Number(tp)])
  {
    var cp, tp := currentPage, totalPages;
    RangeAt(Max(1, cp - 1), Min(tp, cp + 1));
    if cp == 1 {
      assert Range(1, 2) == [Number(1), Number(2)];
    } else if cp == 2 {
      assert Range(1, 3) == [Number(1), Number(2), Number(3)];
    } else if cp == 3 {
      assert Range(2, 4) == [Number(2), Number(3), Number(4)];
    } else if cp <= tp - 2 {
      assert Range(cp - 1, cp + 1) == [Number(cp - 1), Number(cp), Number(cp + 1)];
    } else if cp == tp - 1 {
      assert Range(cp - 1, tp) == [Number(cp - 1), Number(cp), Number(tp)];
    } else {
      assert Range(cp - 1, tp) == [Number(cp - 1), Number(tp)];
    }
  }

  /** With more than five pages and the current page in range, the selector
      has four to seven entries, starts at page 1, ends at the last page, and
      puts '...' after the first page exactly when the current page is past 3
      and before the last exactly when it is more than two pages from the end. */
  lemma ManyPagesEnds(currentPage: int, totalPages: int)
    requires 5 < totalPages && 1 <= currentPage <= totalPages
    ensures var p := PageList(currentPage, totalPages);
      && 4 <= |p| <= 7
      && p[0] == Number(1) && p[|p| - 1] == Number(totalPages)
      && (p[1] == Ellipsis <==> currentPage > 3)
      && (p[|p| - 2] == Ellipsis <==> currentPage < totalPages - 2)
  {
    ManyPagesCases(currentPage, totalPages);
  }

  /** ... and its numbers lie in `1..totalPages` and strictly increase, ... */
  lemma ManyPagesAscending(currentPage: int, totalPages: int)
    requires 5 < totalPages && 1 <= currentPage <= totalPages
    ensures var p := PageList(currentPage, totalPages);
      && (forall i :: 0 <= i < |p| && p[i].Number? ==> 1 <= p[i].n <= totalPages)
      && (forall i, j :: 0 <= i < j < |p| && p[i].Number? && p[j].Number? ==> p[i].n < p[j].n)
  {
    ManyPagesCases(currentPage, totalPages);
    var p := PageList(currentPage, totalPages);
    forall i, j | 0 <= i < j < |p| && p[i].Number? && p[j].Number?
      ensures p[i].n < p[j].n
    {
      assert i < |p| - 1 && 0 < j;
    }
  }

  /** ... adjacent numbers differ by exactly 1, ... */
  lemma ManyPagesAdjacent(currentPage: int, totalPages: int)
    requires 5 < totalPages && 1 <= currentPage <= totalPages
    ensures var p := PageList(currentPage, totalPages);
      forall i :: 0 <= i < |p| - 1 && p[i].Number? && p[i + 1].Number? ==> p[i + 1].n == p[i].n + 1
  {
    ManyPagesCases(currentPage, totalPages);
  }

  /** ... a '...' always stands between two numbers that skip at least one page, ... */
  lemma ManyPagesEllipsisGaps(currentPage: int, totalPages: int)
    requires 5 < totalPages && 1 <= currentPage <= totalPages
    ensures var p := PageList(currentPage, totalPages);
      forall i :: 0 < i < |p| - 1 && p[i].Ellipsis? ==>
        p[i - 1].Number? && p[i + 1].Number? && p[i - 1].n + 1 < p[i + 1].n
  {
    ManyPagesCases(currentPage, totalPages);
  }

  /** ... and it shows the current page and its neighbours. */
  lemma ManyPagesWindow(currentPage: int, totalPages: int)
    requires 5 < totalPages && 1 <= currentPage <= totalPages
    ensures Number(currentPage) in PageList(currentPage, totalPages)
    ensures forall n :: Max(1, currentPage - 1) <= n <= Min(totalPages, currentPage + 1) ==>
      Number(n) in PageList(currentPage, totalPages)
  {
    ManyPagesCases(currentPage, totalPages);
  }

  /** Every page button the selector shows leads to a page in `1..totalPages`,
      so a handler that accepts exactly those pages accepts every click. */
  lemma SelectorPagesInRange(currentPage: int, totalPages: int)
    requires 1 <= currentPage <= totalPages
    ensures forall item :: item in PageList(currentPage, totalPages) && item.Number? ==> 1 <= item.n <= totalPages
  {
    var p := PageList(currentPage, totalPages);
    if totalPages <= 5 {
      FewPagesAllListed(currentPage, totalPages);
    } else {
      ManyPagesAscending(currentPage, totalPages);
    }
    forall item | item in p && item.Number? ensures 1 <= item.n <= totalPages {
      var i :| 0 <= i < |p| && p[i] == item;
    }
  }

  /** Where the Prev button goes: nowhere (disabled) on page 1, else one page back. */
  function PrevTarget(currentPage: int): Option<int> {
    if currentPage == 1 then None else Some(currentPage - 1)
  }

  /** Where the Next button goes: nowhere (disabled) on the last page, else one page on. */
  function NextTarget(currentPage: int, totalPages: int): Option<int> {
    if currentPage == totalPages then None else Some(currentPage + 1)
  }

  /** From a page in range, an enabled Prev or Next button leads to a page in range. */
  lemma NavigationStaysInRange(currentPage: int, totalPages: int)
    requires 1 <= currentPage <= totalPages
    ensures PrevTarget(currentPage).Some? <==> currentPage > 1
    ensures NextTarget(currentPage, totalPages).Some? <==> currentPage < totalPages
    ensures PrevTarget(currentPage).Some? ==> 1 <= PrevTarget(currentPage).value <= totalPages
    ensures NextTarget(currentPage, totalPages).Some? ==>
      1 <= NextTarget(currentPage, totalPages).value <= totalPages
  {
  }
}
