/**
 * The page-number bar (Pagination.tsx): a window of at most five page
 * buttons around the current page, first/last shortcuts with ellipses, and
 * previous/next buttons.
 */
module Pagination {
  import opened Wrappers
  import opened Seqs

  const PagesToShow := 5

  datatype Window = Window(startPage: int, endPage: int)

  /**
   * `startPage` / `endPage`: centre the window on the current page, pull it
   * back from the last page when it would run short, and keep it from
   * starting before page 1.
   */
  function PageWindow(current: int, total: int): (w: Window)
    ensures 1 <= w.startPage && w.endPage <= total
    ensures w.endPage - w.startPage + 1 <= PagesToShow
    ensures total > PagesToShow ==> w.endPage - w.startPage + 1 == PagesToShow
    ensures 1 <= current <= total ==> w.startPage <= current <= w.endPage
    ensures 1 <= current <= total ==>
      w.startPage == if total > PagesToShow then Max(1, Min(current - 2, total - PagesToShow + 1)) else Max(1, current - 2)
    ensures 1 <= current <= total ==> w.endPage == Min(total, w.startPage + PagesToShow - 1)
  {
    var start0 := Max(1, current - PagesToShow / 2);
    var end := Min(total, start0 + PagesToShow - 1);
    var start1 := if total > PagesToShow && end - start0 + 1 < PagesToShow then end - PagesToShow + 1 else start0;
    Window(Max(1, start1), end)
  }

  /** The ascending run of integers from `lo` to `hi` inclusive (empty when `hi < lo`). */
  function Range(lo: int, hi: int): (r: seq<int>)
    ensures |r| == Max(0, hi - lo + 1)
    ensures forall i :: 0 <= i < |r| ==> r[i] == lo + i
    decreases hi - lo
  {
    if hi < lo then [] else Range(lo, hi - 1) + [hi]
  }

  /** The loop that collects the page numbers from `startPage` to `endPage`. */
  method PageNumbers(w: Window) returns (pages: seq<int>)
    ensures pages == Range(w.startPage, w.endPage)
  {
    pages := [];
    var i := w.startPage;
    while i <= w.endPage
      invariant w.startPage <= i <= Max(w.startPage, w.endPage + 1)
      invariant |pages| == i - w.startPage
      invariant forall k :: 0 <= k < |pages| ==> pages[k] == w.startPage + k
      decreases w.endPage - i
    {
      pages := pages + [i];
      i := i + 1;
    }
  }

  /** What the bar renders: nothing, or its buttons. */
  datatype View =
    | Hidden
    | Bar(pages: seq<int>, firstShortcut: bool, leftEllipsis: bool,
          lastShortcut: bool, rightEllipsis: bool, prevDisabled: bool, nextDisabled: bool)

  /** The bar for a current page and a page count; a single page or none renders nothing. */
  function Render(current: int, total: int): (v: View)
    ensures v.Hidden? <==> total <= 1
    ensures v.Bar? ==> var w := PageWindow(current, total);
      && v.pages == Range(w.startPage, w.endPage)
      && (v.firstShortcut <==> w.startPage > 1)
      && (v.leftEllipsis <==> w.startPage > 2)
      && (v.lastShortcut <==> w.endPage < total)
      && (v.rightEllipsis <==> w.endPage < total - 1)
      && (v.prevDisabled <==> current == 1)
      && (v.nextDisabled <==> current == total)
  {
    if total <= 1 then Hidden
    else
      var w := PageWindow(current, total);
      Bar(Range(w.startPage, w.endPage), w.startPage > 1, w.startPage > 2,
          w.endPage < total, w.endPage < total - 1, current == 1, current == total)
  }

  datatype Control = Previous | NextPage | FirstShortcut | LastShortcut | PageButton(page: int)

  /** The page a click asks for; None when the control is disabled or not rendered. */
  function Click(current: int, total: int, c: Control): (r: Option<int>)
    ensures total <= 1 ==> r.None?
    ensures total > 1 && c == Previous ==> (r.None? <==> current == 1) && (r.Some? ==> r.value == current - 1)
    ensures total > 1 && c == NextPage ==> (r.None? <==> current == total) && (r.Some? ==> r.value == current + 1)
    ensures c.PageButton? && r.Some? ==> r.value == c.page
    ensures total > 1 ==> var w := PageWindow(current, total);
      && (c == FirstShortcut ==> r == if w.startPage > 1 then Some(1) else None)
      && (c == LastShortcut ==> r == if w.endPage < total then Some(total) else None)
      && (c.PageButton? ==> (r.Some? <==> w.startPage <= c.page <= w.endPage))
  {
    match Render(current, total)
    case Hidden => None
    case Bar(pages, first, _, last, _, prevOff, nextOff) =>
      match c
      case Previous => if prevOff then None else Some(current - 1)
      case NextPage => if nextOff then None else Some(current + 1)
      case FirstShortcut => if first then Some(1) else None
      case LastShortcut => if last then Some(total) else None
      case PageButton(n) =>
        var w := PageWindow(current, total);
        assert w.startPage <= n <= w.endPage ==> pages[n - w.startPage] == n;
        if n in pages then Some(n) else None
  }

  /** From a page in range, every click asks for a page in range. */
  lemma ClicksStayInRange(current: int, total: int, c: Control)
    requires 1 <= current <= total
    ensures Click(current, total, c).Some? ==> 1 <= Click(current, total, c).value <= total
  {
    var r := Click(current, total, c);
    if r.Some? && c.PageButton? {
      var w := PageWindow(current, total);
      var pages := Range(w.startPage, w.endPage);
      var k :| 0 <= k < |pages| && pages[k] == c.page;
    }
  }

  /**
   * The window is pulled back from the last page only when there are more
   * than five pages: with exactly five and the last one current, the bar is
   * "1 … 3 4 5", and page 2 has no button.
   */
  lemma LastOfFivePages()
    ensures Render(5, 5) == Bar([3, 4, 5], true, true, false, false, false, true)
    ensures Click(5, 5, PageButton(2)).None?
  {
    assert PageWindow(5, 5) == Window(3, 5);
    assert Range(3, 5) == [3, 4, 5];
  }
}
