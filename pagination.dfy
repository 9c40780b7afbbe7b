/**
 * frontend/src/components/Pagination.jsx: the window of page buttons and the targets of the
 * previous/next buttons. Page numbers are integers; `showPages` defaults to 5 in the source.
 */
module Pagination {
  import opened Wrappers

  const DefaultShowPages: int := 5

  function Max(a: int, b: int): int { if a < b then b else a }

  function Min(a: int, b: int): int { if a < b then a else b }

  /**
   * The first and the last page of the window: centred on `current` (`delta` is
   * `Math.floor(showPages / 2)`), cut at `total`, and when cut pushed back towards page 1.
   */
  function WindowBounds(current: int, total: int, showPages: int): (int, int) {
    var delta := showPages / 2;
    var start := Max(1, current - delta);
    var end := Min(total, start + showPages - 1);
    var start' := if end - start + 1 < showPages then Max(1, end - showPages + 1) else start;
    (start', end)
  }

  /**
   * `getVisiblePages()`: `Array.from({length: end - start + 1}, (_, i) => start + i)`, an
   * ascending run of consecutive page numbers (empty when the length is not positive).
   */
  function VisiblePages(current: int, total: int, showPages: int): (r: seq<int>)
    ensures var (start, end) := WindowBounds(current, total, showPages);
      |r| == Max(0, end - start + 1) && (r != [] ==> r[0] == start && r[|r| - 1] == end)
    ensures forall i :: 0 <= i < |r| - 1 ==> r[i + 1] == r[i] + 1
  {
    var (start, end) := WindowBounds(current, total, showPages);
    seq(Max(0, end - start + 1), i => start + i)
  }

  /** The component renders nothing (`null`) when there is at most one page. */
  function Render(current: int, total: int, showPages: int): (r: Option<seq<int>>)
    ensures r.None? <==> total <= 1
    ensures r.Some? ==> r.value == VisiblePages(current, total, showPages)
  {
    if total <= 1 then None else Some(VisiblePages(current, total, showPages))
  }

  /** With the current page in range, every visible page is a page that exists. */
  lemma VisibleInRange(current: int, total: int, showPages: int)
    requires 1 <= current <= total && showPages >= 1
    ensures forall p :: p in VisiblePages(current, total, showPages) ==> 1 <= p <= total
  {
    var r := VisiblePages(current, total, showPages);
    var (start, end) := WindowBounds(current, total, showPages);
    forall p | p in r
      ensures 1 <= p <= total
    {
      var i :| 0 <= i < |r| && r[i] == p;
      assert p == start + i;
    }
  }

  /** The window holds `min(showPages, total)` pages. */
  lemma VisibleLength(current: int, total: int, showPages: int)
    requires 1 <= current <= total && showPages >= 1
    ensures |VisiblePages(current, total, showPages)| == Min(showPages, total)
  {
  }

  /** The current page is always one of the buttons. */
  lemma VisibleHasCurrent(current: int, total: int, showPages: int)
    requires 1 <= current <= total && showPages >= 1
    ensures current in VisiblePages(current, total, showPages)
  {
    var r := VisiblePages(current, total, showPages);
    var (start, end) := WindowBounds(current, total, showPages);
    assert start <= current <= end;
    assert r[current - start] == current;
  }

  /** `Math.max(currentPage - 1, 1)`. */
  function PrevTarget(current: int): int {
    Max(current - 1, 1)
  }

  /** `Math.min(currentPage + 1, totalPages)`. */
  function NextTarget(current: int, total: int): int {
    Min(current + 1, total)
  }

  /** `disabled={currentPage === 1}`. */
  predicate PrevDisabled(current: int) {
    current == 1
  }

  /** `disabled={currentPage === totalPages}`. */
  predicate NextDisabled(current: int, total: int) {
    current == total
  }

  /**
   * The previous/next targets never leave the page range, and a button is disabled exactly
   * when its target is the current page.
   */
  lemma NavigationClamped(current: int, total: int)
    requires 1 <= current <= total
    ensures 1 <= PrevTarget(current) <= total && 1 <= NextTarget(current, total) <= total
    ensures PrevTarget(current) == current <==> PrevDisabled(current)
    ensures NextTarget(current, total) == current <==> NextDisabled(current, total)
    ensures !PrevDisabled(current) ==> PrevTarget(current) == current - 1
    ensures !NextDisabled(current, total) ==> NextTarget(current, total) == current + 1
  {
  }
}
