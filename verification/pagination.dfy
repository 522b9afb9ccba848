/** The flashcard pager: which page buttons to show for the current page,
    with -1 and -2 standing for the gaps before and after the pages around
    the current one, and where the previous and next buttons lead. */
module Pagination {

  const LeftGap := -1
  const RightGap := -2

  /** The pages `a` to `b`, both included; empty when `a > b`. */
  function Range(a: int, b: int): (r: seq<int>)
    ensures |r| == if a <= b then b - a + 1 else 0
    ensures forall i :: 0 <= i < |r| ==> r[i] == a + i
  {
    if a > b then [] else seq(b - a + 1, i requires 0 <= i <= b - a => a + i)
  }

  function Max(a: int, b: int): int { if a >= b then a else b }
  function Min(a: int, b: int): int { if a <= b then a else b }

  /** The button list: every page when there are at most seven; otherwise
      the first page, a gap marker when the current page is past 3, the
      current page and its neighbours (without the first and last), a gap
      marker when the current page is before `totalPages - 2`, and the last
      page. */
  function PageList(currentPage: int, totalPages: int): seq<int> {
    if totalPages <= 7 then Range(1, totalPages)
    else
      [1] + (if currentPage > 3 then [LeftGap] else [])
          + Range(Max(2, currentPage - 1), Min(totalPages - 1, currentPage + 1))
          + (if currentPage < totalPages - 2 then [RightGap] else [])
          + [totalPages]
  }

  /** A range grows by one page at its top end. */
  lemma RangeSnoc(a: int, b: int)
    requires a <= b + 1
    ensures Range(a, b) + [b + 1] == Range(a, b + 1)
  {
    var s := Range(a, b) + [b + 1];
    assert forall i :: 0 <= i < |s| ==> s[i] == a + i;
  }

  /** The pages `a` to `b`, built one page at a time as the loops do. */
  method RangeLoop(a: int, b: int) returns (r: seq<int>)
    ensures r == Range(a, b)
  {
    r := [];
    var i := a;
    while i <= b
      invariant a <= i <= Max(a, b + 1)
      invariant r == Range(a, i - 1)
    {
      RangeSnoc(a, i - 1);
      r := r + [i];
      i := i + 1;
    }
  }

  /** The `pages` computation, building the list step by step. */
  method Pages(currentPage: int, totalPages: int) returns (r: seq<int>)
    ensures r == PageList(currentPage, totalPages)
  {
    if totalPages <= 7 {
      r := RangeLoop(1, totalPages);
    } else {
      var left := if currentPage > 3 then [LeftGap] else [];
      var middle := RangeLoop(Max(2, currentPage - 1), Min(totalPages - 1, currentPage + 1));
      var right := if currentPage < totalPages - 2 then [RightGap] else [];
      r := [1] + left + middle + right + [totalPages];
    }
  }

  predicate IsGap(p: int) { p == LeftGap || p == RightGap }

  /** With at most seven pages every page is shown, in order, and nothing
      else. */
  lemma FewPagesAllShown(currentPage: int, totalPages: int)
    requires totalPages <= 7
    ensures var r := PageList(currentPage, totalPages);
            (forall p :: p in r <==> 1 <= p <= totalPages) && forall i :: 0 <= i < |r| ==> r[i] == i + 1
  {
    var r := PageList(currentPage, totalPages);
    forall p | 1 <= p <= totalPages
      ensures p in r
    {
      assert r[p - 1] == p;
    }
  }

  /** The pieces of the list when there are more than seven pages. */
  lemma Pieces(currentPage: int, totalPages: int)
    requires totalPages > 7
    ensures var r := PageList(currentPage, totalPages);
            var lo := Max(2, currentPage - 1);
            var hi := Min(totalPages - 1, currentPage + 1);
            var g := if currentPage > 3 then 1 else 0;
            var m := if lo <= hi then hi - lo + 1 else 0;
            var h := if currentPage < totalPages - 2 then 1 else 0;
      && |r| == 2 + g + m + h
      && r[0] == 1 && r[|r| - 1] == totalPages
      && (g == 1 ==> r[1] == LeftGap)
      && (forall i :: 1 + g <= i < 1 + g + m ==> r[i] == lo + i - 1 - g)
      && (h == 1 ==> r[1 + g + m] == RightGap)
  {
  }

  /** With more pages the list runs from the first page to the last; the
      first gap shows iff the current page is past 3, the second iff it is
      before `totalPages - 2`. */
  lemma ManyPagesEnds(currentPage: int, totalPages: int)
    requires totalPages > 7
    ensures var r := PageList(currentPage, totalPages);
      && |r| >= 2 && r[0] == 1 && r[|r| - 1] == totalPages
      && (LeftGap in r <==> currentPage > 3)
      && (RightGap in r <==> currentPage < totalPages - 2)
  {
    Pieces(currentPage, totalPages);
  }

  /** Page numbers lie between 1 and `totalPages` and increase along the
      list. */
  lemma ManyPagesOrdered(currentPage: int, totalPages: int)
    requires totalPages > 7
    ensures var r := PageList(currentPage, totalPages);
      && (forall i :: 0 <= i < |r| ==> IsGap(r[i]) || 1 <= r[i] <= totalPages)
      && (forall i, j :: 0 <= i < j < |r| && !IsGap(r[i]) && !IsGap(r[j]) ==> r[i] < r[j])
  {
    Pieces(currentPage, totalPages);
  }

  /** Neighbouring page numbers are consecutive pages, and a gap marker
      always stands between two pages that are not. */
  lemma ManyPagesGaps(currentPage: int, totalPages: int)
    requires totalPages > 7
    ensures var r := PageList(currentPage, totalPages);
      && (forall i :: 0 <= i < |r| - 1 && !IsGap(r[i]) && !IsGap(r[i + 1]) ==> r[i + 1] == r[i] + 1)
      && (forall i :: 0 < i < |r| - 1 && IsGap(r[i]) ==>
            !IsGap(r[i - 1]) && !IsGap(r[i + 1]) && r[i + 1] > r[i - 1] + 1)
  {
    Pieces(currentPage, totalPages);
  }

  /** A current page in range is always among the buttons. */
  lemma CurrentPageShown(currentPage: int, totalPages: int)
    requires 1 <= currentPage <= totalPages
    ensures currentPage in PageList(currentPage, totalPages)
  {
    var r := PageList(currentPage, totalPages);
    if totalPages <= 7 {
      assert r[currentPage - 1] == currentPage;
    } else if currentPage == 1 {
      assert r[0] == 1;
    } else if currentPage == totalPages {
      assert r[|r| - 1] == totalPages;
    } else {
      var lo := Max(2, currentPage - 1);
      var mid := Range(lo, Min(totalPages - 1, currentPage + 1));
      assert mid[currentPage - lo] == currentPage;
      assert currentPage in mid;
    }
  }

  /** The previous button's target. */
  function PreviousTarget(currentPage: int): (r: int)
    ensures r >= 1
    ensures currentPage > 1 ==> r == currentPage - 1
    ensures currentPage <= 1 ==> r == 1
  {
    Max(1, currentPage - 1)
  }

  /** The next button's target. */
  function NextTarget(currentPage: int, totalPages: int): (r: int)
    ensures r <= totalPages
    ensures currentPage < totalPages ==> r == currentPage + 1
    ensures currentPage >= totalPages ==> r == totalPages
  {
    Min(totalPages, currentPage + 1)
  }

  /** From a page in range, both buttons lead to a page in range at most one
      step away, and each stays put exactly when it is shown disabled. */
  lemma NavigationStaysInRange(currentPage: int, totalPages: int)
    requires 1 <= currentPage <= totalPages
    ensures 1 <= PreviousTarget(currentPage) <= totalPages
    ensures 1 <= NextTarget(currentPage, totalPages) <= totalPages
    ensures PreviousTarget(currentPage) == currentPage <==> currentPage == 1
    ensures NextTarget(currentPage, totalPages) == currentPage <==> currentPage == totalPages
    ensures NextTarget(PreviousTarget(currentPage), totalPages) == currentPage || currentPage == 1
  {
  }
}
