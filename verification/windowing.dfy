/**
 The pagination windowing algorithm: given the current page, the number of
 pages and the button budget, which page buttons and '...' markers the bar
 shows (components/ui/pagination.tsx, getPaginationRange).
 */
module Windowing {
  import opened Clamp
  import opened Entries

  /** The button budget the Pagination component always passes. */
  const MaxPageButtons: int := 7

  /** Pages shown on each side of the current page in the windowed layout. */
  const SideButtons: int := 1

  /** First page of the window around the current page (never below 2). */
  function WindowStart(currentPage: int): int
  {
    Max(2, currentPage - SideButtons)
  }

  /** Last page of the window around the current page (never above totalPages - 1). */
  function WindowEnd(currentPage: int, totalPages: int): int
  {
    Min(totalPages - 1, currentPage + SideButtons)
  }

  /** Whether the bar uses the windowed layout rather than listing every page. */
  predicate Windowed(totalPages: int, maxButtons: int)
  {
    totalPages > 1 && totalPages > maxButtons
  }

  /** The entries the windowed layout has pushed before its last-page step. */
  function BeforeLastPage(currentPage: int, totalPages: int): seq<Entry>
  {
    var start := WindowStart(currentPage);
    var end := WindowEnd(currentPage, totalPages);
    [Page(1)]
    + (if start > 2 then [Ellipsis] else [])
    + Range(start, end)
    + (if end < totalPages - 1 then [Ellipsis] else [])
  }

  /** The last-page step: push `totalPages` unless it is already the last entry. */
  function PushLastPage(range: seq<Entry>, totalPages: int): (r: seq<Entry>)
    ensures |r| > 0 && r[|r| - 1] == Page(totalPages)
    ensures r == range <==> |range| > 0 && range[|range| - 1] == Page(totalPages)
    ensures r != range ==> r[..|r| - 1] == range
  {
    if |range| > 0 && range[|range| - 1] == Page(totalPages) then range
    else range + [Page(totalPages)]
  }

  /**
   The bar for `currentPage` out of `totalPages`: nothing for a single page,
   every page when they fit in `maxButtons`, otherwise page 1, the window
   around the current page and the last page, with '...' over omitted pages.
   */
  function PaginationRange(currentPage: int, totalPages: int, maxButtons: int): (r: seq<Entry>)
    ensures totalPages <= 1 ==> r == []
    ensures 1 < totalPages <= maxButtons ==>
              |r| == totalPages && forall i :: 0 <= i < |r| ==> r[i] == Page(i + 1)
    ensures Windowed(totalPages, maxButtons) ==>
              2 <= |r| && r[0] == Page(1) && r[|r| - 1] == Page(totalPages)
  {
    if totalPages <= 1 then []
    else if totalPages <= maxButtons then Range(1, totalPages)
    else PushLastPage(BeforeLastPage(currentPage, totalPages), totalPages)
  }

  /**
   The pages lo, lo + 1, ..., hi pushed one at a time, as both the all-pages
   branch (lo = 1) and the window loop do.
   */
  method PushPages(lo: int, hi: int) returns (pages: seq<Entry>)
    ensures |pages| == Max(0, hi - lo + 1)
    ensures forall i :: 0 <= i < |pages| ==> pages[i] == Page(lo + i)
    ensures pages == Range(lo, hi)
  {
    pages := [];
    var i := lo;
    while i <= hi
      invariant lo <= i <= Max(lo, hi + 1)
      invariant pages == Range(lo, i - 1)
    {
      RangeSnoc(lo, i - 1);
      pages := pages + [Page(i)];
      i := i + 1;
    }
  }

  /**
   The push-by-push construction of the TypeScript `getPaginationRange`: page 1, the leading
   '...', each window page, the trailing '...' and finally the last page.
   */
  method ComputePaginationRange(currentPage: int, totalPages: int, maxButtons: int)
    returns (range: seq<Entry>)
    ensures range == PaginationRange(currentPage, totalPages, maxButtons)
  {
    if totalPages <= 1 {
      return [];
    }
    if totalPages <= maxButtons {
      range := PushPages(1, totalPages);
      return;
    }
    var start := Max(2, currentPage - SideButtons);
    var end := Min(totalPages - 1, currentPage + SideButtons);
    range := [Page(1)];
    if start > 2 {
      range := range + [Ellipsis];
    }
    var window := PushPages(start, end);
    range := range + window;
    if end < totalPages - 1 {
      range := range + [Ellipsis];
    }
    assert range == BeforeLastPage(currentPage, totalPages);
    LastPageGuardAlwaysFires(currentPage, totalPages);
    if range[|range| - 1] != Page(totalPages) {
      range := range + [Page(totalPages)];
    }
  }

  /** Number of '...' markers pushed before the window (0 or 1). */
  function LeadCount(currentPage: int): int
  {
    if WindowStart(currentPage) > 2 then 1 else 0
  }

  /** Number of pages in the window (0 when it is empty). */
  function WindowSize(currentPage: int, totalPages: int): int
  {
    Max(0, WindowEnd(currentPage, totalPages) - WindowStart(currentPage) + 1)
  }

  /** Number of '...' markers pushed after the window (0 or 1). */
  function TrailCount(currentPage: int, totalPages: int): int
  {
    if WindowEnd(currentPage, totalPages) < totalPages - 1 then 1 else 0
  }

  /**
   The last-page guard never finds `totalPages` already pushed: the window
   stops at totalPages - 1, so the last entry is page 1, a window page or '...'.
   */
  lemma LastPageGuardAlwaysFires(currentPage: int, totalPages: int)
    requires totalPages >= 2
    ensures var b := BeforeLastPage(currentPage, totalPages);
            |b| > 0 && b[|b| - 1] != Page(totalPages)
    ensures PushLastPage(BeforeLastPage(currentPage, totalPages), totalPages)
            == BeforeLastPage(currentPage, totalPages) + [Page(totalPages)]
  {
    var start, end := WindowStart(currentPage), WindowEnd(currentPage, totalPages);
    var lead := [Page(1)] + (if start > 2 then [Ellipsis] else []);
    var window := lead + Range(start, end);
    var b := BeforeLastPage(currentPage, totalPages);
    assert b == window + (if end < totalPages - 1 then [Ellipsis] else []);
    if end >= totalPages - 1 {
      assert b == window;
      if start <= end {
        assert b[|b| - 1] == Range(start, end)[end - start];
      } else {
        assert b[|b| - 1] == lead[|lead| - 1];
      }
    }
  }

  /**
   Position by position, what the windowed layout holds: page 1, the
   optional leading '...', the window pages in order, the optional trailing
   '...' and the last page.
   */
  lemma WindowedLayout(currentPage: int, totalPages: int, maxButtons: int)
    requires Windowed(totalPages, maxButtons)
    ensures var r := PaginationRange(currentPage, totalPages, maxButtons);
            var l, w, t := LeadCount(currentPage), WindowSize(currentPage, totalPages), TrailCount(currentPage, totalPages);
            && |r| == 2 + l + w + t
            && r[0] == Page(1)
            && (l == 1 ==> r[1] == Ellipsis)
            && (forall i :: 1 + l <= i < 1 + l + w ==> r[i] == Page(WindowStart(currentPage) + i - 1 - l))
            && (t == 1 ==> r[1 + l + w] == Ellipsis)
            && r[|r| - 1] == Page(totalPages)
  {
    var r := PaginationRange(currentPage, totalPages, maxButtons);
    var start, end := WindowStart(currentPage), WindowEnd(currentPage, totalPages);
    var l, t := LeadCount(currentPage), TrailCount(currentPage, totalPages);
    var lead := [Page(1)] + (if start > 2 then [Ellipsis] else []);
    var win := Range(start, end);
    var b := lead + win;
    LastPageGuardAlwaysFires(currentPage, totalPages);
    assert r == b + (if end < totalPages - 1 then [Ellipsis] else []) + [Page(totalPages)];
    assert |lead| == 1 + l;
    forall i | 1 + l <= i < 1 + l + |win|
      ensures r[i] == Page(start + i - 1 - l)
    {
      assert r[i] == b[i] == win[i - 1 - l];
    }
    if t == 1 {
      assert r[1 + l + |win|] == Ellipsis;
    }
  }

  /**
   The component renders nothing exactly when the range is empty: the range
   is empty iff there is at most one page.
   */
  lemma EmptyIffSinglePage(currentPage: int, totalPages: int, maxButtons: int)
    ensures PaginationRange(currentPage, totalPages, maxButtons) == [] <==> totalPages <= 1
  {
  }

  /** Every page number is between 1 and totalPages and they strictly increase. */
  lemma PagesIncreasingAndBounded(currentPage: int, totalPages: int, maxButtons: int)
    ensures var r := PaginationRange(currentPage, totalPages, maxButtons);
            PagesIncreasing(r) && PagesWithin(r, 1, totalPages)
  {
    if Windowed(totalPages, maxButtons) {
      WindowedLayout(currentPage, totalPages, maxButtons);
    }
  }

  /** In the windowed layout page 1 and page totalPages each appear exactly once. */
  lemma FirstAndLastAppearOnce(currentPage: int, totalPages: int, maxButtons: int)
    requires Windowed(totalPages, maxButtons)
    ensures var r := PaginationRange(currentPage, totalPages, maxButtons);
            AppearsOnce(r, Page(1)) && AppearsOnce(r, Page(totalPages))
  {
    var r := PaginationRange(currentPage, totalPages, maxButtons);
    PagesIncreasingAndBounded(currentPage, totalPages, maxButtons);
    IncreasingPagesAppearOnce(r, 1, 0);
    IncreasingPagesAppearOnce(r, totalPages, |r| - 1);
  }

  /** The bar never holds two '...' markers side by side, whatever the inputs. */
  lemma NoAdjacentEllipsesInRange(currentPage: int, totalPages: int, maxButtons: int)
    ensures NoAdjacentEllipses(PaginationRange(currentPage, totalPages, maxButtons))
  {
    if Windowed(totalPages, maxButtons) {
      WindowedLayout(currentPage, totalPages, maxButtons);
      // an empty window never has '...' on both sides
      assert WindowSize(currentPage, totalPages) == 0 ==>
             LeadCount(currentPage) + TrailCount(currentPage, totalPages) <= 1;
    }
  }

  /**
   The windowed layout has at most 7 entries whatever maxButtons is: page 1,
   one '...', three window pages, one '...' and the last page.
   */
  lemma WindowedAtMostSeven(currentPage: int, totalPages: int, maxButtons: int)
    requires Windowed(totalPages, maxButtons)
    ensures |PaginationRange(currentPage, totalPages, maxButtons)| <= 7
  {
    WindowedLayout(currentPage, totalPages, maxButtons);
  }

  /** With the component's budget of MAX_PAGE_BUTTONS the bar never exceeds it. */
  lemma AtMostMaxPageButtons(currentPage: int, totalPages: int)
    ensures |PaginationRange(currentPage, totalPages, MaxPageButtons)| <= MaxPageButtons
  {
    if Windowed(totalPages, MaxPageButtons) {
      WindowedAtMostSeven(currentPage, totalPages, MaxPageButtons);
    }
  }

  /**
   For a current page in [1, totalPages] the leading '...' is present iff
   page 2 is omitted, iff the window starts beyond 2; the trailing '...' is
   present iff page totalPages - 1 is omitted, iff the window ends before it.
   */
  lemma EllipsisIffOmitted(currentPage: int, totalPages: int, maxButtons: int)
    requires Windowed(totalPages, maxButtons)
    requires 1 <= currentPage <= totalPages
    ensures var r := PaginationRange(currentPage, totalPages, maxButtons);
            && (r[1] == Ellipsis <==> WindowStart(currentPage) > 2)
            && (r[1] == Ellipsis <==> Page(2) !in r)
            && (r[|r| - 2] == Ellipsis <==> WindowEnd(currentPage, totalPages) < totalPages - 1)
            && (r[|r| - 2] == Ellipsis <==> Page(totalPages - 1) !in r)
  {
    var r := PaginationRange(currentPage, totalPages, maxButtons);
    WindowedLayout(currentPage, totalPages, maxButtons);
    var l, w := LeadCount(currentPage), WindowSize(currentPage, totalPages);
    var start, end := WindowStart(currentPage), WindowEnd(currentPage, totalPages);
    if totalPages > 2 {
      assert w > 0;
      assert r[1 + l] == Page(start);
      assert r[l + w] == Page(end);
      if start > 2 {
        forall i | 0 <= i < |r| ensures r[i] != Page(2) {
        }
      }
      if end < totalPages - 1 {
        forall i | 0 <= i < |r| ensures r[i] != Page(totalPages - 1) {
        }
      }
    }
  }

  /**
   A bar laid out as page 1, l optional '...', w > 0 consecutive pages from
   `start`, t optional '...' and page `last`, where each '...' is present
   exactly when pages are skipped at its place, marks its gaps exactly.
   */
  lemma LayoutMarksGaps(r: seq<Entry>, l: int, w: int, t: int, start: int, last: int)
    requires 0 <= l <= 1 && 0 < w && 0 <= t <= 1 && |r| == 2 + l + w + t
    requires r[0] == Page(1) && r[|r| - 1] == Page(last)
    requires l == 1 ==> r[1] == Ellipsis && start > 2
    requires l == 0 ==> start == 2
    requires forall i :: 1 + l <= i < 1 + l + w ==> r[i] == Page(start + i - 1 - l)
    requires t == 1 ==> r[1 + l + w] == Ellipsis && start + w < last
    requires t == 0 ==> start + w == last
    ensures EllipsesMarkGaps(r)
  {
    forall i | 0 <= i < |r| && r[i].Ellipsis?
      ensures 0 < i < |r| - 1 && r[i - 1].Page? && r[i + 1].Page? && r[i - 1].n + 1 < r[i + 1].n
    {
      if i == 1 && l == 1 {
        assert r[i + 1] == Page(start);
      } else {
        assert i == 1 + l + w && r[i - 1] == Page(start + w - 1);
      }
    }
    forall i | 0 <= i < |r| - 1 && r[i].Page? && r[i + 1].Page?
      ensures r[i + 1].n == r[i].n + 1
    {
      if i == 0 {
        assert r[1] == Page(start);
      } else if i == l + w {
        assert r[i] == Page(start + w - 1);
      }
    }
  }

  /**
   With an empty window the bar is page 1 and the last page, with a single
   '...' between them iff some page lies between them.
   */
  lemma EmptyWindowBar(currentPage: int, totalPages: int, maxButtons: int)
    requires Windowed(totalPages, maxButtons) && WindowSize(currentPage, totalPages) == 0
    requires totalPages == 2 ==> 0 <= currentPage <= 3
    ensures PaginationRange(currentPage, totalPages, maxButtons)
            == if totalPages > 2 then [Page(1), Ellipsis, Page(totalPages)] else [Page(1), Page(2)]
  {
    WindowedLayout(currentPage, totalPages, maxButtons);
    assert LeadCount(currentPage) + TrailCount(currentPage, totalPages) == (if totalPages > 2 then 1 else 0);
  }

  /** With a non-empty window, every '...' marks a gap and neighbouring buttons are consecutive. */
  lemma WindowedBarMarksGaps(currentPage: int, totalPages: int, maxButtons: int)
    requires Windowed(totalPages, maxButtons) && WindowSize(currentPage, totalPages) > 0
    ensures EllipsesMarkGaps(PaginationRange(currentPage, totalPages, maxButtons))
  {
    WindowedLayout(currentPage, totalPages, maxButtons);
    LayoutMarksGaps(PaginationRange(currentPage, totalPages, maxButtons),
                    LeadCount(currentPage), WindowSize(currentPage, totalPages),
                    TrailCount(currentPage, totalPages), WindowStart(currentPage), totalPages);
  }

  /**
   '...' marks omitted pages exactly: each one separates two non-consecutive
   pages and neighbouring page buttons are consecutive. This holds for every
   current page except when the bar has exactly two pages and the current page
   lies far outside them (see SpuriousEllipsisForTwoPages).
   */
  lemma EllipsesMarkGapsInRange(currentPage: int, totalPages: int, maxButtons: int)
    requires totalPages == 2 && maxButtons < 2 ==> 0 <= currentPage <= 3
    ensures EllipsesMarkGaps(PaginationRange(currentPage, totalPages, maxButtons))
  {
    if !Windowed(totalPages, maxButtons) {
    } else if WindowSize(currentPage, totalPages) == 0 {
      EmptyWindowBar(currentPage, totalPages, maxButtons);
    } else {
      WindowedBarMarksGaps(currentPage, totalPages, maxButtons);
    }
  }

  /**
   With only two pages (reachable in the windowed layout only when
   maxButtons < 2) and a current page far outside them, a '...' is drawn
   between page 1 and page 2 although nothing lies between them.
   */
  lemma SpuriousEllipsisForTwoPages()
    ensures PaginationRange(4, 2, 1) == [Page(1), Ellipsis, Page(2)]
    ensures PaginationRange(-1, 2, 1) == [Page(1), Ellipsis, Page(2)]
    ensures !EllipsesMarkGaps(PaginationRange(4, 2, 1))
  {
    LastPageGuardAlwaysFires(4, 2);
    LastPageGuardAlwaysFires(-1, 2);
  }

  /**
   The current page, when it lies in [1, totalPages], is drawn exactly once,
   so exactly one button gets the highlighted style.
   */
  lemma CurrentPageAppearsOnce(currentPage: int, totalPages: int, maxButtons: int)
    requires 1 < totalPages
    requires 1 <= currentPage <= totalPages
    ensures AppearsOnce(PaginationRange(currentPage, totalPages, maxButtons), Page(currentPage))
  {
    var r := PaginationRange(currentPage, totalPages, maxButtons);
    PagesIncreasingAndBounded(currentPage, totalPages, maxButtons);
    if !Windowed(totalPages, maxButtons) {
      IncreasingPagesAppearOnce(r, currentPage, currentPage - 1);
    } else if currentPage == 1 {
      IncreasingPagesAppearOnce(r, 1, 0);
    } else if currentPage == totalPages {
      IncreasingPagesAppearOnce(r, totalPages, |r| - 1);
    } else {
      WindowedLayout(currentPage, totalPages, maxButtons);
      var k := 1 + LeadCount(currentPage) + (currentPage - WindowStart(currentPage));
      assert r[k] == Page(currentPage);
      IncreasingPagesAppearOnce(r, currentPage, k);
    }
  }
}
