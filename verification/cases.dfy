/**
 Concrete bars for the component's budget of seven buttons, worked out from
 the windowing algorithm.
 */
module Cases {
  import opened Entries
  import opened Windowing

  /** Ten pages, each end and the middle. */
  lemma TenPages()
    ensures PaginationRange(1, 10, MaxPageButtons) == [Page(1), Page(2), Ellipsis, Page(10)]
    ensures PaginationRange(5, 10, MaxPageButtons)
            == [Page(1), Ellipsis, Page(4), Page(5), Page(6), Ellipsis, Page(10)]
    ensures PaginationRange(10, 10, MaxPageButtons) == [Page(1), Ellipsis, Page(9), Page(10)]
  {
    LastPageGuardAlwaysFires(1, 10);
    LastPageGuardAlwaysFires(5, 10);
    LastPageGuardAlwaysFires(10, 10);
  }

  /** Few pages: nothing for zero or one page, every page when they fit. */
  lemma FewPages(currentPage: int)
    ensures PaginationRange(currentPage, 0, MaxPageButtons) == []
    ensures PaginationRange(currentPage, 1, MaxPageButtons) == []
    ensures PaginationRange(currentPage, 5, MaxPageButtons) == [Page(1), Page(2), Page(3), Page(4), Page(5)]
  {
  }

  /**
   One page more than the budget with the current page in the middle gives
   two '...' markers, each hiding few pages (page 2, pages 6 and 7).
   */
  lemma OnePageOverBudget()
    ensures PaginationRange(4, 8, MaxPageButtons)
            == [Page(1), Ellipsis, Page(3), Page(4), Page(5), Ellipsis, Page(8)]
  {
    LastPageGuardAlwaysFires(4, 8);
  }

  /**
   The windowed layout does not consult the budget: with a budget of five
   buttons and six pages the bar has six entries.
   */
  lemma SmallerBudgetExceeded()
    ensures PaginationRange(3, 6, 5) == [Page(1), Page(2), Page(3), Page(4), Ellipsis, Page(6)]
    ensures |PaginationRange(3, 6, 5)| > 5
  {
    LastPageGuardAlwaysFires(3, 6);
  }
}
