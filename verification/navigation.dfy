/**
 The Prev and Next buttons of the pagination bar: the page each one moves
 to and when each one is disabled.
 */
module Navigation {
  import opened Clamp

  /** The Prev button is disabled on the first page. */
  predicate PrevDisabled(currentPage: int)
  {
    currentPage == 1
  }

  /** The Next button is disabled on the last page. */
  predicate NextDisabled(currentPage: int, totalPages: int)
  {
    currentPage == totalPages
  }

  /**
   The page Prev moves to: one back, never below page 1. Clicking it leaves
   the page unchanged exactly when the button is disabled.
   */
  function PrevPage(currentPage: int): (p: int)
    ensures 1 <= p
    ensures 1 <= currentPage ==> p <= currentPage
    ensures p == currentPage <==> PrevDisabled(currentPage)
  {
    Max(1, currentPage - 1)
  }

  /**
   The page Next moves to: one forward, never beyond totalPages. Clicking it
   leaves the page unchanged exactly when the button is disabled.
   */
  function NextPage(currentPage: int, totalPages: int): (p: int)
    ensures p <= totalPages
    ensures currentPage <= totalPages ==> currentPage <= p
    ensures currentPage > totalPages ==> p == totalPages
    ensures p == currentPage <==> NextDisabled(currentPage, totalPages)
  {
    Min(totalPages, currentPage + 1)
  }

  /** From a page in [1, totalPages], Prev and Next both land in [1, totalPages], one step away or not at all. */
  lemma NavigationStaysInRange(currentPage: int, totalPages: int)
    requires 1 <= currentPage <= totalPages
    ensures 1 <= PrevPage(currentPage) <= totalPages
    ensures 1 <= NextPage(currentPage, totalPages) <= totalPages
    ensures currentPage - PrevPage(currentPage) == (if PrevDisabled(currentPage) then 0 else 1)
    ensures NextPage(currentPage, totalPages) - currentPage
            == (if NextDisabled(currentPage, totalPages) then 0 else 1)
  {
  }

  /** Next undoes Prev whenever Prev is enabled, and Prev undoes Next whenever Next is enabled. */
  lemma PrevNextInverse(currentPage: int, totalPages: int)
    requires 1 <= currentPage <= totalPages
    ensures !PrevDisabled(currentPage) ==> NextPage(PrevPage(currentPage), totalPages) == currentPage
    ensures !NextDisabled(currentPage, totalPages) ==> PrevPage(NextPage(currentPage, totalPages)) == currentPage
  {
  }
}
