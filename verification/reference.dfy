/**
 An independent description of the pagination bar: decide for every page
 whether it gets a button, then walk the pages in order, emitting the shown
 pages and one '...' for each run of omitted pages. The windowing algorithm
 agrees with this description on every input except one degenerate corner.
 */
module Reference {
  import opened Entries
  import opened Windowing

  /**
   Whether page `p` gets a button: every page when all of them fit in the
   budget, otherwise page 1, the last page and the pages within SideButtons
   of the current page.
   */
  predicate Shown(p: int, currentPage: int, totalPages: int, maxButtons: int)
  {
    && 1 <= p <= totalPages
    && (|| totalPages <= maxButtons
        || p == 1
        || p == totalPages
        || currentPage - SideButtons <= p <= currentPage + SideButtons)
  }

  /** What page `p` contributes: its button, a '...' if it opens an omitted run, or nothing. */
  function Step(p: int, currentPage: int, totalPages: int, maxButtons: int): seq<Entry>
  {
    if Shown(p, currentPage, totalPages, maxButtons) then [Page(p)]
    else if Shown(p - 1, currentPage, totalPages, maxButtons) then [Ellipsis]
    else []
  }

  /** The entries pages lo..hi contribute, in order. */
  function Elide(lo: int, hi: int, currentPage: int, totalPages: int, maxButtons: int): seq<Entry>
    decreases hi - lo
  {
    if lo > hi then []
    else Step(lo, currentPage, totalPages, maxButtons) + Elide(lo + 1, hi, currentPage, totalPages, maxButtons)
  }

  /** The bar as the independent description builds it: nothing for a single page, else pages 1..totalPages elided. */
  function ReferenceRange(currentPage: int, totalPages: int, maxButtons: int): seq<Entry>
  {
    if totalPages <= 1 then [] else Elide(1, totalPages, currentPage, totalPages, maxButtons)
  }

  /** The pages among the entries of lo..hi are exactly the shown pages of lo..hi. */
  lemma {:induction false} ElidePages(lo: int, hi: int, currentPage: int, totalPages: int, maxButtons: int, p: int)
    ensures Page(p) in Elide(lo, hi, currentPage, totalPages, maxButtons)
            <==> lo <= p <= hi && Shown(p, currentPage, totalPages, maxButtons)
    decreases hi - lo
  {
    if lo <= hi {
      ElidePages(lo + 1, hi, currentPage, totalPages, maxButtons, p);
    }
  }

  lemma {:induction false} ElideSplit(lo: int, mid: int, hi: int, currentPage: int, totalPages: int, maxButtons: int)
    requires lo - 1 <= mid <= hi
    ensures Elide(lo, hi, currentPage, totalPages, maxButtons)
            == Elide(lo, mid, currentPage, totalPages, maxButtons)
               + Elide(mid + 1, hi, currentPage, totalPages, maxButtons)
    decreases mid - lo
  {
    if lo <= mid {
      ElideSplit(lo + 1, mid, hi, currentPage, totalPages, maxButtons);
    }
  }

  /** A run of shown pages contributes exactly its buttons. */
  lemma {:induction false} ElideShownRun(lo: int, hi: int, currentPage: int, totalPages: int, maxButtons: int)
    requires forall p :: lo <= p <= hi ==> Shown(p, currentPage, totalPages, maxButtons)
    ensures Elide(lo, hi, currentPage, totalPages, maxButtons) == Range(lo, hi)
    decreases hi - lo
  {
    if lo <= hi {
      ElideShownRun(lo + 1, hi, currentPage, totalPages, maxButtons);
    }
  }

  /** Pages inside an omitted run, after its first page, contribute nothing. */
  lemma {:induction false} ElideInsideOmittedRun(lo: int, hi: int, currentPage: int, totalPages: int, maxButtons: int)
    requires forall p :: lo - 1 <= p <= hi ==> !Shown(p, currentPage, totalPages, maxButtons)
    ensures Elide(lo, hi, currentPage, totalPages, maxButtons) == []
    decreases hi - lo
  {
    if lo <= hi {
      ElideInsideOmittedRun(lo + 1, hi, currentPage, totalPages, maxButtons);
    }
  }

  /** A non-empty omitted run that follows a shown page contributes a single '...'. */
  lemma ElideOmittedRun(lo: int, hi: int, currentPage: int, totalPages: int, maxButtons: int)
    requires lo <= hi
    requires Shown(lo - 1, currentPage, totalPages, maxButtons)
    requires forall p :: lo <= p <= hi ==> !Shown(p, currentPage, totalPages, maxButtons)
    ensures Elide(lo, hi, currentPage, totalPages, maxButtons) == [Ellipsis]
  {
    ElideInsideOmittedRun(lo + 1, hi, currentPage, totalPages, maxButtons);
  }

  /** With a non-empty window, the middle pages 2..totalPages-1 as the description builds them. */
  lemma ElideMiddleAroundWindow(currentPage: int, totalPages: int, maxButtons: int)
    requires Windowed(totalPages, maxButtons)
    requires WindowStart(currentPage) <= WindowEnd(currentPage, totalPages)
    ensures var start, end := WindowStart(currentPage), WindowEnd(currentPage, totalPages);
            Elide(2, totalPages - 1, currentPage, totalPages, maxButtons)
            == (if start > 2 then [Ellipsis] else [])
               + Range(start, end)
               + (if end < totalPages - 1 then [Ellipsis] else [])
  {
    var start, end := WindowStart(currentPage), WindowEnd(currentPage, totalPages);
    var T := totalPages;
    var before := Elide(2, start - 1, currentPage, T, maxButtons);
    var window := Elide(start, end, currentPage, T, maxButtons);
    var after := Elide(end + 1, T - 1, currentPage, T, maxButtons);
    ElideSplit(2, start - 1, T - 1, currentPage, T, maxButtons);
    ElideSplit(start, end, T - 1, currentPage, T, maxButtons);
    if start > 2 {
      ElideOmittedRun(2, start - 1, currentPage, T, maxButtons);
    }
    assert before == (if start > 2 then [Ellipsis] else []);
    ElideShownRun(start, end, currentPage, T, maxButtons);
    if end < T - 1 {
      ElideOmittedRun(end + 1, T - 1, currentPage, T, maxButtons);
    }
    assert after == (if end < T - 1 then [Ellipsis] else []);
    assert Elide(2, T - 1, currentPage, T, maxButtons) == before + window + after;
  }

  /** With an empty window, the middle pages 2..totalPages-1 collapse to one '...' or to nothing. */
  lemma ElideMiddleNoWindow(currentPage: int, totalPages: int, maxButtons: int)
    requires Windowed(totalPages, maxButtons)
    requires WindowStart(currentPage) > WindowEnd(currentPage, totalPages)
    requires totalPages == 2 ==> 0 <= currentPage <= 3
    ensures var start, end := WindowStart(currentPage), WindowEnd(currentPage, totalPages);
            Elide(2, totalPages - 1, currentPage, totalPages, maxButtons)
            == (if start > 2 then [Ellipsis] else [])
               + (if end < totalPages - 1 then [Ellipsis] else [])
  {
    if totalPages >= 3 {
      ElideOmittedRun(2, totalPages - 1, currentPage, totalPages, maxButtons);
    }
  }

  /** The middle pages 2..totalPages-1 give the optional '...', the window and the optional '...'. */
  lemma ElideMiddle(currentPage: int, totalPages: int, maxButtons: int)
    requires Windowed(totalPages, maxButtons)
    requires totalPages == 2 ==> 0 <= currentPage <= 3
    ensures var start, end := WindowStart(currentPage), WindowEnd(currentPage, totalPages);
            Elide(2, totalPages - 1, currentPage, totalPages, maxButtons)
            == (if start > 2 then [Ellipsis] else [])
               + Range(start, end)
               + (if end < totalPages - 1 then [Ellipsis] else [])
  {
    if WindowStart(currentPage) <= WindowEnd(currentPage, totalPages) {
      ElideMiddleAroundWindow(currentPage, totalPages, maxButtons);
    } else {
      ElideMiddleNoWindow(currentPage, totalPages, maxButtons);
    }
  }

  /** Pages 1 and totalPages are shown, so the description starts and ends with their buttons. */
  lemma ReferenceEnds(currentPage: int, totalPages: int, maxButtons: int)
    requires totalPages >= 2
    ensures ReferenceRange(currentPage, totalPages, maxButtons)
            == [Page(1)] + Elide(2, totalPages - 1, currentPage, totalPages, maxButtons) + [Page(totalPages)]
  {
    var T := totalPages;
    ElideSplit(1, 1, T, currentPage, T, maxButtons);
    ElideSplit(2, T - 1, T, currentPage, T, maxButtons);
    assert Elide(1, 1, currentPage, T, maxButtons) == [Page(1)];
    assert Elide(T, T, currentPage, T, maxButtons) == [Page(T)];
  }

  /**
   The windowing algorithm builds exactly the bar the independent description
   builds, for every input except a two-page bar in the windowed layout with the
   current page far outside it (see DivergesForTwoPages).
   */
  lemma MatchesReference(currentPage: int, totalPages: int, maxButtons: int)
    requires totalPages == 2 && maxButtons < 2 ==> 0 <= currentPage <= 3
    ensures PaginationRange(currentPage, totalPages, maxButtons)
            == ReferenceRange(currentPage, totalPages, maxButtons)
  {
    var T := totalPages;
    if 1 < T <= maxButtons {
      ElideShownRun(1, T, currentPage, T, maxButtons);
    } else if Windowed(T, maxButtons) {
      var start, end := WindowStart(currentPage), WindowEnd(currentPage, T);
      var lead := if start > 2 then [Ellipsis] else [];
      var trail := if end < T - 1 then [Ellipsis] else [];
      var mid := Elide(2, T - 1, currentPage, T, maxButtons);
      ElideMiddle(currentPage, T, maxButtons);
      assert mid == lead + Range(start, end) + trail;
      var b := BeforeLastPage(currentPage, T);
      assert b == [Page(1)] + lead + Range(start, end) + trail;
      assert b == [Page(1)] + mid;
      LastPageGuardAlwaysFires(currentPage, T);
      assert PaginationRange(currentPage, T, maxButtons) == b + [Page(T)];
      ReferenceEnds(currentPage, T, maxButtons);
    }
  }

  /**
   The pages that get a button are exactly the shown ones: page 1, the last
   page and the window around the current page (or every page when they fit).
   */
  lemma ShownPagesExactly(currentPage: int, totalPages: int, maxButtons: int, p: int)
    requires totalPages > 1
    ensures Page(p) in PaginationRange(currentPage, totalPages, maxButtons)
            <==> Shown(p, currentPage, totalPages, maxButtons)
  {
    if totalPages == 2 && maxButtons < 2 && !(0 <= currentPage <= 3) {
      // the two-page corner: the bar is [1, ..., 2] and both pages are shown
      LastPageGuardAlwaysFires(currentPage, totalPages);
      assert PaginationRange(currentPage, totalPages, maxButtons) == [Page(1), Ellipsis, Page(2)];
    } else {
      MatchesReference(currentPage, totalPages, maxButtons);
      ElidePages(1, totalPages, currentPage, totalPages, maxButtons, p);
    }
  }

  /** The one corner where the two disagree: the algorithm draws a '...' with nothing omitted. */
  lemma DivergesForTwoPages()
    ensures PaginationRange(4, 2, 1) != ReferenceRange(4, 2, 1)
    ensures ReferenceRange(4, 2, 1) == [Page(1), Page(2)]
  {
    SpuriousEllipsisForTwoPages();
    assert Elide(3, 2, 4, 2, 1) == [];
  }
}
