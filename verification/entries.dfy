/**
 The values a pagination bar is built from: numbered page buttons and the
 '...' separator, the run of consecutive pages the window loop pushes, and the
 structural properties a well-formed bar has.
 */
module Entries {

  /** One slot of the pagination bar: a page button, or the '...' marker. */
  datatype Entry = Page(n: int) | Ellipsis

  /** The pages lo, lo + 1, ..., hi in order; empty when lo > hi. */
  function Range(lo: int, hi: int): (r: seq<Entry>)
    ensures |r| == if lo <= hi then hi - lo + 1 else 0
    ensures forall i :: 0 <= i < |r| ==> r[i] == Page(lo + i)
    decreases hi - lo
  {
    if lo > hi then [] else [Page(lo)] + Range(lo + 1, hi)
  }

  /** Extending a run by one page on the right. */
  lemma RangeSnoc(lo: int, hi: int)
    requires lo <= hi + 1
    ensures Range(lo, hi + 1) == Range(lo, hi) + [Page(hi + 1)]
  {
    var a, b := Range(lo, hi + 1), Range(lo, hi) + [Page(hi + 1)];
    assert |a| == |b|;
    forall i | 0 <= i < |a|
      ensures a[i] == b[i]
    {
      if i < |a| - 1 {
        assert b[i] == Range(lo, hi)[i];
      }
    }
  }

  /** Page numbers, read left to right and skipping ellipses, strictly increase. */
  predicate PagesIncreasing(r: seq<Entry>)
  {
    forall i, j :: 0 <= i < j < |r| && r[i].Page? && r[j].Page? ==> r[i].n < r[j].n
  }

  /** Every page number lies in [lo, hi]. */
  predicate PagesWithin(r: seq<Entry>, lo: int, hi: int)
  {
    forall i :: 0 <= i < |r| && r[i].Page? ==> lo <= r[i].n <= hi
  }

  /** No two ellipses stand next to each other. */
  predicate NoAdjacentEllipses(r: seq<Entry>)
  {
    forall i :: 0 <= i < |r| - 1 && r[i].Ellipsis? ==> r[i + 1].Page?
  }

  /**
   An ellipsis stands exactly where pages are omitted: every ellipsis sits
   between two page buttons whose numbers are not consecutive, and two page
   buttons that are neighbours in the bar carry consecutive numbers.
   */
  predicate EllipsesMarkGaps(r: seq<Entry>)
  {
    && (forall i :: 0 <= i < |r| && r[i].Ellipsis? ==>
          0 < i < |r| - 1 && r[i - 1].Page? && r[i + 1].Page? && r[i - 1].n + 1 < r[i + 1].n)
    && (forall i :: 0 <= i < |r| - 1 && r[i].Page? && r[i + 1].Page? ==> r[i + 1].n == r[i].n + 1)
  }

  /** `e` occurs at exactly one position of `r`. */
  predicate AppearsOnce(r: seq<Entry>, e: Entry)
  {
    exists i :: 0 <= i < |r| && r[i] == e && forall j :: 0 <= j < |r| && j != i ==> r[j] != e
  }

  /** In a bar with increasing page numbers a page that occurs at all occurs once. */
  lemma IncreasingPagesAppearOnce(r: seq<Entry>, k: int, i: int)
    requires PagesIncreasing(r)
    requires 0 <= i < |r| && r[i] == Page(k)
    ensures AppearsOnce(r, Page(k))
  {
    forall j | 0 <= j < |r| && j != i
      ensures r[j] != Page(k)
    {
      if j < i {
        assert r[j].Page? ==> r[j].n < r[i].n;
      } else {
        assert r[j].Page? ==> r[i].n < r[j].n;
      }
    }
    assert r[i] == Page(k) && forall j :: 0 <= j < |r| && j != i ==> r[j] != Page(k);
  }
}
