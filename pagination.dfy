/** The page-number strip of the `Pagination` component: which page buttons
    are shown, and what Previous and Next request. */
module Pagination {
  import opened Wrappers
  import Lists

  /** An entry of the strip: a page number or one of the two ellipsis markers. */
  datatype PageItem = Page(n: int) | EllipsisStart | EllipsisEnd

  function Max(a: int, b: int): int { if a >= b then a else b }
  function Min(a: int, b: int): int { if a <= b then a else b }

  function Identity(x: PageItem): PageItem { x }

  /** The pages lo, lo + 1, ..., hi (empty when hi < lo). */
  function Window(lo: int, hi: int): (w: seq<PageItem>)
    ensures |w| == if hi < lo then 0 else hi - lo + 1
    ensures forall k :: 0 <= k < |w| ==> w[k] == Page(lo + k)
  {
    if hi < lo then [] else seq(hi - lo + 1, k requires 0 <= k < hi - lo + 1 => Page(lo + k))
  }

  lemma WindowSnoc(lo: int, hi: int)
    requires lo - 1 <= hi
    ensures Window(lo, hi + 1) == Window(lo, hi) + [Page(hi + 1)]
  {
  }

  /** What `getPageNumbers` pushes before removing duplicates: page 1, the
      neighbours of the current page that lie strictly between 1 and the last
      page, and the last page when there is more than one. */
  function RawPageNumbers(currentPage: int, totalPages: int): seq<PageItem> {
    [Page(1)]
    + Window(Max(2, currentPage - 1), Min(totalPages - 1, currentPage + 1))
    + (if totalPages > 1 then [Page(totalPages)] else [])
  }

  /** The strip `getPageNumbers` returns: the pushed entries with duplicates
      removed (`[...new Set(pages)]`, which keeps first occurrences). */
  function PageNumbers(currentPage: int, totalPages: int): seq<PageItem> {
    Lists.DedupBy(RawPageNumbers(currentPage, totalPages), Identity)
  }

  predicate OnlyPages(s: seq<PageItem>) {
    forall k :: 0 <= k < |s| ==> s[k].Page?
  }

  predicate StrictlyIncreasing(s: seq<PageItem>)
    requires OnlyPages(s)
  {
    forall i, j :: 0 <= i < j < |s| ==> s[i].n < s[j].n
  }

  /** `getPageNumbers`, as the loop the component runs. */
  method GetPageNumbers(currentPage: int, totalPages: int) returns (pages: seq<PageItem>)
    ensures pages == PageNumbers(currentPage, totalPages)
    ensures |pages| >= 1 && pages[0] == Page(1)
    ensures OnlyPages(pages) && StrictlyIncreasing(pages)
    ensures totalPages > 1 ==> pages[|pages| - 1] == Page(totalPages)
    ensures totalPages <= 1 ==> pages == [Page(1)]
  {
    var lo, hi := Max(2, currentPage - 1), Min(totalPages - 1, currentPage + 1);
    pages := [Page(1)];
    var i := lo;
    while i <= hi
      invariant lo <= i <= Max(lo, hi + 1)
      invariant pages == [Page(1)] + Window(lo, i - 1)
    {
      if i == 2 && currentPage > 3 {
        assert false;  // i >= currentPage - 1 > 2
        pages := pages + [EllipsisStart];
      } else if i == totalPages - 1 && currentPage < totalPages - 2 {
        assert false;  // i <= currentPage + 1 < totalPages - 1
        pages := pages + [EllipsisEnd];
      } else {
        WindowSnoc(lo, i - 1);
        pages := pages + [Page(i)];
      }
      i := i + 1;
    }
    assert pages == [Page(1)] + Window(lo, hi);
    if totalPages > 1 {
      pages := pages + [Page(totalPages)];
    }
    PageNumbersShape(currentPage, totalPages);
    PageNumbersIsRaw(currentPage, totalPages);
    pages := Lists.DedupBy(pages, Identity);
  }

  /** The pushed entries are page numbers only (neither ellipsis branch can
      fire: i == 2 needs currentPage <= 3, i == totalPages - 1 needs
      currentPage >= totalPages - 2), they start at 1, strictly increase, and
      end with the last page when there is more than one. */
  lemma RawPageNumbersShape(currentPage: int, totalPages: int)
    ensures var r := RawPageNumbers(currentPage, totalPages);
      |r| >= 1 && r[0] == Page(1) && OnlyPages(r) && StrictlyIncreasing(r)
      && (totalPages > 1 ==> r[|r| - 1] == Page(totalPages))
      && (totalPages <= 1 ==> r == [Page(1)])
      && (forall k :: 0 <= k < |r| ==> 1 <= r[k].n <= Max(1, totalPages))
      && |r| <= 5
  {
    var lo, hi := Max(2, currentPage - 1), Min(totalPages - 1, currentPage + 1);
    var w := Window(lo, hi);
    var r := RawPageNumbers(currentPage, totalPages);
    if totalPages <= 1 {
      assert w == [];
    }
    assert forall k :: 0 <= k < |w| ==> 2 <= w[k].n <= totalPages - 1;
    assert r[1..1 + |w|] == w;
  }

  /** The shape facts carried over to the strip itself. */
  lemma PageNumbersShape(currentPage: int, totalPages: int)
    ensures var r := PageNumbers(currentPage, totalPages);
      |r| >= 1 && r[0] == Page(1) && OnlyPages(r) && StrictlyIncreasing(r)
      && (totalPages > 1 ==> r[|r| - 1] == Page(totalPages))
      && (totalPages <= 1 ==> r == [Page(1)])
  {
    PageNumbersIsRaw(currentPage, totalPages);
    RawPageNumbersShape(currentPage, totalPages);
  }

  /** Removing duplicates removes nothing. */
  lemma PageNumbersIsRaw(currentPage: int, totalPages: int)
    ensures PageNumbers(currentPage, totalPages) == RawPageNumbers(currentPage, totalPages)
  {
    var r := RawPageNumbers(currentPage, totalPages);
    RawPageNumbersShape(currentPage, totalPages);
    assert Lists.DistinctKeys(r, Identity) by {
      forall i, j | 0 <= i < j < |r| ensures Identity(r[i]) != Identity(r[j]) {
        assert r[i].n < r[j].n;
      }
    }
    Lists.DedupOfDistinct(r, Identity);
  }

  /** From a valid current page, every entry is a page in [1, totalPages], the
      current page is shown, and at most five entries appear. */
  lemma PageNumbersInRange(currentPage: int, totalPages: int)
    requires 1 <= currentPage <= totalPages
    ensures var r := PageNumbers(currentPage, totalPages);
      (forall k :: 0 <= k < |r| ==> r[k].Page? && 1 <= r[k].n <= totalPages)
      && Page(currentPage) in r
      && |r| <= 5
  {
    PageNumbersIsRaw(currentPage, totalPages);
    RawPageNumbersShape(currentPage, totalPages);
    var k := CurrentPageIndex(currentPage, totalPages);
  }

  /** Where the current page sits in the pushed entries. */
  lemma CurrentPageIndex(currentPage: int, totalPages: int) returns (k: nat)
    requires 1 <= currentPage <= totalPages
    ensures var r := RawPageNumbers(currentPage, totalPages);
      k < |r| && r[k] == Page(currentPage)
  {
    var lo, hi := Max(2, currentPage - 1), Min(totalPages - 1, currentPage + 1);
    var w := Window(lo, hi);
    var tail := if totalPages > 1 then [Page(totalPages)] else [];
    var r := [Page(1)] + w + tail;
    assert r == RawPageNumbers(currentPage, totalPages);
    if currentPage == 1 {
      k := 0;
    } else if currentPage == totalPages {
      k := |r| - 1;
      assert r[k] == tail[0];
    } else {
      k := 1 + currentPage - lo;
      assert r[k] == w[currentPage - lo];
    }
  }

  /** A button is highlighted when its page equals the current page. */
  predicate IsActive(item: PageItem, currentPage: int) {
    item == Page(currentPage)
  }

  /** Exactly one entry of the strip is highlighted. */
  lemma ExactlyOneActive(currentPage: int, totalPages: int)
    requires 1 <= currentPage <= totalPages
    ensures var r := PageNumbers(currentPage, totalPages);
      exists k :: 0 <= k < |r| && IsActive(r[k], currentPage)
        && forall j :: 0 <= j < |r| && IsActive(r[j], currentPage) ==> j == k
  {
    PageNumbersIsRaw(currentPage, totalPages);
    RawPageNumbersShape(currentPage, totalPages);
    var r := RawPageNumbers(currentPage, totalPages);
    var k := CurrentPageIndex(currentPage, totalPages);
    UniqueIndex(r, k);
  }

  lemma UniqueIndex(r: seq<PageItem>, k: nat)
    requires OnlyPages(r) && StrictlyIncreasing(r) && k < |r|
    ensures forall j :: 0 <= j < |r| && r[j] == r[k] ==> j == k
  {
  }

  /** The page Previous asks for: currentPage - 1, only when currentPage > 1. */
  function PreviousRequest(currentPage: int): Option<int> {
    if currentPage > 1 then Some(currentPage - 1) else None
  }

  /** The page Next asks for: currentPage + 1, only when currentPage < totalPages. */
  function NextRequest(currentPage: int, totalPages: int): Option<int> {
    if currentPage < totalPages then Some(currentPage + 1) else None
  }

  /** From a valid page, Previous and Next never leave [1, totalPages], and
      each is silent exactly at its own end of the range. */
  lemma NavigationStaysInRange(currentPage: int, totalPages: int)
    requires 1 <= currentPage <= totalPages
    ensures PreviousRequest(currentPage).Some? ==> 1 <= PreviousRequest(currentPage).value <= totalPages
    ensures NextRequest(currentPage, totalPages).Some? ==> 1 <= NextRequest(currentPage, totalPages).value <= totalPages
    ensures PreviousRequest(currentPage).None? <==> currentPage == 1
    ensures NextRequest(currentPage, totalPages).None? <==> currentPage == totalPages
  {
  }
}
