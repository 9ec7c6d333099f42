/**
 * How both report generators cut the ordered dimension list into pages:
 * `ROWS_PER_PAGE` rows a page, `Math.ceil(n / ROWS_PER_PAGE) || 1` pages,
 * and page `p` is `dimensions.slice(p * ROWS_PER_PAGE, (p + 1) * ROWS_PER_PAGE)`.
 */
module Pagination {
  import opened Js

  const RowsPerPage: nat := 23

  /** `Math.ceil(n / d)` for a non-negative integer `n`. */
  function CeilDiv(n: nat, d: nat): nat
    requires d > 0
  {
    (n + d - 1) / d
  }

  /**
   * `Math.ceil(n / ROWS_PER_PAGE) || 1`: the fewest pages of RowsPerPage rows
   * that hold `n` rows, and one page when there are none.
   */
  function PageCount(n: nat): (k: nat)
    ensures k >= 1
    ensures n == 0 ==> k == 1
    ensures n > 0 ==> (k - 1) * RowsPerPage < n <= k * RowsPerPage
  {
    var pages := CeilDiv(n, RowsPerPage);
    if pages == 0 then 1 else pages
  }

  /** The rows of page `p`, a JavaScript slice (so a page past the end is empty). */
  function Page<T>(items: seq<T>, p: nat): seq<T> {
    Slice(items, p * RowsPerPage, (p + 1) * RowsPerPage)
  }

  /** Every page the generators emit, in order. */
  function Pages<T>(items: seq<T>): (pages: seq<seq<T>>)
    ensures |pages| == PageCount(|items|)
  {
    seq(PageCount(|items|), p requires 0 <= p => Page(items, p))
  }

  /** The pages read one after another. */
  function Flatten<T>(pages: seq<seq<T>>): seq<T> {
    if |pages| == 0 then [] else Flatten(pages[..|pages| - 1]) + pages[|pages| - 1]
  }

  /** Page `p` holds exactly the items from index `p * RowsPerPage` up to the next page or the end. */
  lemma PageContents<T>(items: seq<T>, p: nat)
    requires p < PageCount(|items|)
    ensures p * RowsPerPage <= |items|
    ensures Page(items, p) == items[p * RowsPerPage .. Min((p + 1) * RowsPerPage, |items|)]
  {
    var n := |items|;
    var k := PageCount(n);
    if n > 0 {
      assert p * RowsPerPage <= (k - 1) * RowsPerPage;
    }
  }

  /**
   * No page holds more than RowsPerPage rows, every page but the last is
   * full, and the last page is not empty unless there are no rows at all.
   */
  lemma PageSizes<T>(items: seq<T>, p: nat)
    requires p < PageCount(|items|)
    ensures |Page(items, p)| <= RowsPerPage
    ensures p + 1 < PageCount(|items|) ==> |Page(items, p)| == RowsPerPage
    ensures p + 1 == PageCount(|items|) && |items| > 0 ==> |Page(items, p)| >= 1
  {
    PageContents(items, p);
    var n, k := |items|, PageCount(|items|);
    if p + 1 < k {
      assert (p + 1) * RowsPerPage <= (k - 1) * RowsPerPage;
    }
  }

  /** Row `i` sits on page `i / RowsPerPage` at position `i % RowsPerPage`. */
  lemma PageOfIndex<T>(items: seq<T>, i: nat)
    requires i < |items|
    ensures i / RowsPerPage < PageCount(|items|)
    ensures i % RowsPerPage < |Page(items, i / RowsPerPage)|
    ensures Page(items, i / RowsPerPage)[i % RowsPerPage] == items[i]
  {
    var p, j := i / RowsPerPage, i % RowsPerPage;
    var k := PageCount(|items|);
    assert i == p * RowsPerPage + j;
    assert i < k * RowsPerPage;
    PageContents(items, p);
  }

  /** Position `j` of page `p` is row `p * RowsPerPage + j`, so no row is on two pages. */
  lemma IndexOfPageEntry<T>(items: seq<T>, p: nat, j: nat)
    requires p < PageCount(|items|)
    requires j < |Page(items, p)|
    ensures p * RowsPerPage + j < |items|
    ensures Page(items, p)[j] == items[p * RowsPerPage + j]
    ensures (p * RowsPerPage + j) / RowsPerPage == p && (p * RowsPerPage + j) % RowsPerPage == j
  {
    PageContents(items, p);
    PageSizes(items, p);
  }

  lemma {:induction false} PagesPrefix<T>(items: seq<T>, k: nat)
    requires k <= PageCount(|items|)
    ensures Flatten(Pages(items)[..k]) == items[..Min(k * RowsPerPage, |items|)]
  {
    var pages := Pages(items);
    if k > 0 {
      PagesPrefix(items, k - 1);
      assert pages[..k][..k - 1] == pages[..k - 1];
      PageContents(items, k - 1);
      var lo := (k - 1) * RowsPerPage;
      var hi := Min(k * RowsPerPage, |items|);
      assert Min(lo, |items|) == lo;
      assert items[..lo] + items[lo..hi] == items[..hi];
    }
  }

  /** Reading the pages in order gives back the dimension list exactly. */
  lemma PagesReassemble<T>(items: seq<T>)
    ensures Flatten(Pages(items)) == items
  {
    var k := PageCount(|items|);
    PagesPrefix(items, k);
    assert Pages(items)[..k] == Pages(items);
    assert Min(k * RowsPerPage, |items|) == |items|;
  }

  /** Fifty rows make three pages of 23, 23 and 4 rows. */
  lemma FiftyRows<T>(items: seq<T>)
    requires |items| == 50
    ensures PageCount(|items|) == 3
    ensures |Page(items, 0)| == 23 && |Page(items, 1)| == 23 && |Page(items, 2)| == 4
  {
    PageContents(items, 2);
  }
}
