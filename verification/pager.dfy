/**
 * The product table's pagination: 1-based pages of a fixed 50 rows, the
 * page count, the `slice` that picks a page, the "Showing a-b of n" label and
 * the Previous/Next buttons.
 */
module Pager {

  /** Rows per page (`productsPerPage`). */
  const PerPage: nat := 50

  function Min(a: int, b: int): int {
    if a <= b then a else b
  }

  /** Position normalisation of `Array.prototype.slice`: negative counts back from the end, then clamp to `[0, n]`. */
  function SliceIndex(i: int, n: nat): (k: nat)
    ensures k <= n
    ensures 0 <= i <= n ==> k == i
    ensures i > n ==> k == n
  {
    if i < 0 then (if n + i < 0 then 0 else n + i)
    else if i > n then n
    else i
  }

  /** `xs.slice(start, end)`. */
  function Slice<T>(xs: seq<T>, start: int, end: int): (r: seq<T>)
    ensures |r| <= |xs|
    ensures start >= |xs| ==> r == []
    ensures 0 <= start <= end && start <= |xs| ==> r == xs[start..Min(end, |xs|)]
  {
    var a := SliceIndex(start, |xs|);
    var b := SliceIndex(end, |xs|);
    if a < b then xs[a..b] else []
  }

  /** `Math.ceil(n / productsPerPage)`: the fewest pages of 50 that hold `n` rows (0 pages for 0 rows). */
  function TotalPages(n: nat): (pages: nat)
    ensures pages * PerPage >= n
    ensures pages > 0 ==> (pages - 1) * PerPage < n
    ensures pages == 0 <==> n == 0
  {
    (n + PerPage - 1) / PerPage
  }

  /** `(currentPage - 1) * productsPerPage`: how many rows come before page `page`. */
  function StartIndex(page: int): int {
    (page - 1) * PerPage
  }

  /**
   * `displayedProducts`: the rows of page `page`. Within `1..TotalPages` it is
   * the non-empty block of at most 50 rows starting at `(page-1)*50`; past
   * the last page it is empty and nothing fails.
   */
  function PageOf<T>(xs: seq<T>, page: int): (r: seq<T>)
    ensures 1 <= page <= TotalPages(|xs|) ==>
              && 0 < |r| <= PerPage
              && r == xs[StartIndex(page)..Min(page * PerPage, |xs|)]
    ensures page > TotalPages(|xs|) ==> r == []
  {
    Slice(xs, StartIndex(page), StartIndex(page) + PerPage)
  }

  /** Pages `1..k` laid end to end. */
  function Pages<T>(xs: seq<T>, k: nat): seq<T>
  {
    if k == 0 then [] else Pages(xs, k - 1) + PageOf(xs, k)
  }

  /** The first `k` pages are the first `k * 50` rows. */
  lemma {:induction false} PagesArePrefix<T>(xs: seq<T>, k: nat)
    requires k <= TotalPages(|xs|)
    ensures Pages(xs, k) == xs[..Min(k * PerPage, |xs|)]
  {
    if k > 0 {
      PagesArePrefix(xs, k - 1);
      assert StartIndex(k) == (k - 1) * PerPage;
      assert (k - 1) * PerPage < |xs|;
      assert xs[..StartIndex(k)] + xs[StartIndex(k)..Min(k * PerPage, |xs|)] == xs[..Min(k * PerPage, |xs|)];
    }
  }

  /** Reading every page from the first to the last gives back exactly the filtered list. */
  lemma PagesReassemble<T>(xs: seq<T>)
    ensures Pages(xs, TotalPages(|xs|)) == xs
  {
    PagesArePrefix(xs, TotalPages(|xs|));
  }

  /** Distinct pages share no row position: page `p` ends where page `p + 1` starts. */
  lemma PagesAdjacent<T>(xs: seq<T>, p: nat)
    requires 1 <= p < TotalPages(|xs|)
    ensures |PageOf(xs, p)| == PerPage
    ensures StartIndex(p) + |PageOf(xs, p)| == StartIndex(p + 1)
  {
  }

  /** The "Showing first-last of n" label: 1-based positions of the page's first and last row. */
  datatype Showing = Showing(first: int, last: int, total: nat)

  function ShowingLabel(page: int, n: nat): (s: Showing)
  {
    Showing(StartIndex(page) + 1, Min(StartIndex(page) + PerPage, n), n)
  }

  /**
   * On a real page the label counts exactly the rows shown, from the page's
   * first row on; with nothing to show on page 1 it reads "1-0 of 0".
   */
  lemma ShowingMatchesPage<T>(xs: seq<T>, page: int)
    ensures 1 <= page <= TotalPages(|xs|) ==>
              var s := ShowingLabel(page, |xs|);
              && s.last - s.first + 1 == |PageOf(xs, page)|
              && 1 <= s.first <= s.last <= |xs|
              && xs[s.first - 1] == PageOf(xs, page)[0]
    ensures |xs| == 0 && page == 1 ==> ShowingLabel(page, |xs|) == Showing(1, 0, 0)
  {
  }

  /** The two pagination buttons. */
  datatype Button = Previous | Next

  /** The pagination bar is rendered only when there is more than one page. */
  predicate ControlsShown(totalPages: nat) {
    totalPages > 1
  }

  /** `disabled={currentPage === 1}` / `disabled={currentPage === totalPages}`. */
  predicate Enabled(page: int, totalPages: nat, b: Button) {
    ControlsShown(totalPages) &&
    match b
    case Previous => page != 1
    case Next => page != totalPages
  }

  /**
   * The page after pressing `b`: one step back or forward when the button is
   * on screen and enabled, otherwise unchanged. From a page in
   * `1..totalPages` the buttons never leave that range.
   */
  function Press(page: int, totalPages: nat, b: Button): (r: int)
    ensures r != page ==> Enabled(page, totalPages, b)
    ensures Enabled(page, totalPages, b) ==> r == (if b == Previous then page - 1 else page + 1)
    ensures 1 <= page <= totalPages ==> 1 <= r <= totalPages
  {
    if !Enabled(page, totalPages, b) then page
    else if b == Previous then page - 1
    else page + 1
  }

  /**
   * Next is disabled by equality with the last page, not by `>=`: on a page
   * already past the end (the list shrank under it) Next stays enabled and
   * moves further away.
   */
  lemma NextPastEndMovesAway(page: int, totalPages: nat)
    requires ControlsShown(totalPages)
    requires page > totalPages
    ensures Press(page, totalPages, Next) == page + 1
  {
  }
}
