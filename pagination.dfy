/** The browser script's paging of the leaderboard table (static/js/scripts.js):
    50 rows per page, the number of pages, the rows of one page, and the page that
    the previous/next buttons move to. */
module Pagination {

  /** `playersPerPage`. */
  const PlayersPerPage := 50

  /** `Math.ceil(length / playersPerPage)`: the fewest pages of 50 that hold `n` rows. */
  function TotalPages(n: nat): (t: nat)
    ensures n <= t * PlayersPerPage
    ensures t > 0 ==> (t - 1) * PlayersPerPage < n
  {
    (n + PlayersPerPage - 1) / PlayersPerPage
  }

  /** JavaScript's `s.slice(start, end)` for non-negative bounds: both are clamped to
      the length, and a range that ends before it starts is empty. */
  function Slice<T>(s: seq<T>, start: nat, end: nat): (r: seq<T>)
    ensures start <= end <= |s| ==> r == s[start..end]
    ensures end <= start || |s| <= start ==> r == []
    ensures start <= |s| < end ==> r == s[start..]
    ensures |r| <= |s|
  {
    var lo := if start <= |s| then start else |s|;
    var hi := if end <= |s| then end else |s|;
    if lo <= hi then s[lo..hi] else []
  }

  /** The rows `displayLeaderboard` shows on page `page` (counted from 1):
      `startIndex = (page - 1) * 50`, `endIndex = min(startIndex + 50, length)`. */
  function Page<T>(s: seq<T>, page: nat): (r: seq<T>)
    requires page >= 1
  {
    var start := (page - 1) * PlayersPerPage;
    var end := if start + PlayersPerPage <= |s| then start + PlayersPerPage else |s|;
    Slice(s, start, end)
  }

  /** A page holds at most 50 rows, namely the rows from `(page - 1) * 50` on; every
      page up to the last is non-empty, and any later page is empty. */
  lemma PageBounds<T>(s: seq<T>, page: nat)
    requires page >= 1
    ensures |Page(s, page)| <= PlayersPerPage
    ensures var start := (page - 1) * PlayersPerPage;
      start < |s| ==> Page(s, page) == s[start..start + |Page(s, page)|]
    ensures Page(s, page) != [] <==> page <= TotalPages(|s|)
  {
  }

  /** The first `k` pages, one after another. */
  function FirstPages<T>(s: seq<T>, k: nat): seq<T>
  {
    if k == 0 then [] else FirstPages(s, k - 1) + Page(s, k)
  }

  /** Reading the pages in turn gives back the first `k * 50` rows. */
  lemma {:induction false} FirstPagesArePrefix<T>(s: seq<T>, k: nat)
    ensures FirstPages(s, k) == s[..if k * PlayersPerPage <= |s| then k * PlayersPerPage else |s|]
  {
    if k > 0 {
      FirstPagesArePrefix(s, k - 1);
      var start := (k - 1) * PlayersPerPage;
      if start <= |s| {
        var end := if start + PlayersPerPage <= |s| then start + PlayersPerPage else |s|;
        assert s[..start] + s[start..end] == s[..end];
      }
    }
  }

  /** The pages from 1 to `TotalPages(n)` hold exactly the list, in order. */
  lemma PagesCoverList<T>(s: seq<T>)
    ensures FirstPages(s, TotalPages(|s|)) == s
  {
    FirstPagesArePrefix(s, TotalPages(|s|));
  }

  /** `changePage(direction)`: no move back from page 1 nor forward from the last page;
      otherwise the page moves by `direction`. */
  function NextPage(current: int, total: int, direction: int): (next: int)
    ensures (current == 1 && direction == -1) || (current == total && direction == 1) ==> next == current
  {
    if (current == 1 && direction == -1) || (current == total && direction == 1) then current
    else current + direction
  }

  /** With at least one page, the buttons keep the current page within `1..totalPages`,
      and they do move whenever the neighbouring page exists. */
  lemma NextPageStaysInRange(current: int, total: int, direction: int)
    requires 1 <= current <= total
    requires direction == -1 || direction == 1
    ensures 1 <= NextPage(current, total, direction) <= total
    ensures 1 <= current + direction <= total ==> NextPage(current, total, direction) == current + direction
  {
  }

  /** With no rows there are no pages, and the next button is not held back on page 1:
      the current page leaves the range. */
  lemma EmptyListHasNoPages()
    ensures TotalPages(0) == 0
    ensures NextPage(1, TotalPages(0), 1) == 2
  {
  }
}
