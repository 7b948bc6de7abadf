/** The browser script's leaderboard page state (static/js/scripts.js): the module-level
    `currentPage`, `totalPages`, `leaderboardData` and `filteredData`, and the functions
    that update them, `fetchLeaderboard`, `changePage` and `searchPlayer`, together with
    the rows that `displayLeaderboard` puts in the table. */
module LeaderboardPage {

  import opened Wrappers
  import opened LeaderboardData
  import opened RiftRank
  import opened Pagination
  import opened PlayerSearch

  /** What `displayLeaderboard` shows: "No data available." or the rows of one page. */
  datatype PageView = NoData | PageRows(rows: seq<Row>)

  class LeaderboardView {
    var currentPage: int
    var totalPages: nat
    var leaderboardData: seq<Row>
    var filteredData: seq<Row>

    /** The page is at least 1 and, when there are pages, at most the last one; both
        lists are in rank order, and the filtered rows are rows of the leaderboard. */
    predicate Valid()
      reads this
    {
      && currentPage >= 1
      && (totalPages >= 1 ==> currentPage <= totalPages)
      && Sorted(leaderboardData)
      && Sorted(filteredData)
      && (forall row :: row in filteredData ==> row in leaderboardData)
    }

    /** The initial values of the four variables. */
    constructor ()
      ensures Valid()
      ensures currentPage == 1 && totalPages == 1 && leaderboardData == [] && filteredData == []
    {
      currentPage := 1;
      totalPages := 1;
      leaderboardData := [];
      filteredData := [];
    }

    /** The end of `fetchLeaderboard`: the fetched rows are sorted in place and become
        the leaderboard, nothing is filtered out, and the view returns to page 1. */
    method Load(data: array<Row>)
      modifies this, data
      ensures Sorted(leaderboardData)
      ensures multiset(leaderboardData) == multiset(old(data[..]))
      ensures leaderboardData == data[..]
      ensures filteredData == leaderboardData
      ensures totalPages == TotalPages(data.Length)
      ensures currentPage == 1
      ensures Valid()
    {
      SortRows(data);
      leaderboardData := data[..];
      filteredData := leaderboardData;
      totalPages := TotalPages(|filteredData|);
      currentPage := 1;
    }

    /** `fetchLeaderboard` for "all classes": the leaderboards of the classes, each row
        tagged with its class, merged and then loaded. */
    method LoadAllClasses(boards: seq<(string, seq<Row>)>)
      modifies this
      ensures multiset(leaderboardData) == multiset(MergeClasses(boards))
      ensures Sorted(leaderboardData) && filteredData == leaderboardData
      ensures totalPages == TotalPages(|MergeClasses(boards)|) && currentPage == 1
      ensures Valid()
    {
      var merged := MergeClasses(boards);
      var data := new Row[|merged|](i requires 0 <= i < |merged| => merged[i]);
      assert data[..] == merged;
      Load(data);
    }

    /** `changePage(direction)`, for the two buttons. */
    method ChangePage(direction: int)
      requires Valid()
      requires direction == -1 || direction == 1
      modifies this
      ensures currentPage == NextPage(old(currentPage), totalPages, direction)
      ensures totalPages == old(totalPages)
      ensures leaderboardData == old(leaderboardData) && filteredData == old(filteredData)
      ensures Valid()
    {
      if totalPages >= 1 {
        NextPageStaysInRange(currentPage, totalPages, direction);
      }
      if (currentPage == 1 && direction == -1) || (currentPage == totalPages && direction == 1) {
        return;
      }
      currentPage := currentPage + direction;
    }

    /** `searchPlayer(query)`. An empty query restores every row; otherwise the rows
        whose lower-cased BattleTag contains the lower-cased query are kept, in order.
        Either way the view returns to page 1 of the new list. When the filter throws
        (a BattleTag cell without a string), nothing changes. */
    method SearchPlayer(query: string) returns (thrown: bool)
      requires Valid()
      modifies this
      ensures thrown <==> query != "" && MatchingRows(leaderboardData, LowerString(query)).None?
      ensures leaderboardData == old(leaderboardData)
      ensures thrown ==> (filteredData == old(filteredData) && currentPage == old(currentPage)
        && totalPages == old(totalPages))
      ensures !thrown ==> filteredData == (if query == "" then leaderboardData else MatchingRows(leaderboardData, LowerString(query)).value)
      ensures !thrown ==> currentPage == 1 && totalPages == TotalPages(|filteredData|)
      ensures Valid()
    {
      var searchQuery := LowerString(query);
      if searchQuery == "" {
        filteredData := leaderboardData;
      } else {
        var kept := MatchingRows(leaderboardData, searchQuery);
        if kept.None? {
          return true;
        }
        MatchingRowsKeepsOrder(leaderboardData, searchQuery);
        forall row | row in kept.value ensures row in leaderboardData {
          MatchingRowsMembership(leaderboardData, searchQuery, row);
        }
        filteredData := kept.value;
      }
      totalPages := TotalPages(|filteredData|);
      currentPage := 1;
      thrown := false;
    }

    /** The rows that `displayLeaderboard` puts in the table: "No data available." for
        an empty list, otherwise the current page of the list sorted once more. The
        sort finds the list already in order and changes nothing. */
    method DisplayLeaderboard() returns (view: PageView)
      requires Valid()
      ensures view == if filteredData == [] then NoData else PageRows(Page(filteredData, currentPage))
      ensures view.PageRows? ==> |view.rows| <= PlayersPerPage
    {
      if filteredData == [] {
        return NoData;
      }
      var rows := filteredData;
      var sortedData := new Row[|rows|](i requires 0 <= i < |rows| => rows[i]);
      assert sortedData[..] == rows;
      SortRows(sortedData);
      PageBounds(sortedData[..], currentPage);
      view := PageRows(Page(sortedData[..], currentPage));
    }
  }
}
