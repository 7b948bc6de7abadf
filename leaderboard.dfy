/** The leaderboard document of the game-data API, as far as the backend aggregation
    and the browser script read it. Every field that the code reads with `.get(...)`,
    `?.` or `||` is optional here. */
module LeaderboardData {

  import opened Wrappers

  /** One entry of a `data` list: `{"id": ..., "number": ..., "timestamp": ..., "string": ...}`. */
  datatype Cell = Cell(id: string, number: Option<int>, timestamp: Option<int>, text: Option<string>)

  /** One entry of a row's `player` list; only its `data` list is read. */
  datatype Player = Player(data: Option<seq<Cell>>)

  /** One ranked row: its `player` list, its own `data` list, and the `classSlug` the
      browser attaches when it merges the leaderboards of all classes. */
  datatype Row = Row(player: Option<seq<Player>>, data: seq<Cell>, classSlug: Option<string>)

  /** A leaderboard document; `row` may be missing. */
  datatype Leaderboard = Leaderboard(row: Option<seq<Row>>)
}
