/** The browser script's ranking of leaderboard rows (static/js/scripts.js): the rift
    level and rift time read from a row's `data` list, the comparator handed to
    `Array.prototype.sort`, and the in-place sort itself. */
module RiftRank {

  import opened Wrappers
  import opened LeaderboardData

  /** `row.data.find(d => d.id === id)`: the index of the first cell with that id. */
  function FindCell(cells: seq<Cell>, id: string): (r: Option<nat>)
    ensures r.Some? ==> r.value < |cells| && cells[r.value].id == id
    ensures r.Some? ==> forall j :: 0 <= j < r.value ==> cells[j].id != id
    ensures r.None? ==> forall j :: 0 <= j < |cells| ==> cells[j].id != id
  {
    if cells == [] then None
    else if cells[0].id == id then Some(0)
    else match FindCell(cells[1..], id)
      case None => None
      case Some(k) => Some(k + 1)
  }

  /** `getRiftLevel`: the `number` of the first `RiftLevel` cell, or 0 when there is no
      such cell or it has no number (`undefined || 0`). */
  function RiftLevel(row: Row): int {
    match FindCell(row.data, "RiftLevel")
    case None => 0
    case Some(k) => if row.data[k].number.Some? then row.data[k].number.value else 0
  }

  /** `getRiftTime`: the `timestamp` of the first `RiftTime` cell, or 0. */
  function RiftTime(row: Row): int {
    match FindCell(row.data, "RiftTime")
    case None => 0
    case Some(k) => if row.data[k].timestamp.Some? then row.data[k].timestamp.value else 0
  }

  /** A non-zero rift level is the number of the row's first `RiftLevel` cell; a row
      without such a cell has level 0. Likewise for the rift time. */
  lemma RiftLevelAndTimeMeaning(row: Row)
    ensures RiftLevel(row) != 0 ==> exists k :: (0 <= k < |row.data| && row.data[k].id == "RiftLevel"
      && row.data[k].number == Some(RiftLevel(row)) && forall j :: 0 <= j < k ==> row.data[j].id != "RiftLevel")
    ensures (forall k :: 0 <= k < |row.data| ==> row.data[k].id != "RiftLevel") ==> RiftLevel(row) == 0
    ensures RiftTime(row) != 0 ==> exists k :: (0 <= k < |row.data| && row.data[k].id == "RiftTime"
      && row.data[k].timestamp == Some(RiftTime(row)) && forall j :: 0 <= j < k ==> row.data[j].id != "RiftTime")
    ensures (forall k :: 0 <= k < |row.data| ==> row.data[k].id != "RiftTime") ==> RiftTime(row) == 0
  {
  }

  /** `find` stops at the first match: any cell with the id and none before it is the
      one `FindCell` returns. */
  lemma FindCellIsFirst(cells: seq<Cell>, id: string, k: nat)
    requires k < |cells| && cells[k].id == id
    requires forall j :: 0 <= j < k ==> cells[j].id != id
    ensures FindCell(cells, id) == Some(k)
  {
  }

  /** Read the other way round: the first `RiftLevel` cell of a row decides its level,
      its number or 0 when it has none, and the first `RiftTime` cell its time. */
  lemma FirstCellDecides(row: Row, k: nat)
    requires k < |row.data|
    ensures row.data[k].id == "RiftLevel" && (forall j :: 0 <= j < k ==> row.data[j].id != "RiftLevel") ==>
      RiftLevel(row) == (if row.data[k].number.Some? then row.data[k].number.value else 0)
    ensures row.data[k].id == "RiftTime" && (forall j :: 0 <= j < k ==> row.data[j].id != "RiftTime") ==>
      RiftTime(row) == (if row.data[k].timestamp.Some? then row.data[k].timestamp.value else 0)
  {
    if row.data[k].id == "RiftLevel" && (forall j :: 0 <= j < k ==> row.data[j].id != "RiftLevel") {
      FindCellIsFirst(row.data, "RiftLevel", k);
    }
    if row.data[k].id == "RiftTime" && (forall j :: 0 <= j < k ==> row.data[j].id != "RiftTime") {
      FindCellIsFirst(row.data, "RiftTime", k);
    }
  }

  /** The comparator of `sortLeaderboard` and of the sort in `fetchLeaderboard`:
      negative when `a` goes first. */
  function Compare(a: Row, b: Row): int {
    if RiftLevel(a) != RiftLevel(b) then RiftLevel(b) - RiftLevel(a) else RiftTime(a) - RiftTime(b)
  }

  /** `a` may stand before `b` in a sorted leaderboard. */
  predicate Ranks(a: Row, b: Row) {
    Compare(a, b) <= 0
  }

  /** The comparator's meaning: higher rift level first, and at equal level the shorter
      rift time first; equal level and time compare as equal. It is antisymmetric. */
  lemma CompareMeaning(a: Row, b: Row)
    ensures Compare(a, b) < 0 <==> RiftLevel(a) > RiftLevel(b) || (RiftLevel(a) == RiftLevel(b) && RiftTime(a) < RiftTime(b))
    ensures Compare(a, b) == 0 <==> RiftLevel(a) == RiftLevel(b) && RiftTime(a) == RiftTime(b)
    ensures Compare(b, a) == -Compare(a, b)
  {
  }

  /** `Ranks` is a total preorder, which is what `Array.prototype.sort` needs of a
      comparator. */
  lemma RanksIsTotalPreorder(a: Row, b: Row, c: Row)
    ensures Ranks(a, a)
    ensures Ranks(a, b) || Ranks(b, a)
    ensures Ranks(a, b) && Ranks(b, c) ==> Ranks(a, c)
  {
  }

  predicate Sorted(s: seq<Row>) {
    forall i, j :: 0 <= i < j < |s| ==> Ranks(s[i], s[j])
  }

  /** `data.sort(comparator)`, as an insertion sort: the array ends up sorted, holds
      the same rows, and an array that is already sorted is left as it is. */
  method SortRows(a: array<Row>)
    modifies a
    ensures Sorted(a[..])
    ensures multiset(a[..]) == multiset(old(a[..]))
    ensures Sorted(old(a[..])) ==> a[..] == old(a[..])
  {
    var i := 0;
    while i < a.Length
      invariant 0 <= i <= a.Length
      invariant Sorted(a[..i])
      invariant multiset(a[..]) == multiset(old(a[..]))
      invariant Sorted(old(a[..])) ==> a[..] == old(a[..])
    {
      InsertLast(a, i);
      i := i + 1;
    }
    assert a[..a.Length] == a[..];
  }

  /** Halfway through inserting `s[j]`: apart from position `j`, `s[..i + 1]` is
      sorted, and `s[j]` ranks before everything after it up to `i`. */
  ghost predicate SortedAround(s: seq<Row>, i: nat, j: nat)
    requires j <= i < |s|
  {
    && (forall x, y :: 0 <= x < y <= i && x != j && y != j ==> Ranks(s[x], s[y]))
    && (forall y :: j < y <= i ==> Ranks(s[j], s[y]))
  }

  lemma SortedAroundStart(s: seq<Row>, i: nat)
    requires i < |s| && Sorted(s[..i])
    ensures SortedAround(s, i, i)
  {
    forall x, y | 0 <= x < y <= i && x != i && y != i ensures Ranks(s[x], s[y]) {
      assert s[..i][x] == s[x] && s[..i][y] == s[y];
    }
  }

  lemma SortedAroundSwap(s: seq<Row>, i: nat, j: nat)
    requires 0 < j <= i < |s| && SortedAround(s, i, j)
    requires Compare(s[j - 1], s[j]) > 0
    ensures SortedAround(s[j - 1 := s[j]][j := s[j - 1]], i, j - 1)
  {
    var t := s[j - 1 := s[j]][j := s[j - 1]];
    forall y | j - 1 < y <= i ensures Ranks(t[j - 1], t[y]) {
      if y > j {
        assert Ranks(s[j], s[y]);
      }
    }
    forall x, y | 0 <= x < y <= i && x != j - 1 && y != j - 1 ensures Ranks(t[x], t[y]) {
      if y == j {
        if x < j - 1 {
          assert Ranks(s[x], s[j - 1]);
        }
      } else if x == j {
        assert Ranks(s[j - 1], s[y]);
      } else {
        assert Ranks(s[x], s[y]);
      }
    }
  }

  lemma SortedAroundEnd(s: seq<Row>, i: nat, j: nat)
    requires j <= i < |s| && SortedAround(s, i, j)
    requires j == 0 || Compare(s[j - 1], s[j]) <= 0
    ensures Sorted(s[..i + 1])
  {
    forall x, y | 0 <= x < y <= i ensures Ranks(s[x], s[y]) {
      if y == j && x < j - 1 {
        RanksIsTotalPreorder(s[x], s[j - 1], s[j]);
      }
    }
  }

  /** Moves `a[i]` left past every row it outranks, so that `a[..i + 1]` is sorted. */
  method InsertLast(a: array<Row>, i: nat)
    requires i < a.Length
    requires Sorted(a[..i])
    modifies a
    ensures Sorted(a[..i + 1])
    ensures a[i + 1..] == old(a[i + 1..])
    ensures multiset(a[..]) == multiset(old(a[..]))
    ensures Sorted(old(a[..i + 1])) ==> a[..] == old(a[..])
  {
    SortedAroundStart(a[..], i);
    var j := i;
    while j > 0 && Compare(a[j - 1], a[j]) > 0
      invariant 0 <= j <= i
      invariant SortedAround(a[..], i, j)
      invariant a[i + 1..] == old(a[i + 1..])
      invariant multiset(a[..]) == multiset(old(a[..]))
      invariant j == i ==> a[..] == old(a[..])
      invariant Sorted(old(a[..i + 1])) ==> j == i
    {
      assert Sorted(old(a[..i + 1])) ==> Ranks(old(a[..i + 1])[j - 1], old(a[..i + 1])[j]);
      SortedAroundSwap(a[..], i, j);
      a[j - 1], a[j] := a[j], a[j - 1];
      j := j - 1;
    }
    SortedAroundEnd(a[..], i, j);
  }

  /** The rows of one class's leaderboard, each tagged with that class:
      `rows.map(row => ({ ...row, classSlug: cls }))`. */
  function TagRows(cls: string, rows: seq<Row>): (tagged: seq<Row>)
    ensures |tagged| == |rows|
    ensures forall k :: 0 <= k < |rows| ==> tagged[k] == rows[k].(classSlug := Some(cls))
  {
    if rows == [] then [] else [rows[0].(classSlug := Some(cls))] + TagRows(cls, rows[1..])
  }

  /** The number of rows of all the classes' leaderboards together. */
  function TotalRows(boards: seq<(string, seq<Row>)>): nat {
    if boards == [] then 0 else |boards[0].1| + TotalRows(boards[1..])
  }

  /** `results.flat()`: the tagged leaderboards of all classes, class by class. */
  function MergeClasses(boards: seq<(string, seq<Row>)>): (merged: seq<Row>)
  {
    if boards == [] then [] else TagRows(boards[0].0, boards[0].1) + MergeClasses(boards[1..])
  }

  /** Every merged row comes from one of the classes' leaderboards and carries that
      class's slug. */
  lemma {:induction false} MergedRowsAreTagged(boards: seq<(string, seq<Row>)>, k: nat)
    requires k < |MergeClasses(boards)|
    ensures exists b, r :: (0 <= b < |boards| && 0 <= r < |boards[b].1|
      && MergeClasses(boards)[k] == boards[b].1[r].(classSlug := Some(boards[b].0)))
  {
    var first := TagRows(boards[0].0, boards[0].1);
    if k < |first| {
      assert MergeClasses(boards)[k] == first[k];
    } else {
      assert MergeClasses(boards)[k] == MergeClasses(boards[1..])[k - |first|];
      MergedRowsAreTagged(boards[1..], k - |first|);
      var b, r :| 0 <= b < |boards[1..]| && 0 <= r < |boards[1..][b].1|
        && MergeClasses(boards[1..])[k - |first|] == boards[1..][b].1[r].(classSlug := Some(boards[1..][b].0));
      assert boards[1..][b] == boards[b + 1];
    }
  }

  /** Nothing is lost or added in the merge: it holds as many rows as all the
      leaderboards together. */
  lemma {:induction false} MergeClassesLength(boards: seq<(string, seq<Row>)>)
    ensures |MergeClasses(boards)| == TotalRows(boards)
  {
    if boards != [] {
      MergeClassesLength(boards[1..]);
    }
  }

  /** Row `r` of class `b`'s leaderboard, tagged with that class, stands in the merge
      right after the rows of the classes before `b`. */
  lemma {:induction false} MergedRowAt(boards: seq<(string, seq<Row>)>, b: nat, r: nat)
    requires b < |boards| && r < |boards[b].1|
    ensures TotalRows(boards[..b]) + r < |MergeClasses(boards)|
    ensures MergeClasses(boards)[TotalRows(boards[..b]) + r] == boards[b].1[r].(classSlug := Some(boards[b].0))
    ensures boards[b].1[r].(classSlug := Some(boards[b].0)) in MergeClasses(boards)
  {
    var first := TagRows(boards[0].0, boards[0].1);
    if b == 0 {
      assert boards[..0] == [];
      assert MergeClasses(boards)[r] == first[r];
    } else {
      MergedRowAt(boards[1..], b - 1, r);
      assert boards[1..][b - 1] == boards[b];
      assert boards[..b][1..] == boards[1..][..b - 1];
      assert TotalRows(boards[..b]) == |first| + TotalRows(boards[1..][..b - 1]);
      var t := TotalRows(boards[1..][..b - 1]) + r;
      assert MergeClasses(boards)[|first| + t] == MergeClasses(boards[1..])[t];
    }
  }
}
