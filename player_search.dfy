/** The filter of `searchPlayer` (static/js/scripts.js): a row is kept when its
    lower-cased BattleTag contains the lower-cased query. */
module PlayerSearch {

  import opened Wrappers
  import opened LeaderboardData
  import opened RiftRank

  /** `toLowerCase` on one character, for the ASCII letters. */
  function Lower(c: char): (d: char)
    ensures 'A' <= c <= 'Z' ==> d as int == c as int + 32
    ensures !('A' <= c <= 'Z') ==> d == c
    ensures !('A' <= d <= 'Z')
  {
    if 'A' <= c <= 'Z' then (c as int + 32) as char else c
  }

  function LowerString(s: string): (r: string)
    ensures |r| == |s|
    ensures forall i :: 0 <= i < |s| ==> r[i] == Lower(s[i])
  {
    if s == [] then [] else [Lower(s[0])] + LowerString(s[1..])
  }

  /** `q` occurs in `s` starting at position `k`. */
  predicate OccursAt(s: string, q: string, k: nat) {
    k + |q| <= |s| && s[k..k + |q|] == q
  }

  lemma OccursAtTail(s: string, q: string, k: nat)
    requires s != []
    ensures OccursAt(s[1..], q, k) <==> OccursAt(s, q, k + 1)
  {
    if k + 1 + |q| <= |s| {
      assert s[1..][k..k + |q|] == s[k + 1..k + 1 + |q|];
    }
  }

  /** `s.includes(q)`: `q` occurs in `s` at some position. */
  function Includes(s: string, q: string): (b: bool)
    ensures b <==> exists k: nat :: OccursAt(s, q, k)
  {
    if |s| < |q| then false
    else if s[..|q|] == q then (assert OccursAt(s, q, 0); true)
    else
      var rest := Includes(s[1..], q);
      assert rest <==> exists k: nat :: OccursAt(s, q, k) by {
        if rest {
          var k: nat :| OccursAt(s[1..], q, k);
          OccursAtTail(s, q, k);
        }
        forall k: nat | OccursAt(s, q, k) ensures rest {
          assert k != 0;
          OccursAtTail(s, q, k - 1);
        }
      }
      rest
  }

  /** What `row.data.find(d => d.id === 'BattleTag')?.string.toLowerCase()` yields:
      nothing when there is no BattleTag cell, a `TypeError` when the cell has no
      string, and the lower-cased tag otherwise. */
  datatype TagProbe = NoTagCell | TypeError | LowerTag(tag: string)

  function ProbeTag(row: Row): (p: TagProbe)
    ensures p.NoTagCell? <==> FindCell(row.data, "BattleTag").None?
    ensures FindCell(row.data, "BattleTag").Some? ==>
      var k := FindCell(row.data, "BattleTag").value;
      && (p.TypeError? <==> row.data[k].text.None?)
      && (p.LowerTag? ==> p.tag == LowerString(row.data[k].text.value))
  {
    match FindCell(row.data, "BattleTag")
    case None => NoTagCell
    case Some(k) => if row.data[k].text.Some? then LowerTag(LowerString(row.data[k].text.value)) else TypeError
  }

  /** A row passes the filter: `battleTag && battleTag.includes(searchQuery)`. */
  predicate Keeps(row: Row, query: string) {
    var p := ProbeTag(row);
    p.LowerTag? && p.tag != "" && Includes(p.tag, query)
  }

  /** `leaderboardData.filter(...)` for a lower-cased query: the kept rows in order, or
      `None` when some row throws. */
  function MatchingRows(rows: seq<Row>, query: string): Option<seq<Row>>
  {
    if rows == [] then Some([])
    else if ProbeTag(rows[0]).TypeError? then None
    else match MatchingRows(rows[1..], query)
      case None => None
      case Some(rest) => Some(if Keeps(rows[0], query) then [rows[0]] + rest else rest)
  }

  /** The filter throws exactly when some row has a BattleTag cell without a string. */
  lemma {:induction false} MatchingRowsFailsIffTypeError(rows: seq<Row>, query: string)
    ensures MatchingRows(rows, query).None? <==> exists k :: 0 <= k < |rows| && ProbeTag(rows[k]).TypeError?
  {
    if rows != [] {
      MatchingRowsFailsIffTypeError(rows[1..], query);
      if exists k :: 0 <= k < |rows[1..]| && ProbeTag(rows[1..][k]).TypeError? {
        var k :| 0 <= k < |rows[1..]| && ProbeTag(rows[1..][k]).TypeError?;
        assert ProbeTag(rows[k + 1]).TypeError?;
      }
      if exists k :: 0 <= k < |rows| && ProbeTag(rows[k]).TypeError? {
        var k :| 0 <= k < |rows| && ProbeTag(rows[k]).TypeError?;
        if k > 0 {
          assert ProbeTag(rows[1..][k - 1]).TypeError?;
        }
      }
    }
  }

  /** The search keeps exactly the rows that pass the filter. */
  lemma {:induction false} MatchingRowsMembership(rows: seq<Row>, query: string, row: Row)
    requires MatchingRows(rows, query).Some?
    ensures row in MatchingRows(rows, query).value <==> row in rows && Keeps(row, query)
  {
    if rows != [] {
      MatchingRowsMembership(rows[1..], query, row);
      assert rows == [rows[0]] + rows[1..];
    }
  }

  lemma SortedTail(rows: seq<Row>)
    requires rows != [] && Sorted(rows)
    ensures Sorted(rows[1..])
  {
    forall i, j | 0 <= i < j < |rows[1..]| ensures Ranks(rows[1..][i], rows[1..][j]) {
      assert Ranks(rows[i + 1], rows[j + 1]);
    }
  }

  lemma SortedCons(x: Row, rest: seq<Row>)
    requires Sorted(rest)
    requires forall r :: r in rest ==> Ranks(x, r)
    ensures Sorted([x] + rest)
  {
    var s := [x] + rest;
    forall i, j | 0 <= i < j < |s| ensures Ranks(s[i], s[j]) {
      assert s[j] == rest[j - 1];
      if i > 0 {
        assert s[i] == rest[i - 1];
      }
    }
  }

  /** The kept rows stay in the order of the leaderboard, so a sorted leaderboard gives
      a sorted result. */
  lemma {:induction false} MatchingRowsKeepsOrder(rows: seq<Row>, query: string)
    requires MatchingRows(rows, query).Some?
    requires Sorted(rows)
    ensures Sorted(MatchingRows(rows, query).value)
  {
    if rows != [] {
      var rest := MatchingRows(rows[1..], query).value;
      SortedTail(rows);
      MatchingRowsKeepsOrder(rows[1..], query);
      if Keeps(rows[0], query) {
        forall r | r in rest ensures Ranks(rows[0], r) {
          MatchingRowsMembership(rows[1..], query, r);
          var k :| 0 <= k < |rows[1..]| && rows[1..][k] == r;
          assert Ranks(rows[0], rows[k + 1]);
        }
        SortedCons(rows[0], rest);
      }
    }
  }

  /** The positions `from..` of `rows` whose rows satisfy `keep`, in order. */
  function KeptFrom(rows: seq<Row>, keep: Row -> bool, from: nat): seq<nat>
    requires from <= |rows|
    decreases |rows| - from
  {
    if from == |rows| then []
    else (if keep(rows[from]) then [from] else []) + KeptFrom(rows, keep, from + 1)
  }

  /** The kept positions lie in `from..|rows|` and are increasing. */
  lemma {:induction false} KeptFromBounds(rows: seq<Row>, keep: Row -> bool, from: nat)
    requires from <= |rows|
    ensures forall j :: 0 <= j < |KeptFrom(rows, keep, from)| ==> from <= KeptFrom(rows, keep, from)[j] < |rows|
    ensures forall j, j' :: 0 <= j < j' < |KeptFrom(rows, keep, from)| ==>
      KeptFrom(rows, keep, from)[j] < KeptFrom(rows, keep, from)[j']
    decreases |rows| - from
  {
    if from < |rows| {
      KeptFromBounds(rows, keep, from + 1);
    }
  }

  /** The kept positions are increasing, lie in `from..|rows|`, and are exactly the
      positions whose rows satisfy `keep`. */
  lemma {:induction false} KeptFromMeaning(rows: seq<Row>, keep: Row -> bool, from: nat)
    requires from <= |rows|
    ensures forall j :: 0 <= j < |KeptFrom(rows, keep, from)| ==> from <= KeptFrom(rows, keep, from)[j] < |rows|
    ensures forall j, j' :: 0 <= j < j' < |KeptFrom(rows, keep, from)| ==>
      KeptFrom(rows, keep, from)[j] < KeptFrom(rows, keep, from)[j']
    ensures forall i :: from <= i < |rows| ==> (i in KeptFrom(rows, keep, from) <==> keep(rows[i]))
    decreases |rows| - from
  {
    KeptFromBounds(rows, keep, from);
    if from < |rows| {
      KeptFromMeaning(rows, keep, from + 1);
      assert from !in KeptFrom(rows, keep, from + 1);
    }
  }

  /** One step of the filter that does not throw: the first row, when kept, followed
      by the search of the rest. */
  lemma MatchingRowsStep(rows: seq<Row>, query: string)
    requires rows != [] && MatchingRows(rows, query).Some?
    ensures MatchingRows(rows[1..], query).Some?
    ensures MatchingRows(rows, query).value
      == (if Keeps(rows[0], query) then [rows[0]] else []) + MatchingRows(rows[1..], query).value
  {
  }

  /** The search of `rows[from..]` returns the rows at the kept positions, one for one. */
  lemma {:induction false} MatchingRowsPicks(rows: seq<Row>, query: string, from: nat)
    requires from <= |rows| && MatchingRows(rows[from..], query).Some?
    ensures |MatchingRows(rows[from..], query).value| == |KeptFrom(rows, r => Keeps(r, query), from)|
    ensures forall j :: 0 <= j < |KeptFrom(rows, r => Keeps(r, query), from)| ==>
      && KeptFrom(rows, r => Keeps(r, query), from)[j] < |rows|
      && MatchingRows(rows[from..], query).value[j] == rows[KeptFrom(rows, r => Keeps(r, query), from)[j]]
    decreases |rows| - from
  {
    if from < |rows| {
      var tail := rows[from..];
      assert tail[0] == rows[from];
      assert tail[1..] == rows[from + 1..];
      MatchingRowsStep(tail, query);
      MatchingRowsPicks(rows, query, from + 1);
      var head: seq<nat> := if Keeps(rows[from], query) then [from] else [];
      var rest := MatchingRows(rows[from + 1..], query).value;
      var keep := r => Keeps(r, query);
      var f := KeptFrom(rows, keep, from);
      var m := MatchingRows(tail, query).value;
      assert f == head + KeptFrom(rows, keep, from + 1);
      assert m == (if Keeps(rows[from], query) then [rows[from]] else []) + rest;
      forall j | 0 <= j < |f|
        ensures f[j] < |rows| && m[j] == rows[f[j]]
      {
        if j >= |head| {
          assert f[j] == KeptFrom(rows, keep, from + 1)[j - |head|];
          assert m[j] == rest[j - |head|];
        }
      }
    }
  }

  /** The search result is the subsequence of the leaderboard made of exactly the rows
      that pass the filter: row `j` of the result is row `f[j]` of the leaderboard for
      an increasing `f` whose positions are those of the passing rows. */
  lemma MatchingRowsIsSubsequence(rows: seq<Row>, query: string)
    requires MatchingRows(rows, query).Some?
    ensures var f := KeptFrom(rows, r => Keeps(r, query), 0);
      && |MatchingRows(rows, query).value| == |f|
      && (forall j :: 0 <= j < |f| ==> f[j] < |rows| && MatchingRows(rows, query).value[j] == rows[f[j]])
      && (forall j, j' :: 0 <= j < j' < |f| ==> f[j] < f[j'])
      && (forall i :: 0 <= i < |rows| ==> (i in f <==> Keeps(rows[i], query)))
  {
    assert rows[0..] == rows;
    KeptFromMeaning(rows, r => Keeps(r, query), 0);
    MatchingRowsPicks(rows, query, 0);
  }
}
