/**
 * The scoreboards of the score phase and of the end of the game
 * (server.js:611-613, 627-628): rows sorted by descending score with a
 * stable sort, so that ties keep roster order, each ranked by its position
 * counted from 1, and the winner the top row.
 */
module Scoreboard {
  import opened Wrappers
  import opened Roster

  datatype Row = Row(name: string, score: nat)
  datatype RankedRow = RankedRow(name: string, score: nat, place: nat)

  /** One row per roster entry, in roster order, with its name and score (server.js:611). */
  function RowsOf(ps: seq<Player>): (rows: seq<Row>)
    ensures |rows| == |ps|
    ensures forall i :: 0 <= i < |ps| ==> rows[i] == Row(ps[i].name, ps[i].score)
  {
    seq(|ps|, i requires 0 <= i < |ps| => Row(ps[i].name, ps[i].score))
  }

  ghost predicate SortedDesc(s: seq<Row>) {
    forall i, j :: 0 <= i < j < |s| ==> s[i].score >= s[j].score
  }

  /** The position of the first row of `s` that does not outscore `x`, or `|s|` when every row does. */
  function InsertPoint(x: Row, s: seq<Row>): (k: nat)
    ensures k <= |s|
    ensures forall j :: 0 <= j < k ==> s[j].score > x.score
    ensures k < |s| ==> s[k].score <= x.score
  {
    if s == [] || s[0].score <= x.score then 0
    else
      var k' := InsertPoint(x, s[1..]);
      assert forall j :: 1 <= j < k' + 1 ==> s[j] == s[1..][j - 1];
      k' + 1
  }

  /** Insert `x` in front of the first row that does not outscore it. */
  function Insert(x: Row, s: seq<Row>): (r: seq<Row>)
    ensures |r| == |s| + 1
    ensures multiset(r) == multiset(s) + multiset{x}
    ensures r[0] == if s == [] || s[0].score <= x.score then x else s[0]
  {
    if s == [] || s[0].score <= x.score then [x] + s
    else
      assert s == [s[0]] + s[1..];
      [s[0]] + Insert(x, s[1..])
  }

  /** `x` lands at its insertion point, with the rows before and after it in their old order. */
  lemma {:induction false} InsertSplice(x: Row, s: seq<Row>)
    ensures Insert(x, s) == s[..InsertPoint(x, s)] + [x] + s[InsertPoint(x, s)..]
  {
    if s == [] || s[0].score <= x.score {
      assert s[..0] == [] && s[0..] == s;
    } else {
      var t := s[1..];
      InsertSplice(x, t);
      var k := InsertPoint(x, t);
      assert InsertPoint(x, s) == k + 1;
      ConsSplice(s, k, x);
      assert Insert(x, s) == [s[0]] + Insert(x, t);
    }
  }

  lemma ConsSplice(s: seq<Row>, k: nat, x: Row)
    requires 0 < |s| && k < |s|
    ensures [s[0]] + (s[1..][..k] + [x] + s[1..][k..]) == s[..k + 1] + [x] + s[k + 1..]
  {
    assert s[..k + 1] == [s[0]] + s[1..][..k];
    assert s[k + 1..] == s[1..][k..];
  }

  /** The rows of `s` with score `v`, in their order in `s`. */
  function WithScore(s: seq<Row>, v: nat): (r: seq<Row>)
    ensures |r| <= |s|
    ensures forall i :: 0 <= i < |r| ==> r[i].score == v && r[i] in s
  {
    if s == [] then []
    else
      var t := WithScore(s[1..], v);
      assert forall i :: 0 <= i < |t| ==> t[i] in s[1..] ==> t[i] in s;
      (if s[0].score == v then [s[0]] else []) + t
  }

  /** Inserting `x` places it ahead of the rows with its score and moves no other row past one of the same score. */
  lemma {:induction false} InsertWithScore(x: Row, s: seq<Row>, v: nat)
    ensures WithScore(Insert(x, s), v) == if x.score == v then [x] + WithScore(s, v) else WithScore(s, v)
  {
    if s == [] || s[0].score <= x.score {
      assert ([x] + s)[1..] == s;
    } else {
      InsertWithScore(x, s[1..], v);
      assert ([s[0]] + Insert(x, s[1..]))[1..] == Insert(x, s[1..]);
    }
  }

  /** Every row of `Insert(x, s)` is `x` or a row of `s`. */
  lemma InsertFrom(x: Row, s: seq<Row>, k: nat)
    requires k < |Insert(x, s)|
    ensures Insert(x, s)[k] == x || Insert(x, s)[k] in s
  {
    var y := Insert(x, s)[k];
    assert y in multiset(Insert(x, s));
  }

  /** Inserting into a sorted board keeps it sorted. */
  lemma {:induction false} InsertSorted(x: Row, s: seq<Row>)
    requires SortedDesc(s)
    ensures SortedDesc(Insert(x, s))
  {
    if s != [] && s[0].score > x.score {
      InsertSorted(x, s[1..]);
      var r := Insert(x, s);
      var tail := Insert(x, s[1..]);
      assert r == [s[0]] + tail;
      forall k | 0 <= k < |tail| ensures s[0].score >= tail[k].score {
        InsertFrom(x, s[1..], k);
        if tail[k] != x {
          var m :| 0 <= m < |s| - 1 && s[1..][m] == tail[k];
          assert s[m + 1] == tail[k];
        }
      }
    }
  }

  /** A stable sort by descending score (server.js:612, 627). */
  function SortDesc(rows: seq<Row>): (r: seq<Row>)
    ensures |r| == |rows|
    ensures multiset(r) == multiset(rows)
    ensures SortedDesc(r)
  {
    if rows == [] then []
    else
      assert rows == [rows[0]] + rows[1..];
      InsertSorted(rows[0], SortDesc(rows[1..]));
      Insert(rows[0], SortDesc(rows[1..]))
  }

  /** `k` is the first row with the highest score: the winner under roster-order tie-break. */
  ghost predicate IsFirstTop(rows: seq<Row>, k: nat) {
    && k < |rows|
    && (forall j :: 0 <= j < |rows| ==> rows[j].score <= rows[k].score)
    && (forall j :: 0 <= j < k ==> rows[j].score < rows[k].score)
  }

  /** The sort is stable: rows of equal score keep their relative order. */
  lemma {:induction false} SortDescStable(rows: seq<Row>, v: nat)
    ensures WithScore(SortDesc(rows), v) == WithScore(rows, v)
  {
    if rows != [] {
      SortDescStable(rows[1..], v);
      InsertWithScore(rows[0], SortDesc(rows[1..]), v);
    }
  }

  /** The first top of the tail stays the first top when the head scores at least as much: then the head is. */
  lemma FirstTopHead(rows: seq<Row>, k: nat)
    requires |rows| >= 2 && IsFirstTop(rows[1..], k) && rows[k + 1].score <= rows[0].score
    ensures IsFirstTop(rows, 0)
  {
    forall j | 1 <= j < |rows| ensures rows[j].score <= rows[0].score {
      assert rows[j] == rows[1..][j - 1];
    }
  }

  /** When the head scores less than the tail's first top, that row is the first top of the whole. */
  lemma FirstTopTail(rows: seq<Row>, k: nat)
    requires |rows| >= 2 && IsFirstTop(rows[1..], k) && rows[0].score < rows[k + 1].score
    ensures IsFirstTop(rows, k + 1)
  {
    assert rows[k + 1] == rows[1..][k];
    forall j | 1 <= j < |rows| ensures rows[j].score <= rows[k + 1].score {
      assert rows[j] == rows[1..][j - 1];
    }
    forall j | 1 <= j < k + 1 ensures rows[j].score < rows[k + 1].score {
      assert rows[j] == rows[1..][j - 1];
    }
  }

  /** The top of the sorted board is the first row with the highest score: ties go to roster order. */
  lemma {:induction false} SortDescHead(rows: seq<Row>) returns (k: nat)
    requires rows != []
    ensures IsFirstTop(rows, k)
    ensures SortDesc(rows)[0] == rows[k]
  {
    var t := rows[1..];
    if t == [] {
      k := 0;
    } else {
      var k' := SortDescHead(t);
      assert SortDesc(rows) == Insert(rows[0], SortDesc(t));
      assert t[k'] == rows[k' + 1];
      if rows[k' + 1].score <= rows[0].score {
        k := 0;
        FirstTopHead(rows, k');
      } else {
        k := k' + 1;
        FirstTopTail(rows, k');
      }
    }
  }

  /** The ranked board: each sorted row with its 1-based position as its place (server.js:612). */
  function Ranked(sorted: seq<Row>): (r: seq<RankedRow>)
    ensures |r| == |sorted|
    ensures forall i :: 0 <= i < |r| ==>
      r[i].place == i + 1 && r[i].name == sorted[i].name && r[i].score == sorted[i].score
  {
    seq(|sorted|, i requires 0 <= i < |sorted| => RankedRow(sorted[i].name, sorted[i].score, i + 1))
  }

  /** The board sent in `phaseScoreBoard`. */
  function ScoreBoard(ps: seq<Player>): seq<RankedRow> {
    Ranked(SortDesc(RowsOf(ps)))
  }

  /** The top row of the final board, or none for an empty roster (server.js:628). */
  function Winner(ps: seq<Player>): Option<Row> {
    var board := SortDesc(RowsOf(ps));
    if board == [] then None else Some(board[0])
  }

  /**
   * The winner is the roster entry with the highest score, the earliest one
   * in roster order among equals; only an empty roster has none.
   */
  lemma WinnerIsFirstTop(ps: seq<Player>)
    ensures Winner(ps).None? <==> ps == []
    ensures ps != [] ==> exists k: nat :: IsFirstTop(RowsOf(ps), k) && Winner(ps) == Some(Row(ps[k].name, ps[k].score))
  {
    if ps != [] {
      var k := SortDescHead(RowsOf(ps));
      assert IsFirstTop(RowsOf(ps), k);
    }
  }

  /** The ranked board lists every player exactly once, with places 1..n in descending score order. */
  lemma ScoreBoardIsRanking(ps: seq<Player>)
    ensures var b := ScoreBoard(ps);
      && |b| == |ps|
      && (forall i :: 0 <= i < |b| ==> b[i].place == i + 1)
      && (forall i, j :: 0 <= i < j < |b| ==> b[i].score >= b[j].score)
      && multiset(seq(|b|, i requires 0 <= i < |b| => Row(b[i].name, b[i].score))) == multiset(RowsOf(ps))
  {
    var sorted := SortDesc(RowsOf(ps));
    var b := ScoreBoard(ps);
    assert seq(|b|, i requires 0 <= i < |b| => Row(b[i].name, b[i].score)) == sorted;
  }
}
