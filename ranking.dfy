/**
 * Ordering and rounding in `recommend`: `sort_values('score', ascending=False)`
 * and `round(score, 2)`. The sort pandas uses by default is not stable, so
 * only the descending order of scores is promised, not the order of ties.
 */
module Ranking {
  import opened Values

  const Score := "score"

  /** A row's score as a sort key; NaN (or anything but a number) has none. */
  function Rank(row: Row): Option<real> {
    if Get(row, Score).Num? then Some(Get(row, Score).n) else None
  }

  /**
   * `a` may stand before `b` in a descending sort: a higher or equal score,
   * and rows without a number last, as `na_position='last'` places them.
   */
  predicate Precedes(a: Row, b: Row) {
    Rank(b).None? || (Rank(a).Some? && Rank(a).value >= Rank(b).value)
  }

  /** Scores never increase along the sequence. */
  predicate Descending(rows: seq<Row>) {
    forall i, j :: 0 <= i < j < |rows| ==> Precedes(rows[i], rows[j])
  }

  lemma PrecedesTotal(a: Row, b: Row)
    ensures Precedes(a, b) || Precedes(b, a)
  {
  }

  /** Places `x` before the first row it may precede. */
  function Insert(x: Row, rows: seq<Row>): (r: seq<Row>)
    ensures multiset(r) == multiset(rows) + multiset{x}
    ensures |r| == |rows| + 1
  {
    if rows == [] then [x]
    else if Precedes(x, rows[0]) then [x] + rows
    else
      assert rows == [rows[0]] + rows[1..];
      [rows[0]] + Insert(x, rows[1..])
  }

  /** Inserting into a descending sequence keeps it descending. */
  lemma {:induction false} InsertDescending(x: Row, rows: seq<Row>)
    requires Descending(rows)
    ensures Descending(Insert(x, rows))
  {
    if rows != [] && !Precedes(x, rows[0]) {
      var rest := Insert(x, rows[1..]);
      InsertDescending(x, rows[1..]);
      InsertBelow(x, rows);
      ConsDescending(rows[0], rest);
    }
  }

  /** Everything inserted after the head of a descending sequence stands below it. */
  lemma InsertBelow(x: Row, rows: seq<Row>)
    requires Descending(rows) && rows != [] && Precedes(rows[0], x)
    ensures forall e :: e in Insert(x, rows[1..]) ==> Precedes(rows[0], e)
  {
    var rest := Insert(x, rows[1..]);
    forall e | e in rest
      ensures Precedes(rows[0], e)
    {
      assert e in multiset(rest);
      if e != x {
        assert e in multiset(rows[1..]);
        var k :| 0 <= k < |rows[1..]| && rows[1..][k] == e;
        assert rows[k + 1] == e;
      }
    }
  }

  lemma ConsDescending(h: Row, rest: seq<Row>)
    requires Descending(rest)
    requires forall e :: e in rest ==> Precedes(h, e)
    ensures Descending([h] + rest)
  {
    var r := [h] + rest;
    forall i, j | 0 <= i < j < |r|
      ensures Precedes(r[i], r[j])
    {
      assert r[j] == rest[j - 1];
      if i > 0 {
        assert r[i] == rest[i - 1];
      }
    }
  }

  /** `sort_values('score', ascending=False)`: the rows, reordered by descending score. */
  function SortByScore(rows: seq<Row>): (r: seq<Row>)
    ensures Descending(r)
    ensures multiset(r) == multiset(rows)
    ensures |r| == |rows|
    decreases |rows|
  {
    if rows == [] then []
    else
      assert rows == [rows[0]] + rows[1..];
      InsertDescending(rows[0], SortByScore(rows[1..]));
      Insert(rows[0], SortByScore(rows[1..]))
  }

  /** A sorted table is empty exactly when the table is. */
  lemma SortKeepsEmptiness(rows: seq<Row>)
    ensures SortByScore(rows) == [] <==> rows == []
  {
  }

  /** The first row of a sorted table has the highest score. */
  lemma SortPutsBestFirst(rows: seq<Row>, r: Row)
    requires r in rows
    ensures Precedes(SortByScore(rows)[0], r)
  {
    var s := SortByScore(rows);
    assert r in multiset(s);
    var k :| 0 <= k < |s| && s[k] == r;
    if k == 0 {
      PrecedesTotal(r, r);
    }
  }

  // ---------------------------------------------------------------------
  // Rounding to two decimals

  /**
   * `round(x, 2)`: the nearest multiple of 0.01, halves to the even
   * neighbour. The binary representation of floats is not modelled.
   */
  function Round2(x: real): real {
    Hundredths(x * 100.0) as real / 100.0
  }

  /** The integer nearest to `y`, halves to the even one. */
  function Hundredths(y: real): (k: int)
    ensures y - 0.5 <= k as real <= y + 0.5
  {
    var n := y.Floor;
    var f := y - n as real;
    if f > 0.5 then n + 1 else if f < 0.5 then n else if n % 2 == 0 then n else n + 1
  }

  /** Rounding moves a value by at most half a hundredth. */
  lemma RoundClose(x: real)
    ensures -0.005 <= Round2(x) - x <= 0.005
  {
  }

  /** A value with two decimals is its own rounding. */
  lemma RoundExact(k: int)
    ensures Round2(k as real / 100.0) == k as real / 100.0
  {
    assert (k as real / 100.0) * 100.0 == k as real;
  }

  /** Rounding keeps the order of scores. */
  lemma RoundMonotone(x: real, y: real)
    requires x <= y
    ensures Round2(x) <= Round2(y)
  {
    var a, b := x * 100.0, y * 100.0;
    assert a <= b;
    HundredthsMonotone(a, b);
  }

  lemma HundredthsMonotone(a: real, b: real)
    requires a <= b
    ensures Hundredths(a) <= Hundredths(b)
  {
    var m, n := a.Floor, b.Floor;
    assert m <= n;
    if m == n {
      assert a - m as real <= b - n as real;
    }
  }
}
