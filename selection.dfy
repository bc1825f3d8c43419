/**
 * Row selection as pandas performs it in `df = df[<boolean column>]`: a
 * comparison evaluated on one column for every row, then the rows where it is
 * true, in their original order. A filter is a list of such steps.
 */
module Selection {
  import opened Values
  import opened Text

  /** The element-wise comparisons the filters use. */
  datatype Test =
    | AtLeast(bound: real)          // df[c] >= bound
    | Above(bound: real)            // df[c] >  bound
    | AtMost(bound: real)           // df[c] <= bound
    | Below(bound: real)            // df[c] <  bound
    | Within(lo: int, hi: int)      // (df[c] >= lo) & (df[c] <= hi)
    | FlagIs(flag: real)            // df[c] == flag
    | EqualsValue(value: Json)      // df[c] == value
    | LowerIs(text: string)         // df[c].str.lower() == text
    | StrippedLowerIs(text: string)     // df[c].str.strip().str.lower() == text
    | StrippedLowerIsNot(text: string)  // df[c].str.strip().str.lower() != text
    | ContainsText(pattern: string) // df[c].str.contains(pattern, na=False)

  predicate IsOrdering(test: Test) {
    test.AtLeast? || test.Above? || test.AtMost? || test.Below? || test.Within?
  }

  function Compare(test: Test, x: real): bool
    requires IsOrdering(test)
  {
    match test
    case AtLeast(b) => x >= b
    case Above(b) => x > b
    case AtMost(b) => x <= b
    case Below(b) => x < b
    case Within(lo, hi) => lo as real <= x <= hi as real
  }

  /** Python `==` between a table element and a request value. */
  predicate CellEquals(cell: Cell, v: Json) {
    match (cell, v)
    case (Text(s), JStr(t)) => s == t
    case (Num(x), JNum(y)) => x == y
    case (Num(x), JBool(b)) => x == if b then 1.0 else 0.0
    case _ => false
  }

  /**
   * One element of the boolean column. Ordering a string against a number
   * raises TypeError; NaN compares false except under `!=`; the `.str`
   * methods read a non-string element as NaN.
   */
  function Eval(test: Test, column: string, cell: Cell): Result<bool, Error> {
    if IsOrdering(test) then
      match cell
      case Text(_) => Err(BadComparison(column))
      case Missing => Ok(false)
      case Num(x) => Ok(Compare(test, x))
    else
      match test
      case FlagIs(f) => Ok(cell == Num(f))
      case EqualsValue(v) => if v.JList? then Err(LengthMismatch(column)) else Ok(CellEquals(cell, v))
      case LowerIs(t) => Ok(cell.Text? && Lower(cell.s) == t)
      case StrippedLowerIs(t) => Ok(cell.Text? && Lower(Strip(cell.s)) == t)
      case StrippedLowerIsNot(t) => Ok(!cell.Text? || Lower(Strip(cell.s)) != t)
      case ContainsText(p) => Ok(cell.Text? && Contains(cell.s, p))
  }

  /**
   * A filter step: a selection on one column, or the in-place rewrite
   * `df[c] = pd.to_numeric(df[c], errors='coerce')`.
   */
  datatype Step = Select(column: string, test: Test) | ToNumeric(column: string)

  function ToNumericCell(c: Cell): Cell {
    match c
    case Text(s) => (match ParseDecimal(s) case Some(v) => Num(v) case None => Missing)
    case _ => c
  }

  function Coerced(row: Row, c: string): Row {
    if c in row then row[c := ToNumericCell(row[c])] else row
  }

  function SelectRows(rows: seq<Row>, column: string, test: Test): Result<seq<Row>, Error> {
    if rows == [] then Ok([])
    else
      var keep :- Eval(test, column, Get(rows[0], column));
      var rest :- SelectRows(rows[1..], column, test);
      Ok(if keep then [rows[0]] + rest else rest)
  }

  /** One step; reading a column the table does not have raises KeyError. */
  function Exec(t: Table, step: Step): Result<Table, Error> {
    if step.column !in t.columns then Err(MissingColumn(step.column))
    else
      match step
      case Select(c, test) =>
        var rows :- SelectRows(t.rows, c, test);
        Ok(Table(t.columns, rows))
      case ToNumeric(c) =>
        Ok(Table(t.columns, seq(|t.rows|, i requires 0 <= i < |t.rows| => Coerced(t.rows[i], c))))
  }

  /** The steps in order; the first exception ends the request. */
  function Run(t: Table, steps: seq<Step>): Result<Table, Error>
    decreases |steps|
  {
    if steps == [] then Ok(t)
    else
      var t1 :- Exec(t, steps[0]);
      Run(t1, steps[1..])
  }

  // ---------------------------------------------------------------------
  // The declarative reading: a row survives iff every selection holds of it.

  predicate Holds(step: Step, row: Row) {
    match step
    case Select(c, test) => Eval(test, c, Get(row, c)) == Ok(true)
    case ToNumeric(_) => true
  }

  predicate AllHold(steps: seq<Step>, row: Row) {
    forall i :: 0 <= i < |steps| ==> Holds(steps[i], row)
  }

  /** The rows every step admits, in input order. */
  function KeepRows(rows: seq<Row>, steps: seq<Step>): seq<Row> {
    if rows == [] then []
    else (if AllHold(steps, rows[0]) then [rows[0]] else []) + KeepRows(rows[1..], steps)
  }

  /** `xs` is `ys` with some elements left out. */
  predicate IsSubseq<T(==)>(xs: seq<T>, ys: seq<T>)
    decreases |ys|
  {
    xs == [] ||
    (ys != [] && ((xs[0] == ys[0] && IsSubseq(xs[1..], ys[1..])) || IsSubseq(xs, ys[1..])))
  }

  /** No string under column `c`: `to_numeric` then changes nothing. */
  predicate NoTextIn(rows: seq<Row>, c: string) {
    forall r :: r in rows ==> !Get(r, c).Text?
  }

  /** Every column a step coerces already holds numbers or NaN. */
  predicate Settled(rows: seq<Row>, steps: seq<Step>) {
    forall i :: 0 <= i < |steps| && steps[i].ToNumeric? ==> NoTextIn(rows, steps[i].column)
  }

  // ---------------------------------------------------------------------
  // Lemmas

  /** A successful selection keeps exactly the rows whose element is true. */
  lemma {:induction false} SelectRowsKeeps(rows: seq<Row>, c: string, test: Test)
    requires SelectRows(rows, c, test).Ok?
    ensures SelectRows(rows, c, test).value == KeepRows(rows, [Select(c, test)])
  {
    if rows != [] {
      SelectRowsKeeps(rows[1..], c, test);
      var keep := Eval(test, c, Get(rows[0], c));
      assert keep.Ok? && SelectRows(rows[1..], c, test).Ok?;
      assert SelectRows(rows, c, test).value ==
        (if keep.value then [rows[0]] else []) + SelectRows(rows[1..], c, test).value;
      AllHoldOne(Select(c, test), rows[0]);
    }
  }

  lemma AllHoldOne(s: Step, r: Row)
    ensures AllHold([s], r) <==> Holds(s, r)
  {
    assert [s][0] == s;
  }

  lemma {:induction false} KeepRowsMembers(rows: seq<Row>, steps: seq<Step>, r: Row)
    ensures r in KeepRows(rows, steps) <==> r in rows && AllHold(steps, r)
  {
    if rows != [] {
      KeepRowsMembers(rows[1..], steps, r);
      assert rows == [rows[0]] + rows[1..];
    }
  }

  lemma {:induction false} KeepRowsAll(rows: seq<Row>, steps: seq<Step>)
    requires forall r :: r in rows ==> AllHold(steps, r)
    ensures KeepRows(rows, steps) == rows
  {
    if rows != [] {
      KeepRowsAll(rows[1..], steps);
      assert rows == [rows[0]] + rows[1..];
    }
  }

  lemma AllHoldConcat(a: seq<Step>, b: seq<Step>, r: Row)
    ensures AllHold(a + b, r) <==> AllHold(a, r) && AllHold(b, r)
  {
    if AllHold(a, r) && AllHold(b, r) {
      forall i | 0 <= i < |a + b| ensures Holds((a + b)[i], r) {
        if i >= |a| { assert (a + b)[i] == b[i - |a|]; }
      }
    }
    if AllHold(a + b, r) {
      forall i | 0 <= i < |a| ensures Holds(a[i], r) {
        assert (a + b)[i] == a[i];
      }
      forall i | 0 <= i < |b| ensures Holds(b[i], r) {
        assert (a + b)[|a| + i] == b[i];
      }
    }
  }

  /** Filtering by `a` and then by `b` is filtering once by both. */
  lemma {:induction false} KeepRowsCompose(rows: seq<Row>, a: seq<Step>, b: seq<Step>)
    ensures KeepRows(KeepRows(rows, a), b) == KeepRows(rows, a + b)
  {
    if rows != [] {
      KeepRowsCompose(rows[1..], a, b);
      AllHoldConcat(a, b, rows[0]);
      var head := if AllHold(a, rows[0]) then [rows[0]] else [];
      var tail := KeepRows(rows[1..], a);
      if AllHold(a, rows[0]) {
        assert (head + tail)[1..] == tail;
      } else {
        assert head + tail == tail;
      }
    }
  }

  lemma CoercedIdentity(rows: seq<Row>, c: string)
    requires NoTextIn(rows, c)
    ensures seq(|rows|, i requires 0 <= i < |rows| => Coerced(rows[i], c)) == rows
  {
    forall i | 0 <= i < |rows| ensures Coerced(rows[i], c) == rows[i] {
      assert rows[i] in rows;
      if c in rows[i] {
        assert rows[i][c := rows[i][c]] == rows[i];
      }
    }
  }

  /**
   * Running a filter whose coerced columns are already numeric keeps exactly
   * the rows every step admits, in their order, under the same columns.
   */
  lemma {:induction false} RunKeeps(t: Table, steps: seq<Step>)
    requires Run(t, steps).Ok?
    requires Settled(t.rows, steps)
    ensures Run(t, steps).value.columns == t.columns
    ensures Run(t, steps).value.rows == KeepRows(t.rows, steps)
    decreases |steps|
  {
    if steps == [] {
      KeepRowsAll(t.rows, steps);
    } else {
      var s := steps[0];
      var t1 := Exec(t, s).value;
      match s {
        case Select(c, test) =>
          SelectRowsKeeps(t.rows, c, test);
        case ToNumeric(c) =>
          CoercedIdentity(t.rows, c);
          KeepRowsAll(t.rows, [s]);
      }
      assert t1.rows == KeepRows(t.rows, [s]);
      forall r | r in t1.rows ensures r in t.rows {
        KeepRowsMembers(t.rows, [s], r);
      }
      assert Settled(t1.rows, steps[1..]) by {
        forall i | 0 <= i < |steps[1..]| && steps[1..][i].ToNumeric?
          ensures NoTextIn(t1.rows, steps[1..][i].column)
        {
          assert steps[1..][i] == steps[i + 1];
        }
      }
      RunKeeps(t1, steps[1..]);
      KeepRowsCompose(t.rows, [s], steps[1..]);
      assert [s] + steps[1..] == steps;
    }
  }

  /** A step that reads a column the table lacks makes the whole run fail. */
  lemma {:induction false} RunMissingColumn(t: Table, steps: seq<Step>, k: nat)
    requires k < |steps| && steps[k].column !in t.columns
    ensures Run(t, steps).Err?
    decreases |steps|
  {
    if k > 0 && Exec(t, steps[0]).Ok? {
      RunMissingColumn(Exec(t, steps[0]).value, steps[1..], k - 1);
    }
  }

  /** Filtering only ever drops rows. */
  lemma {:induction false} KeepRowsSubseq(rows: seq<Row>, steps: seq<Step>)
    ensures IsSubseq(KeepRows(rows, steps), rows)
  {
    if rows != [] {
      KeepRowsSubseq(rows[1..], steps);
      var tail := KeepRows(rows[1..], steps);
      if AllHold(steps, rows[0]) {
        assert ([rows[0]] + tail)[1..] == tail;
      } else {
        assert [] + tail == tail;
      }
    }
  }

  /** Filtering by more steps keeps a subsequence of what fewer steps keep. */
  lemma {:induction false} KeepRowsNarrowing(rows: seq<Row>, fewer: seq<Step>, more: seq<Step>)
    requires forall s :: s in fewer ==> s in more
    ensures IsSubseq(KeepRows(rows, more), KeepRows(rows, fewer))
  {
    if rows != [] {
      var r := rows[0];
      KeepRowsNarrowing(rows[1..], fewer, more);
      var km := KeepRows(rows[1..], more);
      var kf := KeepRows(rows[1..], fewer);
      if AllHold(more, r) {
        assert AllHold(fewer, r) by {
          forall i | 0 <= i < |fewer| ensures Holds(fewer[i], r) {
            assert fewer[i] in more;
            var j :| 0 <= j < |more| && more[j] == fewer[i];
          }
        }
        assert ([r] + km)[1..] == km && ([r] + kf)[1..] == kf;
      } else if AllHold(fewer, r) {
        assert KeepRows(rows, more) == km;
        assert ([r] + kf)[1..] == kf;
      } else {
        assert KeepRows(rows, more) == km && KeepRows(rows, fewer) == kf;
      }
    }
  }
}
