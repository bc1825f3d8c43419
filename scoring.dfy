/**
 * `calculate_scores`: every row gets a `score`, the mean of its values in the
 * purpose columns the request selects, with NaN read as 0; a request that
 * selects no usable purpose scores every row 0.
 */
module Scoring {
  import opened Values
  import opened Text

  const ScoreColumn := "score"
  const PurposesKey := "purposes"

  /** The purposes each category may be scored on. */
  function Purposes(category: string): seq<string> {
    if category == "cameras" then
      ["Beginner", "Professional", "Sports", "Video", "Daily Use", "Travel", "Vlogging", "Studio"]
    else if category == "lenses" then
      ["Landscape", "Travel", "Portrait", "Sports", "Macro", "Street", "Video"]
    else if category == "drones" then
      ["Sports", "Travel", "Vlogging", "Professional", "Easy of use"]
    else if category == "gimbals" then
      ["Travel", "Vlogging", "Professional", "Easy of use"]
    else if category == "action_cameras" then
      ["Travel", "Sports", "Vlogging", "Durability", "Easy of use", "Low-light Performance"]
    else []
  }

  /** `[p.lower() for p in valid_purposes]` */
  function ValidLower(category: string): (r: seq<string>)
    ensures |r| == |Purposes(category)|
    ensures forall i :: 0 <= i < |r| ==> r[i] == Lower(Purposes(category)[i])
  {
    seq(|Purposes(category)|, i requires 0 <= i < |Purposes(category)| => Lower(Purposes(category)[i]))
  }

  /**
   * `[p.lower() for p in criteria.get('purposes', [])]`: a list of strings
   * gives its items lower-cased and a string gives its characters; an item
   * that is not a string has no `.lower()`, and a number, a boolean or null
   * cannot be iterated.
   */
  function PurposeNames(criteria: Criteria): (r: Result<seq<string>, Error>)
    ensures PurposesKey !in criteria ==> r == Ok([])
    ensures PurposesKey in criteria && criteria[PurposesKey].JList? ==>
      (r.Ok? <==> forall j :: j in criteria[PurposesKey].items ==> j.JStr?)
    ensures PurposesKey in criteria && criteria[PurposesKey].JList? && r.Ok? ==>
      |r.value| == |criteria[PurposesKey].items| &&
      forall i :: 0 <= i < |r.value| ==> r.value[i] == Lower(criteria[PurposesKey].items[i].s)
    ensures PurposesKey in criteria && criteria[PurposesKey].JStr? ==>
      r.Ok? && |r.value| == |criteria[PurposesKey].s| &&
      forall i :: 0 <= i < |r.value| ==> r.value[i] == [LowerChar(criteria[PurposesKey].s[i])]
    ensures (PurposesKey in criteria && (criteria[PurposesKey].JNull? || criteria[PurposesKey].JNum? ||
             criteria[PurposesKey].JBool?)) ==> r == Err(NotIterable)
  {
    if PurposesKey !in criteria then Ok([])
    else match criteria[PurposesKey]
      case JList(items) =>
        if forall j :: j in items ==> j.JStr? then
          Ok(seq(|items|, i requires 0 <= i < |items| => Lower(items[i].s)))
        else Err(NoLower(PurposesKey))
      case JStr(s) => Ok(seq(|s|, i requires 0 <= i < |s| => [LowerChar(s[i])]))
      case _ => Err(NotIterable)
  }

  // ---------------------------------------------------------------------
  // Lower-cased column labels

  /** A row under lower-cased labels; when two labels collide, the later column wins. */
  function LowerRow(columns: seq<string>, row: Row): Row
    decreases |columns|
  {
    if columns == [] then map[]
    else LowerRow(columns[..|columns| - 1], row)[Lower(columns[|columns| - 1]) := Get(row, columns[|columns| - 1])]
  }

  function LowerLabels(columns: seq<string>): (r: seq<string>)
    ensures |r| == |columns|
    ensures forall i :: 0 <= i < |r| ==> r[i] == Lower(columns[i])
  {
    seq(|columns|, i requires 0 <= i < |columns| => Lower(columns[i]))
  }

  /** `df.columns = df.columns.str.lower()` */
  function LowerTable(t: Table): (r: Table)
    ensures r.columns == LowerLabels(t.columns) && |r.rows| == |t.rows|
  {
    Table(LowerLabels(t.columns), seq(|t.rows|, i requires 0 <= i < |t.rows| => LowerRow(t.columns, t.rows[i])))
  }

  /**
   * With no two labels equal once lower-cased, the lower-cased row holds,
   * under each lower-cased label, the cell of the original label.
   */
  lemma {:induction false} LowerRowGet(columns: seq<string>, row: Row, i: nat)
    requires i < |columns|
    requires forall j :: 0 <= j < |columns| && j != i ==> Lower(columns[j]) != Lower(columns[i])
    ensures Get(LowerRow(columns, row), Lower(columns[i])) == Get(row, columns[i])
    decreases |columns|
  {
    var n := |columns| - 1;
    if i < n {
      LowerRowGet(columns[..n], row, i);
    }
  }

  /** The lower-cased row has exactly the lower-cased labels as keys. */
  lemma {:induction false} LowerRowKeys(columns: seq<string>, row: Row)
    ensures LowerRow(columns, row).Keys == set c | c in columns :: Lower(c)
    decreases |columns|
  {
    if columns != [] {
      var n := |columns| - 1;
      LowerRowKeys(columns[..n], row);
      assert columns == columns[..n] + [columns[n]];
    }
  }

  // ---------------------------------------------------------------------
  // The purposes that count

  /** `pd.api.types.is_numeric_dtype(df[p])`: every cell a number or NaN. */
  predicate NumericColumn(rows: seq<Row>, p: string) {
    forall r :: r in rows ==> Get(r, p).Num? || Get(r, p).Missing?
  }

  /** A selected purpose is used iff it is valid for the category and a numeric column. */
  predicate Usable(t: Table, category: string, p: string) {
    p in ValidLower(category) && p in t.columns && NumericColumn(t.rows, p)
  }

  /** The purposes used, in selection order; a purpose selected twice is used twice. */
  function Effective(names: seq<string>, t: Table, category: string): (r: seq<string>)
    ensures forall p :: p in r ==> p in names && Usable(t, category, p)
    ensures (forall p :: p in names ==> !Usable(t, category, p)) ==> r == []
    decreases |names|
  {
    if names == [] then []
    else
      var p := names[|names| - 1];
      Effective(names[..|names| - 1], t, category) + (if Usable(t, category, p) then [p] else [])
  }

  /** Each selection of a usable purpose contributes one entry; an unusable one none. */
  lemma {:induction false} EffectiveCounts(names: seq<string>, t: Table, category: string, p: string)
    ensures multiset(Effective(names, t, category))[p] == if Usable(t, category, p) then multiset(names)[p] else 0
    decreases |names|
  {
    if names != [] {
      var n := |names| - 1;
      EffectiveCounts(names[..n], t, category, p);
      assert names == names[..n] + [names[n]];
    }
  }

  // ---------------------------------------------------------------------
  // Filling and averaging

  /** `fillna(0)` on one cell. */
  function Fill(c: Cell): Cell {
    if c.Missing? then Num(0.0) else c
  }

  /** The value a cell contributes to a mean: its number, or 0 for NaN. */
  function Value(c: Cell): real {
    if c.Num? then c.n else 0.0
  }

  /** `df[p] = df[p].fillna(0)` */
  function FillColumn(rows: seq<Row>, p: string): (r: seq<Row>)
    ensures |r| == |rows|
  {
    seq(|rows|, i requires 0 <= i < |rows| => rows[i][p := Fill(Get(rows[i], p))])
  }

  /** The rows after filling each purpose column in turn. */
  function FillColumns(rows: seq<Row>, ps: seq<string>): (r: seq<Row>)
    ensures |r| == |rows|
    decreases |ps|
  {
    if ps == [] then rows else FillColumn(FillColumns(rows, ps[..|ps| - 1]), ps[|ps| - 1])
  }

  /** The sum of a row's values in the given columns, a column listed twice counted twice. */
  function Total(row: Row, ps: seq<string>): real
    decreases |ps|
  {
    if ps == [] then 0.0 else Total(row, ps[..|ps| - 1]) + Value(Get(row, ps[|ps| - 1]))
  }

  /** `df[ps].astype(float).mean(axis=1)` for one row. */
  function RowMean(row: Row, ps: seq<string>): real
    requires ps != []
  {
    Total(row, ps) / |ps| as real
  }

  /** The scored table `calculate_scores` returns. */
  function Scored(t: Table, category: string, criteria: Criteria): Result<Table, Error> {
    var names :- PurposeNames(criteria);
    var lt := LowerTable(t);
    var use := Effective(names, lt, category);
    var columns := lt.columns + (if ScoreColumn in lt.columns then [] else [ScoreColumn]);
    if use == [] then
      Ok(Table(columns, seq(|lt.rows|, i requires 0 <= i < |lt.rows| => lt.rows[i][ScoreColumn := Num(0.0)])))
    else
      var filled := FillColumns(lt.rows, use);
      Ok(Table(columns, seq(|filled|, i requires 0 <= i < |filled| =>
        filled[i][ScoreColumn := Num(RowMean(filled[i], use))])))
  }

  /** Lines 509-514: keep each selected purpose that is valid and a numeric column. */
  method CollectPurposes(names: seq<string>, lt: Table, category: string) returns (use: seq<string>)
    ensures use == Effective(names, lt, category)
  {
    var valid := ValidLower(category);
    use := [];
    for k := 0 to |names|
      invariant use == Effective(names[..k], lt, category)
    {
      var p := names[k];
      assert names[..k + 1][..k] == names[..k];
      if p in valid && p in lt.columns {
        if NumericColumn(lt.rows, p) {
          use := use + [p];
        }
      }
    }
    assert names[..|names|] == names;
  }

  /** Lines 522-528: fill the NaN of each used purpose column with 0. */
  method FillPurposes(rows0: seq<Row>, use: seq<string>) returns (rows: seq<Row>)
    ensures rows == FillColumns(rows0, use)
  {
    rows := rows0;
    for k := 0 to |use|
      invariant rows == FillColumns(rows0, use[..k])
    {
      assert use[..k + 1][..k] == use[..k];
      if exists i :: 0 <= i < |rows| && Get(rows[i], use[k]).Missing? {
        rows := FillColumn(rows, use[k]);
      } else {
        FillWithoutNaN(rows, use[k]);
      }
    }
    assert use[..|use|] == use;
  }

  /**
   * Lines 500-551: lower-case the labels, collect the usable purposes, fill
   * their NaN with 0, and store each row's mean as `score` (0 when no purpose
   * is usable). The diagnostics printed along the way are left out.
   */
  method CalculateScores(t: Table, category: string, criteria: Criteria) returns (r: Result<Table, Error>)
    ensures r == Scored(t, category, criteria)
  {
    var names :- PurposeNames(criteria);
    var lt := LowerTable(t);
    var use := CollectPurposes(names, lt, category);
    var columns := lt.columns + (if ScoreColumn in lt.columns then [] else [ScoreColumn]);
    if use == [] {
      var rows := seq(|lt.rows|, i requires 0 <= i < |lt.rows| => lt.rows[i][ScoreColumn := Num(0.0)]);
      return Ok(Table(columns, rows));
    }
    var filled := FillPurposes(lt.rows, use);
    var rows := seq(|filled|, i requires 0 <= i < |filled| => filled[i][ScoreColumn := Num(RowMean(filled[i], use))]);
    return Ok(Table(columns, rows));
  }

  /** Filling a column that holds no NaN changes nothing. */
  lemma FillWithoutNaN(rows: seq<Row>, p: string)
    requires forall i :: 0 <= i < |rows| ==> !Get(rows[i], p).Missing?
    ensures FillColumn(rows, p) == rows
  {
    forall i | 0 <= i < |rows| ensures FillColumn(rows, p)[i] == rows[i] {
      assert p in rows[i];
    }
  }

  // ---------------------------------------------------------------------
  // What the scores mean

  /** Filling changes a purpose cell only from NaN to 0 and leaves other columns alone. */
  lemma {:induction false} FillColumnsGet(rows: seq<Row>, ps: seq<string>, i: nat, c: string)
    requires i < |rows|
    ensures Get(FillColumns(rows, ps)[i], c) == if c in ps then Fill(Get(rows[i], c)) else Get(rows[i], c)
    decreases |ps|
  {
    if ps != [] {
      var n := |ps| - 1;
      FillColumnsGet(rows, ps[..n], i, c);
      assert ps == ps[..n] + [ps[n]];
    }
  }

  /** Filling does not change the value a cell contributes. */
  lemma {:induction false} TotalOfFilled(rows: seq<Row>, ps: seq<string>, qs: seq<string>, i: nat)
    requires i < |rows|
    ensures Total(FillColumns(rows, ps)[i], qs) == Total(rows[i], qs)
    decreases |qs|
  {
    if qs != [] {
      var n := |qs| - 1;
      TotalOfFilled(rows, ps, qs[..n], i);
      FillColumnsGet(rows, ps, i, qs[n]);
    }
  }

  /** Scoring keeps the rows, in order, and adds the `score` label to the lower-cased ones. */
  lemma ScoredShape(t: Table, category: string, criteria: Criteria)
    requires Scored(t, category, criteria).Ok?
    ensures |Scored(t, category, criteria).value.rows| == |t.rows|
    ensures ScoreColumn in Scored(t, category, criteria).value.columns
    ensures forall c :: c in t.columns ==> Lower(c) in Scored(t, category, criteria).value.columns
  {
  }

  /**
   * The score of every row is a number: the mean of the row's values in the
   * used purpose columns, NaN read as 0, or 0 when no purpose is used.
   */
  lemma ScoreIsMean(t: Table, category: string, criteria: Criteria, i: nat)
    requires Scored(t, category, criteria).Ok? && i < |t.rows|
    ensures var lt := LowerTable(t);
      var use := Effective(PurposeNames(criteria).value, lt, category);
      Get(Scored(t, category, criteria).value.rows[i], ScoreColumn) ==
        Num(if use == [] then 0.0 else Total(lt.rows[i], use) / |use| as real)
  {
    var lt := LowerTable(t);
    var use := Effective(PurposeNames(criteria).value, lt, category);
    if use != [] {
      TotalOfFilled(lt.rows, use, use, i);
    }
  }

  /** Without a usable purpose, in particular for an unknown category, every score is 0. */
  lemma NoPurposeScoresZero(t: Table, category: string, criteria: Criteria)
    requires Scored(t, category, criteria).Ok?
    requires forall p :: p in PurposeNames(criteria).value ==> !Usable(LowerTable(t), category, p)
    ensures forall r :: r in Scored(t, category, criteria).value.rows ==> Get(r, ScoreColumn) == Num(0.0)
  {
  }

  /**
   * Scoring touches no other column: a used purpose's NaN becomes 0, every
   * other cell keeps its value under its lower-cased label.
   */
  lemma ScoringKeepsCells(t: Table, category: string, criteria: Criteria, i: nat, c: string)
    requires Scored(t, category, criteria).Ok? && i < |t.rows| && c != ScoreColumn
    ensures var lt := LowerTable(t);
      var use := Effective(PurposeNames(criteria).value, lt, category);
      Get(Scored(t, category, criteria).value.rows[i], c) ==
        if c in use then Fill(Get(lt.rows[i], c)) else Get(lt.rows[i], c)
  {
    var lt := LowerTable(t);
    var use := Effective(PurposeNames(criteria).value, lt, category);
    if use != [] {
      FillColumnsGet(lt.rows, use, i, c);
    }
  }

  lemma {:induction false} TotalBounds(row: Row, ps: seq<string>, lo: real, hi: real)
    requires forall p :: p in ps ==> lo <= Value(Get(row, p)) <= hi
    ensures |ps| as real * lo <= Total(row, ps) <= |ps| as real * hi
    decreases |ps|
  {
    if ps != [] {
      TotalBounds(row, ps[..|ps| - 1], lo, hi);
    }
  }

  /** A mean lies between the least and the greatest value it averages. */
  lemma MeanBounds(row: Row, ps: seq<string>, lo: real, hi: real)
    requires ps != []
    requires forall p :: p in ps ==> lo <= Value(Get(row, p)) <= hi
    ensures lo <= RowMean(row, ps) <= hi
  {
    TotalBounds(row, ps, lo, hi);
    var n := |ps| as real;
    var m := Total(row, ps) / n;
    assert m * n == Total(row, ps);
    assert (hi - m) * n >= 0.0;
    assert (m - lo) * n >= 0.0;
  }

  /**
   * Purpose ratings between 0 and 1 (NaN read as 0) give a score between 0
   * and 1.
   */
  lemma ScoreInUnitRange(t: Table, category: string, criteria: Criteria, i: nat)
    requires Scored(t, category, criteria).Ok? && i < |t.rows|
    requires forall p :: p in Effective(PurposeNames(criteria).value, LowerTable(t), category) ==>
      0.0 <= Value(Get(LowerTable(t).rows[i], p)) <= 1.0
    ensures Get(Scored(t, category, criteria).value.rows[i], ScoreColumn).Num?
    ensures 0.0 <= Get(Scored(t, category, criteria).value.rows[i], ScoreColumn).n <= 1.0
  {
    var lt := LowerTable(t);
    var use := Effective(PurposeNames(criteria).value, lt, category);
    ScoreIsMean(t, category, criteria, i);
    if use != [] {
      MeanBounds(lt.rows[i], use, 0.0, 1.0);
    }
  }

  /**
   * Travel rated 0.8 and sports 0.4 average to 0.6; selecting travel twice
   * weighs it twice, giving 2/3.
   */
  lemma DuplicatesCountTwice()
    ensures RowMean(map["travel" := Num(0.8), "sports" := Num(0.4)], ["travel", "sports"]) == 0.6
    ensures RowMean(map["travel" := Num(1.0), "sports" := Num(0.0)], ["travel", "travel", "sports"]) == 2.0 / 3.0
  {
    var a := map["travel" := Num(0.8), "sports" := Num(0.4)];
    assert Total(a, ["travel", "sports"]) == Total(a, ["travel"]) + 0.4 by {
      assert ["travel", "sports"][..1] == ["travel"];
    }
    assert Total(a, ["travel"]) == 0.8 by {
      assert ["travel"][..0] == [];
    }
    var b := map["travel" := Num(1.0), "sports" := Num(0.0)];
    assert Total(b, ["travel", "travel", "sports"]) == Total(b, ["travel", "travel"]) by {
      assert ["travel", "travel", "sports"][..2] == ["travel", "travel"];
    }
    assert Total(b, ["travel", "travel"]) == Total(b, ["travel"]) + 1.0 by {
      assert ["travel", "travel"][..1] == ["travel"];
    }
    assert Total(b, ["travel"]) == 1.0 by {
      assert ["travel"][..0] == [];
    }
  }
}
