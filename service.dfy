/**
 * The `/recommend` endpoint: pick the category's table, filter it, score it,
 * sort it by score and turn each row into a recommendation record.
 */
module Service {
  import opened Values
  import opened Text
  import Selection
  import Filters
  import Scoring
  import Ranking
  import Catalog

  /** The message returned when no product is left after filtering. */
  const NoMatchMessage := "Không tìm thấy sản phẩm phù hợp"

  /** The labels that become fields of their own and stay out of `details`. */
  const Excluded: seq<string> := ["model", "price", "score", "colour", "condition", "series", "free gift"]

  /** One recommended product. */
  datatype Record = Record(
    model: Cell,
    price: Cell,
    score: Cell,
    colour: Cell,
    series: Cell,
    condition: Cell,
    freeGift: Cell,
    details: map<string, Cell>)

  /** The response body: the records, or the message that nothing matched. */
  datatype Response = Recommendations(items: seq<Record>) | NoMatch(message: string)

  // ---------------------------------------------------------------------
  // One record

  /** `row.get(key, default)` on a row whose labels are `labels`. */
  function Field(labels: seq<string>, row: Row, key: string, default: Cell): Cell {
    if key in labels then Get(row, key) else default
  }

  /** `round(value, 2)`: numbers are rounded, NaN stays NaN, a string raises. */
  function RoundCell(c: Cell): (r: Result<Cell, Error>)
    ensures r.Ok? <==> !c.Text?
    ensures c.Num? ==> r == Ok(Num(Ranking.Round2(c.n)))
    ensures c.Missing? ==> r == Ok(Missing)
  {
    match c
    case Num(x) => Ok(Num(Ranking.Round2(x)))
    case Missing => Ok(Missing)
    case Text(_) => Err(NotRoundable)
  }

  /**
   * Lines 582-594: rename the row's labels to lower case and read the seven
   * named fields, each with its fallback; every other label goes to
   * `details`.
   */
  function FormatRecord(columns: seq<string>, row: Row): (r: Result<Record, Error>)
    ensures r.Err? <==> Field(Scoring.LowerLabels(columns), Scoring.LowerRow(columns, row), "score", Num(0.0)).Text?
    ensures r.Err? ==> r.error == NotRoundable
    ensures r.Ok? ==> forall c :: c in r.value.details <==> c in Scoring.LowerLabels(columns) && c !in Excluded
  {
    var labels := Scoring.LowerLabels(columns);
    var named := Scoring.LowerRow(columns, row);
    var score :- RoundCell(Field(labels, named, "score", Num(0.0)));
    Ok(Record(
      model := Field(labels, named, "model", Text("unknown")),
      price := Field(labels, named, "price", Text("N/A")),
      score := score,
      colour := Field(labels, named, "colour", Text("black")),
      series := Field(labels, named, "series", Text("")),
      condition := Field(labels, named, "condition", Text("unknown")),
      freeGift := Field(labels, named, "free gift", Text("none")),
      details := map c | c in labels && c !in Excluded :: Get(named, c)))
  }

  // ---------------------------------------------------------------------
  // All records

  /** The outcomes in order, stopping at the first error. */
  function Collect(outcomes: seq<Result<Record, Error>>): Result<seq<Record>, Error>
    decreases |outcomes|
  {
    if outcomes == [] then Ok([])
    else
      var front :- Collect(outcomes[..|outcomes| - 1]);
      var last :- outcomes[|outcomes| - 1];
      Ok(front + [last])
  }

  /** The outcome of formatting each row. */
  function FormattedRows(columns: seq<string>, rows: seq<Row>): (r: seq<Result<Record, Error>>)
    ensures |r| == |rows|
    ensures forall i :: 0 <= i < |rows| ==> r[i] == FormatRecord(columns, rows[i])
  {
    seq(|rows|, i requires 0 <= i < |rows| => FormatRecord(columns, rows[i]))
  }

  /** The records of the rows in order; the first row that cannot be formatted aborts. */
  function Records(columns: seq<string>, rows: seq<Row>): Result<seq<Record>, Error> {
    Collect(FormattedRows(columns, rows))
  }

  lemma CollectStep(outcomes: seq<Result<Record, Error>>, i: nat)
    requires i < |outcomes|
    ensures Collect(outcomes[..i + 1]) ==
      match Collect(outcomes[..i])
      case Err(e) => Err(e)
      case Ok(items) =>
        match outcomes[i]
        case Err(e) => Err(e)
        case Ok(item) => Ok(items + [item])
  {
    assert outcomes[..i + 1][..i] == outcomes[..i];
  }

  /** Once a prefix fails, collecting all outcomes fails with its error. */
  lemma {:induction false} CollectStops(outcomes: seq<Result<Record, Error>>, n: nat)
    requires n <= |outcomes|
    requires Collect(outcomes[..n]).Err?
    ensures Collect(outcomes) == Collect(outcomes[..n])
    decreases |outcomes| - n
  {
    if n < |outcomes| {
      assert outcomes[..n + 1][..n] == outcomes[..n];
      CollectStops(outcomes, n + 1);
    } else {
      assert outcomes[..n] == outcomes;
    }
  }

  /** Collecting succeeds exactly when every outcome is a record. */
  lemma {:induction false} CollectSucceeds(outcomes: seq<Result<Record, Error>>)
    ensures Collect(outcomes).Ok? <==> forall i :: 0 <= i < |outcomes| ==> outcomes[i].Ok?
    decreases |outcomes|
  {
    if outcomes != [] {
      var n := |outcomes| - 1;
      CollectSucceeds(outcomes[..n]);
      assert forall i :: 0 <= i < n ==> outcomes[..n][i] == outcomes[i];
    }
  }

  /** On success the collected records are the outcomes' records, in order. */
  lemma {:induction false} CollectInOrder(outcomes: seq<Result<Record, Error>>)
    requires Collect(outcomes).Ok?
    ensures |Collect(outcomes).value| == |outcomes|
    ensures forall i :: 0 <= i < |outcomes| ==> outcomes[i] == Ok(Collect(outcomes).value[i])
    decreases |outcomes|
  {
    if outcomes != [] {
      var n := |outcomes| - 1;
      CollectInOrder(outcomes[..n]);
      var items := Collect(outcomes).value;
      assert outcomes[n].Ok? && items == Collect(outcomes[..n]).value + [outcomes[n].value];
      forall i | 0 <= i < |outcomes|
        ensures outcomes[i] == Ok(items[i])
      {
        if i < n {
          assert outcomes[..n][i] == outcomes[i];
        }
      }
    }
  }

  /**
   * Formatting succeeds exactly when every row formats, and then yields one
   * record per row, in row order.
   */
  lemma RecordsMeaning(columns: seq<string>, rows: seq<Row>)
    ensures Records(columns, rows).Ok? <==> forall i :: 0 <= i < |rows| ==> FormatRecord(columns, rows[i]).Ok?
    ensures Records(columns, rows).Ok? ==> |Records(columns, rows).value| == |rows|
    ensures Records(columns, rows).Ok? ==>
      forall i :: 0 <= i < |rows| ==> FormatRecord(columns, rows[i]) == Ok(Records(columns, rows).value[i])
  {
    var outcomes := FormattedRows(columns, rows);
    CollectSucceeds(outcomes);
    if Collect(outcomes).Ok? {
      CollectInOrder(outcomes);
    }
  }

  /** Lines 581-595: format every sorted row in turn. */
  method FormatRecommendations(columns: seq<string>, rows: seq<Row>) returns (r: Result<seq<Record>, Error>)
    ensures r == Records(columns, rows)
  {
    ghost var outcomes := FormattedRows(columns, rows);
    var items: seq<Record> := [];
    for i := 0 to |rows|
      invariant Collect(outcomes[..i]) == Ok(items)
    {
      var rec := FormatRecord(columns, rows[i]);
      CollectStep(outcomes, i);
      if rec.Err? {
        CollectStops(outcomes, i + 1);
        return Err(rec.error);
      }
      items := items + [rec.value];
    }
    assert outcomes[..|rows|] == outcomes;
    return Ok(items);
  }

  // ---------------------------------------------------------------------
  // The endpoint

  /**
   * Lines 555-601: the response for a category and criteria, given the
   * loaded tables. Every error surfaces the same way (an HTTP 500, the
   * unknown category's 400 included), so the model keeps only which error
   * it is.
   */
  function Recommendation(catalog: map<string, Table>, category: string, criteria: Criteria): Result<Response, Error> {
    var name := Lower(category);
    if name !in catalog then Err(InvalidCategory)
    else
      var filtered :- Filters.ApplyFilters(catalog[name], name, criteria);
      var scored :- Scoring.Scored(filtered, name, criteria);
      var ranked := Ranking.SortByScore(scored.rows);
      if ranked == [] then Ok(NoMatch(NoMatchMessage))
      else
        var items :- Records(scored.columns, ranked);
        Ok(Recommendations(items))
  }

  method Recommend(catalog: map<string, Table>, category: string, criteria: Criteria) returns (r: Result<Response, Error>)
    ensures r == Recommendation(catalog, category, criteria)
  {
    var name := Lower(category);
    if name !in catalog {
      return Err(InvalidCategory);
    }
    var table := catalog[name];
    var filtered :- Filters.ApplyFilters(table, name, criteria);
    var scored :- Scoring.CalculateScores(filtered, name, criteria);
    var ranked := Ranking.SortByScore(scored.rows);
    if ranked == [] {
      return Ok(NoMatch(NoMatchMessage));
    }
    var items :- FormatRecommendations(scored.columns, ranked);
    return Ok(Recommendations(items));
  }

  // ---------------------------------------------------------------------
  // Records of scored rows

  /** Every label is already in lower case. */
  predicate LowerCased(columns: seq<string>) {
    forall c :: c in columns ==> Lower(c) == c
  }

  /** Renaming a row whose labels are already in lower case reads every label's own cell. */
  lemma {:induction false} RenameLowered(columns: seq<string>, row: Row, c: string)
    requires LowerCased(columns) && c in columns
    ensures Get(Scoring.LowerRow(columns, row), c) == Get(row, c)
    decreases |columns|
  {
    var n := |columns| - 1;
    if columns[n] != c {
      assert c in columns[..n] by {
        var k :| 0 <= k < |columns| && columns[k] == c;
        assert columns[..n][k] == c;
      }
      RenameLowered(columns[..n], row, c);
    }
  }

  lemma LowerLabelsLowered(columns: seq<string>)
    requires LowerCased(columns)
    ensures Scoring.LowerLabels(columns) == columns
  {
  }

  /**
   * Scoring leaves lower-case labels, `score` among them, and gives every
   * row a numeric score.
   */
  lemma ScoredForFormatting(t: Table, category: string, criteria: Criteria)
    requires Scoring.Scored(t, category, criteria).Ok?
    ensures LowerCased(Scoring.Scored(t, category, criteria).value.columns)
    ensures "score" in Scoring.Scored(t, category, criteria).value.columns
    ensures forall r :: r in Scoring.Scored(t, category, criteria).value.rows ==> Get(r, "score").Num?
  {
    Scoring.ScoredShape(t, category, criteria);
    ScoredLabels(t, category, criteria);
    ScoredNumbers(t, category, criteria);
  }

  lemma ScoredLabels(t: Table, category: string, criteria: Criteria)
    requires Scoring.Scored(t, category, criteria).Ok?
    ensures LowerCased(Scoring.Scored(t, category, criteria).value.columns)
  {
    var columns := Scoring.Scored(t, category, criteria).value.columns;
    var lowered := Scoring.LowerLabels(t.columns);
    assert columns == lowered + (if "score" in lowered then [] else ["score"]);
    forall c | c in columns
      ensures Lower(c) == c
    {
      if c in lowered {
        var k :| 0 <= k < |t.columns| && lowered[k] == c;
        LowerIdempotent(t.columns[k]);
      }
    }
  }

  lemma ScoredNumbers(t: Table, category: string, criteria: Criteria)
    requires Scoring.Scored(t, category, criteria).Ok?
    ensures forall r :: r in Scoring.Scored(t, category, criteria).value.rows ==> Get(r, "score").Num?
  {
    var rows := Scoring.Scored(t, category, criteria).value.rows;
    Scoring.ScoredShape(t, category, criteria);
    forall r | r in rows
      ensures Get(r, "score").Num?
    {
      var i :| 0 <= i < |rows| && rows[i] == r;
      Scoring.ScoreIsMean(t, category, criteria, i);
    }
  }

  /**
   * A row with lower-case labels and a numeric score always formats: each
   * named field is the row's cell under that label, or the field's fallback
   * when the label is absent, the score is rounded to two decimals, and
   * `details` holds every other label's cell.
   */
  lemma RecordOfRow(columns: seq<string>, row: Row)
    requires LowerCased(columns) && "score" in columns && Get(row, "score").Num?
    ensures FormatRecord(columns, row).Ok?
    ensures var rec := FormatRecord(columns, row).value;
      rec.score == Num(Ranking.Round2(Get(row, "score").n)) &&
      rec.model == (if "model" in columns then Get(row, "model") else Text("unknown")) &&
      rec.price == (if "price" in columns then Get(row, "price") else Text("N/A")) &&
      rec.colour == (if "colour" in columns then Get(row, "colour") else Text("black")) &&
      rec.series == (if "series" in columns then Get(row, "series") else Text("")) &&
      rec.condition == (if "condition" in columns then Get(row, "condition") else Text("unknown")) &&
      rec.freeGift == (if "free gift" in columns then Get(row, "free gift") else Text("none")) &&
      rec.details == map c | c in columns && c !in Excluded :: Get(row, c)
  {
    LowerLabelsLowered(columns);
    var named := Scoring.LowerRow(columns, row);
    forall c | c in columns
      ensures Get(named, c) == Get(row, c)
    {
      RenameLowered(columns, row, c);
    }
  }

  /** Every score of a formatted scored row is within half a hundredth of the row's score. */
  lemma RecordScoreClose(columns: seq<string>, row: Row)
    requires LowerCased(columns) && "score" in columns && Get(row, "score").Num?
    ensures FormatRecord(columns, row).Ok? && FormatRecord(columns, row).value.score.Num?
    ensures -0.005 <= FormatRecord(columns, row).value.score.n - Get(row, "score").n <= 0.005
  {
    RecordOfRow(columns, row);
    Ranking.RoundClose(Get(row, "score").n);
  }

  // ---------------------------------------------------------------------
  // What a response means

  /** Rows fit for formatting: lower-case labels, `score` among them, every score a number. */
  predicate Formattable(columns: seq<string>, rows: seq<Row>) {
    LowerCased(columns) && "score" in columns && forall r :: r in rows ==> Get(r, "score").Num?
  }

  /** Sorted formattable rows all format, one record per row in sorted order. */
  lemma SortedRecords(columns: seq<string>, rows: seq<Row>)
    requires Formattable(columns, rows)
    ensures var ranked := Ranking.SortByScore(rows);
      Records(columns, ranked).Ok? && |Records(columns, ranked).value| == |ranked| &&
      forall i :: 0 <= i < |ranked| ==> FormatRecord(columns, ranked[i]) == Ok(Records(columns, ranked).value[i])
  {
    var ranked := Ranking.SortByScore(rows);
    forall i | 0 <= i < |ranked|
      ensures FormatRecord(columns, ranked[i]).Ok?
    {
      assert ranked[i] in multiset(rows);
      RecordOfRow(columns, ranked[i]);
    }
    RecordsMeaning(columns, ranked);
  }

  /** The score of a formatted row, in short. */
  lemma RecordScore(columns: seq<string>, row: Row)
    requires LowerCased(columns) && "score" in columns && Get(row, "score").Num?
    ensures FormatRecord(columns, row).Ok?
    ensures FormatRecord(columns, row).value.score == Num(Ranking.Round2(Get(row, "score").n))
  {
    RecordOfRow(columns, row);
  }

  /**
   * The records of sorted formattable rows: one per row, each the record of
   * one of the rows, in non-increasing order of rounded score.
   */
  lemma RankedRecords(columns: seq<string>, rows: seq<Row>)
    requires Formattable(columns, rows)
    ensures Records(columns, Ranking.SortByScore(rows)).Ok?
    ensures var items := Records(columns, Ranking.SortByScore(rows)).value;
      |items| == |rows| &&
      (forall i :: 0 <= i < |items| ==> items[i].score.Num?) &&
      (forall i, j :: 0 <= i < j < |items| ==> items[i].score.n >= items[j].score.n) &&
      forall i :: 0 <= i < |items| ==>
        exists k :: 0 <= k < |rows| && FormatRecord(columns, rows[k]) == Ok(items[i])
  {
    var ranked := Ranking.SortByScore(rows);
    SortedRecords(columns, rows);
    var items := Records(columns, ranked).value;
    SortedFormattable(columns, rows);
    RankedScores(columns, ranked, items);
    forall i | 0 <= i < |items|
      ensures exists k :: 0 <= k < |rows| && FormatRecord(columns, rows[k]) == Ok(items[i])
    {
      assert ranked[i] in multiset(rows);
      var k :| 0 <= k < |rows| && rows[k] == ranked[i];
    }
  }

  /** Sorting keeps rows formattable. */
  lemma SortedFormattable(columns: seq<string>, rows: seq<Row>)
    requires Formattable(columns, rows)
    ensures Formattable(columns, Ranking.SortByScore(rows))
  {
    forall r | r in Ranking.SortByScore(rows)
      ensures Get(r, "score").Num?
    {
      assert r in multiset(Ranking.SortByScore(rows));
    }
  }

  /** Records of rows in descending score order carry non-increasing rounded scores. */
  lemma RankedScores(columns: seq<string>, ranked: seq<Row>, items: seq<Record>)
    requires Formattable(columns, ranked) && Ranking.Descending(ranked)
    requires |items| == |ranked| && forall i :: 0 <= i < |ranked| ==> FormatRecord(columns, ranked[i]) == Ok(items[i])
    ensures forall i :: 0 <= i < |items| ==> items[i].score.Num?
    ensures forall i, j :: 0 <= i < j < |items| ==> items[i].score.n >= items[j].score.n
  {
    forall i | 0 <= i < |items|
      ensures Get(ranked[i], "score").Num? && items[i].score == Num(Ranking.Round2(Get(ranked[i], "score").n))
    {
      assert ranked[i] in ranked;
      RecordScore(columns, ranked[i]);
    }
    forall i, j | 0 <= i < j < |items|
      ensures items[i].score.n >= items[j].score.n
    {
      assert Ranking.Precedes(ranked[i], ranked[j]);
      Ranking.RoundMonotone(Get(ranked[j], "score").n, Get(ranked[i], "score").n);
    }
  }

  /**
   * The request fails exactly when the category is unknown, the filters
   * raise, or the purposes cannot be read; formatting never fails on a
   * scored table. The error is the first of these.
   */
  lemma RecommendationErrors(catalog: map<string, Table>, category: string, criteria: Criteria)
    ensures var name := Lower(category); var r := Recommendation(catalog, category, criteria);
      r.Err? ==>
        (name !in catalog && r.error == InvalidCategory) ||
        (name in catalog && Filters.ApplyFilters(catalog[name], name, criteria).Err? &&
         r.error == Filters.ApplyFilters(catalog[name], name, criteria).error) ||
        (name in catalog && Filters.ApplyFilters(catalog[name], name, criteria).Ok? &&
         Scoring.PurposeNames(criteria).Err? && r.error == Scoring.PurposeNames(criteria).error)
    ensures var name := Lower(category);
      Recommendation(catalog, category, criteria).Ok? <==>
        (name in catalog && Filters.ApplyFilters(catalog[name], name, criteria).Ok? &&
         Scoring.PurposeNames(criteria).Ok?)
  {
    var name := Lower(category);
    if name in catalog && Filters.ApplyFilters(catalog[name], name, criteria).Ok? {
      var filtered := Filters.ApplyFilters(catalog[name], name, criteria).value;
      if Scoring.Scored(filtered, name, criteria).Ok? {
        var scored := Scoring.Scored(filtered, name, criteria).value;
        ScoredForFormatting(filtered, name, criteria);
        SortedRecords(scored.columns, scored.rows);
      }
    }
  }

  /** The "nothing found" message comes exactly when no row survives the filters. */
  lemma NoMatchExactly(catalog: map<string, Table>, category: string, criteria: Criteria)
    ensures var name := Lower(category);
      Recommendation(catalog, category, criteria) == Ok(NoMatch(NoMatchMessage)) <==>
        (name in catalog && Filters.ApplyFilters(catalog[name], name, criteria).Ok? &&
         Scoring.PurposeNames(criteria).Ok? && Filters.ApplyFilters(catalog[name], name, criteria).value.rows == [])
  {
    var name := Lower(category);
    if name in catalog && Filters.ApplyFilters(catalog[name], name, criteria).Ok? {
      var filtered := Filters.ApplyFilters(catalog[name], name, criteria).value;
      if Scoring.Scored(filtered, name, criteria).Ok? {
        Scoring.ScoredShape(filtered, name, criteria);
        var scored := Scoring.Scored(filtered, name, criteria).value;
        Ranking.SortKeepsEmptiness(scored.rows);
        ScoredForFormatting(filtered, name, criteria);
        SortedRecords(scored.columns, scored.rows);
      }
    }
  }

  /**
   * A list of recommendations holds one record per row that survived the
   * filters, each the record of one scored row, in non-increasing order of
   * rounded score.
   */
  lemma RecommendationsRanked(catalog: map<string, Table>, category: string, criteria: Criteria)
    requires Recommendation(catalog, category, criteria).Ok?
    requires Recommendation(catalog, category, criteria).value.Recommendations?
    ensures var name := Lower(category);
      var filtered := Filters.ApplyFilters(catalog[name], name, criteria).value;
      var scored := Scoring.Scored(filtered, name, criteria).value;
      var items := Recommendation(catalog, category, criteria).value.items;
      |items| == |filtered.rows| > 0 &&
      (forall i :: 0 <= i < |items| ==> items[i].score.Num?) &&
      (forall i, j :: 0 <= i < j < |items| ==> items[i].score.n >= items[j].score.n) &&
      forall i :: 0 <= i < |items| ==>
        exists k :: 0 <= k < |scored.rows| && FormatRecord(scored.columns, scored.rows[k]) == Ok(items[i])
  {
    var name := Lower(category);
    var filtered := Filters.ApplyFilters(catalog[name], name, criteria).value;
    var scored := Scoring.Scored(filtered, name, criteria).value;
    Scoring.ScoredShape(filtered, name, criteria);
    ScoredForFormatting(filtered, name, criteria);
    RankedRecords(scored.columns, scored.rows);
  }

  // ---------------------------------------------------------------------
  // Requests against the catalog as loaded

  /** Category names are not repeated. */
  predicate DistinctNames(specs: seq<(string, Table)>) {
    forall a, b :: 0 <= a < b < |specs| ==> specs[a].0 != specs[b].0
  }

  /** The loaded catalog holds each category's table under its name. */
  lemma LoadedTable(specs: seq<(string, Table)>, inventory: Table, i: nat)
    requires DistinctNames(specs) && Catalog.Loaded(specs, inventory).Ok? && i < |specs|
    ensures Catalog.PrepareInventory(inventory).Ok?
    ensures Catalog.CategoryTable(specs[i].1, Catalog.PrepareInventory(inventory).value).Ok?
    ensures specs[i].0 in Catalog.Loaded(specs, inventory).value
    ensures Catalog.Loaded(specs, inventory).value[specs[i].0] ==
      Catalog.CategoryTable(specs[i].1, Catalog.PrepareInventory(inventory).value).value
  {
    Catalog.LoadedMeaning(specs, inventory);
  }

  /**
   * With the catalog as loaded, a camera request for a flip screen of a given
   * type always fails: the camera sheet spells its column 'Flipscreen Type',
   * while the filter reads 'Flipscreen type'.
   */
  lemma LoadedCamerasRejectFlipscreenType(specs: seq<(string, Table)>, inventory: Table, i: nat,
                                          category: string, criteria: Criteria)
    requires DistinctNames(specs) && Catalog.Loaded(specs, inventory).Ok?
    requires i < |specs| && specs[i].0 == "cameras" && specs[i].1.columns == Catalog.CameraHeader
    requires Lower(category) == "cameras"
    requires "Flipscreen" in criteria && criteria["Flipscreen"] == JStr("Yes") && "Flipscreen type" in criteria
    ensures Recommendation(Catalog.Loaded(specs, inventory).value, category, criteria).Err?
  {
    var catalog := Catalog.Loaded(specs, inventory).value;
    LoadedTable(specs, inventory, i);
    Catalog.CameraHeaderLacksFlipscreenType(specs[i].1, Catalog.PrepareInventory(inventory).value);
    Filters.CameraFlipscreenTypeNeedsColumn(catalog["cameras"], criteria);
    RecommendationErrors(catalog, category, criteria);
  }

  /**
   * The response reads the criteria only through the filters and the
   * purposes: criteria the filters treat alike and with the same purposes
   * get the same response.
   */
  lemma SameFiltersSameResponse(catalog: map<string, Table>, category: string, c1: Criteria, c2: Criteria)
    requires Lower(category) in catalog
    requires Filters.ApplyFilters(catalog[Lower(category)], Lower(category), c1) ==
      Filters.ApplyFilters(catalog[Lower(category)], Lower(category), c2)
    requires Scoring.PurposeNames(c1) == Scoring.PurposeNames(c2)
    ensures Recommendation(catalog, category, c1) == Recommendation(catalog, category, c2)
  {
    var name := Lower(category);
    var filtered := Filters.ApplyFilters(catalog[name], name, c1);
    if filtered.Ok? {
      ScoredReadsPurposes(filtered.value, name, c1, c2);
    }
  }

  /** Scoring reads the criteria only through the purposes. */
  lemma ScoredReadsPurposes(t: Table, category: string, c1: Criteria, c2: Criteria)
    requires Scoring.PurposeNames(c1) == Scoring.PurposeNames(c2)
    ensures Scoring.Scored(t, category, c1) == Scoring.Scored(t, category, c2)
  {
  }

  /** A drone table without the obstacle-sensor column ignores that criterion. */
  lemma DronesIgnoreObstacle(catalog: map<string, Table>, category: string, criteria: Criteria)
    requires Lower(category) == "drones" && "drones" in catalog
    requires Filters.ObstacleKey !in catalog["drones"].columns
    ensures Recommendation(catalog, category, criteria) ==
      Recommendation(catalog, category, criteria - {Filters.ObstacleKey})
  {
    var c2 := criteria - {Filters.ObstacleKey};
    Filters.ObstacleNeedsColumn(catalog["drones"], criteria);
    assert Scoring.PurposesKey != Filters.ObstacleKey;
    assert Scoring.PurposeNames(criteria) == Scoring.PurposeNames(c2);
    SameFiltersSameResponse(catalog, category, criteria, c2);
  }

  /**
   * With the catalog as loaded, the obstacle-sensor criterion has no effect
   * on a drone request: the drone sheet's column name starts with a space.
   */
  lemma LoadedDronesIgnoreObstacle(specs: seq<(string, Table)>, inventory: Table, i: nat,
                                   category: string, criteria: Criteria)
    requires DistinctNames(specs) && Catalog.Loaded(specs, inventory).Ok?
    requires i < |specs| && specs[i].0 == "drones" && specs[i].1.columns == Catalog.DroneHeader
    requires Lower(category) == "drones"
    ensures Recommendation(Catalog.Loaded(specs, inventory).value, category, criteria) ==
      Recommendation(Catalog.Loaded(specs, inventory).value, category, criteria - {Filters.ObstacleKey})
  {
    LoadedTable(specs, inventory, i);
    Catalog.DroneHeaderLacksObstacle(specs[i].1, Catalog.PrepareInventory(inventory).value);
    DronesIgnoreObstacle(Catalog.Loaded(specs, inventory).value, category, criteria);
  }

  /**
   * When the payload column holds no strings or is absent, a list of
   * recommendations has one record per row every filter step admits.
   */
  lemma RecommendationCount(catalog: map<string, Table>, category: string, criteria: Criteria)
    requires Lower(category) in catalog && Filters.PayloadNumeric(catalog[Lower(category)])
    requires Recommendation(catalog, category, criteria).Ok?
    requires Recommendation(catalog, category, criteria).value.Recommendations?
    ensures var t := catalog[Lower(category)];
      |Recommendation(catalog, category, criteria).value.items| ==
        |Selection.KeepRows(t.rows, Filters.FilterPlan(Lower(category), criteria, t.columns).steps)|
  {
    var name := Lower(category);
    RecommendationErrors(catalog, category, criteria);
    Filters.ApplyFiltersKeeps(catalog[name], name, criteria);
    RecommendationsRanked(catalog, category, criteria);
  }

  /** In a loaded table the payload column, where there is one, holds no string. */
  lemma LoadedPayloadSettled(specs: seq<(string, Table)>, inventory: Table, i: nat)
    requires DistinctNames(specs) && Catalog.Loaded(specs, inventory).Ok? && i < |specs|
    ensures specs[i].0 in Catalog.Loaded(specs, inventory).value
    ensures Filters.PayloadNumeric(Catalog.Loaded(specs, inventory).value[specs[i].0])
  {
    LoadedTable(specs, inventory, i);
    var stock := Catalog.PrepareInventory(inventory).value;
    Catalog.CategoryColumns(specs[i].1, stock);
    if Filters.PayloadKey in Catalog.CategoryTable(specs[i].1, stock).value.columns {
      assert Catalog.NumericColumns[13] == Filters.PayloadKey;
      Catalog.NumericApartFromInventory();
      Catalog.CategoryNumeric(specs[i].1, stock, Filters.PayloadKey);
    }
  }

  /**
   * With the catalog as loaded, every category recommends exactly as many
   * products as there are rows every filter step admits.
   */
  lemma LoadedRecommendationCount(specs: seq<(string, Table)>, inventory: Table, i: nat,
                                  category: string, criteria: Criteria)
    requires DistinctNames(specs) && Catalog.Loaded(specs, inventory).Ok?
    requires i < |specs| && specs[i].0 == Lower(category)
    requires Recommendation(Catalog.Loaded(specs, inventory).value, category, criteria).Ok?
    requires Recommendation(Catalog.Loaded(specs, inventory).value, category, criteria).value.Recommendations?
    ensures var t := Catalog.Loaded(specs, inventory).value[Lower(category)];
      |Recommendation(Catalog.Loaded(specs, inventory).value, category, criteria).value.items| ==
        |Selection.KeepRows(t.rows, Filters.FilterPlan(Lower(category), criteria, t.columns).steps)|
  {
    LoadedPayloadSettled(specs, inventory, i);
    RecommendationCount(Catalog.Loaded(specs, inventory).value, category, criteria);
  }
}
