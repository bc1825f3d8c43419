/**
 * The normalisation `load_data` applies to every category's spec table
 * before the service answers requests: model names stripped and lower-cased,
 * Yes/No columns encoded as 0/1, numeric columns parsed with failures as 0,
 * then an inner join with the inventory (first row per model) and a default
 * colour. Fetching the inventory and reading the CSV text are not modelled:
 * the tables arrive as inputs.
 */
module Catalog {
  import opened Values
  import opened Text
  import opened Selection

  const ModelColumn := "Model"
  const ColourColumn := "Colour"

  /** The columns encoded as Yes/No flags, when a table has them. */
  const YesNoColumns: seq<string> := [
    "Quality 4K", "Flipscreen", "Film Simulation", "External Mic Input", "Optical Viewfinder",
    "Electronic Viewfinder (EVF)", "USB-C", "Wifi", "Bluetooth", "IBIS",
    "Weathersealing", "Rangefinder-style",
    "Image Stabilization (OIS)", "Tracking", "Orbit Mode", "Auto Rotation", "Vertical Video Recording",
    "Time-lapse", "Follow Mode", "App Connectivity",
    "Slow Motion", "Dual Screen", "Shock Resistance", "Water Resistance"]

  /** The columns parsed as numbers, when a table has them. */
  const NumericColumns: seq<string> := [
    "Weight (gram)", "Resolution (MP)", "ISO Min", "ISO Max",
    "Burst Shooting (fps)", "Battery Life (frames)", "Focal Length (mm)",
    "Max Aperture", "Minimum Focusing Distance (mm)", "Max Flight Time (minutes)",
    "Control Range (km)", "Battery Capability (mAh)", "Maximum Flight Speed (km/h)",
    "Maximum Payload (kg)", "Battery Life (hours)", "Battery Life (minutes)",
    "Number of Stabilization Axes"]

  /** The inventory columns joined onto every spec row, besides the model. */
  const InventoryFields: seq<string> := ["Price", "Colour", "Condition", "Series", "Free Gift"]

  /** The header of the camera spec table. */
  const CameraHeader: seq<string> := [
    "Model", "Weight (gram)", "Sensor Size", "Resolution (MP)", "Quality 4K", "ISO Min", "ISO Max",
    "Flipscreen", "Flipscreen Type", "Film Simulation", "Autofocus Type", "Burst Shooting (fps)",
    "External Mic Input", "Optical Viewfinder", "Electronic Viewfinder (EVF)", "USB-C", "WiFi",
    "Bluetooth", "IBIS", "Weathersealing", "Release Year", "Compatible Lens Type", "Dimensions (mm)",
    "Design Style", "Rangefinder-style", "Battery Life (frames)", "Beginner", "Professional", "Sports",
    "Video", "Daily Use", "Travel", "Vlogging", "Studio"]

  /** The header of the drone spec table; one label starts with a space. */
  const DroneHeader: seq<string> := [
    "Model", "Weight (gram)", "Max Flight Time (minutes)", "Control Range (km)", "Camera Resolution",
    "Frames Per Sec", " Obstacle Avoidance Sensor", "Folded Size (mm)", "Tracking", "Orbit Mode",
    "Auto Rotation", "Wind Resistance", "Battery Capability (mAh)", "Maximum Flight Speed (km/h)",
    "Vertical Video Recording", "Stability", "Sports", "Travel", "Vlogging", "Professional", "Easy Of Use"]

  // ---------------------------------------------------------------------
  // Cell rewrites

  /** `.str.strip().str.lower()`; a value that is not a string becomes NaN. */
  function ModelName(c: Cell): Cell {
    if c.Text? then Text(Lower(Strip(c.s))) else Missing
  }

  /**
   * `.str.strip().str.capitalize().map({'Yes': 1, 'No': 0}).fillna(0)`:
   * only a value reading "Yes" becomes 1; "No", other text and NaN become 0.
   */
  function YesNoFlag(c: Cell): Cell {
    Num(if c.Text? && Capitalize(Strip(c.s)) == "Yes" then 1.0 else 0.0)
  }

  /** `pd.to_numeric(errors='coerce')` followed by `fillna(0)`. */
  function NumberOrZero(c: Cell): Cell {
    match c
    case Num(_) => c
    case Text(s) => Num(match ParseDecimal(s) case Some(v) => v case None => 0.0)
    case Missing => Num(0.0)
  }

  /** `.fillna('black').str.lower()`; a number is not a string and becomes NaN. */
  function ColourOrBlack(c: Cell): Cell {
    match c
    case Missing => Text("black")
    case Text(s) => Text(Lower(s))
    case Num(_) => Missing
  }

  datatype Rewrite = ToModelName | ToFlag | ToNumber | ToColour

  function Apply(w: Rewrite, c: Cell): Cell {
    match w
    case ToModelName => ModelName(c)
    case ToFlag => YesNoFlag(c)
    case ToNumber => NumberOrZero(c)
    case ToColour => ColourOrBlack(c)
  }

  /** `df[col] = <rewrite of df[col]>` on every row. */
  function RewriteColumn(rows: seq<Row>, col: string, w: Rewrite): (r: seq<Row>)
    ensures |r| == |rows|
    ensures forall i :: 0 <= i < |rows| ==> r[i].Keys == rows[i].Keys + {col}
    ensures forall i, c :: 0 <= i < |rows| ==>
      Get(r[i], c) == if c == col then Apply(w, Get(rows[i], col)) else Get(rows[i], c)
  {
    seq(|rows|, i requires 0 <= i < |rows| => rows[i][col := Apply(w, Get(rows[i], col))])
  }

  // ---------------------------------------------------------------------
  // Normalising a spec table

  /** The model pass: only the Model column is rewritten. */
  function ModelPass(columns: seq<string>, c: string, x: Cell): Cell {
    if c == ModelColumn && c in columns then ModelName(x) else x
  }

  /**
   * The cell under column `c` after a loop that, for each name in `names`
   * the table has, rewrites that column with `w`.
   */
  function ColumnPass(columns: seq<string>, names: seq<string>, w: Rewrite, c: string, x: Cell): Cell
    decreases |names|
  {
    if names == [] then x
    else
      var y := ColumnPass(columns, names[..|names| - 1], w, c, x);
      if names[|names| - 1] == c && c in columns then Apply(w, y) else y
  }

  /**
   * The cell under column `c` after the model pass, the Yes/No loop and the
   * numeric loop, for a table with header `columns`.
   */
  function NormalCell(columns: seq<string>, c: string, x: Cell): Cell {
    ColumnPass(columns, NumericColumns, ToNumber, c,
      ColumnPass(columns, YesNoColumns, ToFlag, c, ModelPass(columns, c, x)))
  }

  /** The columns the normalisation writes. */
  function Touched(columns: seq<string>): set<string> {
    set c | c in columns && (c == ModelColumn || c in YesNoColumns || c in NumericColumns)
  }

  function NormalRow(columns: seq<string>, row: Row): Row {
    map c | c in row.Keys + Touched(columns) :: NormalCell(columns, c, Get(row, c))
  }

  /** A normalised row holds, under every column, the normalised cell. */
  lemma NormalRowGet(columns: seq<string>, row: Row, c: string)
    ensures Get(NormalRow(columns, row), c) == NormalCell(columns, c, Get(row, c))
  {
    if c !in row.Keys + Touched(columns) {
      PassSkips(columns, YesNoColumns, ToFlag, c, Missing);
      PassSkips(columns, NumericColumns, ToNumber, c, Missing);
    }
  }

  /** The spec table after lines 171-197; without a Model column it raises KeyError. */
  function Normalised(t: Table): Result<Table, Error> {
    if ModelColumn !in t.columns then Err(MissingColumn(ModelColumn))
    else Ok(Table(t.columns, seq(|t.rows|, i requires 0 <= i < |t.rows| => NormalRow(t.columns, t.rows[i]))))
  }

  function Written(columns: seq<string>, names: seq<string>): set<string> {
    set c | c in names && c in columns
  }

  lemma RowsEqual(a: Row, b: Row)
    requires a.Keys == b.Keys
    requires forall c :: Get(a, c) == Get(b, c)
    ensures a == b
  {
    forall c | c in a.Keys ensures a[c] == b[c] {
      assert Get(a, c) == Get(b, c);
    }
  }

  /**
   * One loop of lines 181-183 or 194-197: for each name in `names` that is
   * a column of the table, rewrite that column with `w`.
   */
  method RewriteColumns(rows0: seq<Row>, columns: seq<string>, names: seq<string>, w: Rewrite)
    returns (rows: seq<Row>)
    ensures |rows| == |rows0|
    ensures forall i :: 0 <= i < |rows| ==> rows[i].Keys == rows0[i].Keys + Written(columns, names)
    ensures forall i, c :: 0 <= i < |rows| ==> Get(rows[i], c) == ColumnPass(columns, names, w, c, Get(rows0[i], c))
  {
    rows := rows0;
    var k := 0;
    while k < |names|
      invariant 0 <= k <= |names|
      invariant |rows| == |rows0|
      invariant forall i :: 0 <= i < |rows| ==> rows[i].Keys == rows0[i].Keys + Written(columns, names[..k])
      invariant forall i, c :: 0 <= i < |rows| ==> Get(rows[i], c) == ColumnPass(columns, names[..k], w, c, Get(rows0[i], c))
    {
      var col := names[k];
      ghost var before := rows;
      assert names[..k + 1][..k] == names[..k];
      assert names[..k + 1][k] == col;
      if col in columns {
        rows := RewriteColumn(rows, col, w);
      }
      assert Written(columns, names[..k + 1]) ==
        Written(columns, names[..k]) + (if col in columns then {col} else {});
      forall i, c | 0 <= i < |rows|
        ensures Get(rows[i], c) == ColumnPass(columns, names[..k + 1], w, c, Get(rows0[i], c))
      {
        assert Get(before[i], c) == ColumnPass(columns, names[..k], w, c, Get(rows0[i], c));
      }
      k := k + 1;
    }
    assert names[..k] == names;
  }

  /** A row whose cells are the normalised cells, with the written columns added, is the normalised row. */
  lemma NormalRowFromPasses(columns: seq<string>, row: Row, out: Row)
    requires ModelColumn in columns
    requires out.Keys == row.Keys + {ModelColumn} + Written(columns, YesNoColumns) + Written(columns, NumericColumns)
    requires forall c :: Get(out, c) == NormalCell(columns, c, Get(row, c))
    ensures out == NormalRow(columns, row)
  {
    assert Touched(columns) == {ModelColumn} + Written(columns, YesNoColumns) + Written(columns, NumericColumns);
    forall c ensures Get(out, c) == Get(NormalRow(columns, row), c) {
      NormalRowGet(columns, row, c);
    }
    RowsEqual(out, NormalRow(columns, row));
  }

  /**
   * Lines 171-197 on one spec table: the model pass, then the loop over the
   * Yes/No columns, then the loop over the numeric columns.
   */
  method NormaliseSpecs(t: Table) returns (r: Result<Table, Error>)
    ensures r == Normalised(t)
  {
    if ModelColumn !in t.columns {
      return Err(MissingColumn(ModelColumn));
    }
    var named := RewriteColumn(t.rows, ModelColumn, ToModelName);
    var flagged := RewriteColumns(named, t.columns, YesNoColumns, ToFlag);
    var parsed := RewriteColumns(flagged, t.columns, NumericColumns, ToNumber);
    forall i | 0 <= i < |parsed| ensures parsed[i] == NormalRow(t.columns, t.rows[i]) {
      NormalRowFromPasses(t.columns, t.rows[i], parsed[i]);
    }
    assert parsed == Normalised(t).value.rows;
    return Ok(Table(t.columns, parsed));
  }

  // ---------------------------------------------------------------------
  // Inventory: preparation, first row per model, inner join

  /** `.str.strip().str.lower()` on the Model and the Colour cell of an inventory row. */
  function CleanRow(row: Row): (r: Row)
    ensures forall c :: Get(r, c) == if c == ModelColumn || c == ColourColumn then ModelName(Get(row, c)) else Get(row, c)
  {
    row[ModelColumn := ModelName(Get(row, ModelColumn))][ColourColumn := ModelName(Get(row, ColourColumn))]
  }

  function CleanRows(rows: seq<Row>): (r: seq<Row>)
    ensures |r| == |rows| && forall i :: 0 <= i < |rows| ==> r[i] == CleanRow(rows[i])
  {
    seq(|rows|, i requires 0 <= i < |rows| => CleanRow(rows[i]))
  }

  /**
   * Lines 52-54: model and colour stripped and lower-cased, rows without a
   * model dropped. The price parsing of line 51 is not part of this model.
   */
  function PrepareInventory(inventory: Table): (r: Result<Table, Error>)
    ensures r.Ok? <==> ModelColumn in inventory.columns && ColourColumn in inventory.columns
    ensures r.Ok? ==> r.value.columns == inventory.columns
    ensures r.Ok? ==> forall row :: row in r.value.rows ==> Get(row, ModelColumn).Text?
  {
    if ModelColumn !in inventory.columns then Err(MissingColumn(ModelColumn))
    else if ColourColumn !in inventory.columns then Err(MissingColumn(ColourColumn))
    else Ok(Table(inventory.columns, KeepModelled(CleanRows(inventory.rows))))
  }

  /** `dropna(subset=['Model'])`: the rows with a model, in order. */
  function KeepModelled(rows: seq<Row>): (r: seq<Row>)
    ensures forall row :: row in r <==> row in rows && !Get(row, ModelColumn).Missing?
    ensures IsSubseq(r, rows)
  {
    if rows == [] then []
    else if Get(rows[0], ModelColumn).Missing? then KeepModelled(rows[1..])
    else
      var rest := KeepModelled(rows[1..]);
      assert ([rows[0]] + rest)[1..] == rest;
      [rows[0]] + rest
  }

  /**
   * The prepared inventory holds, in inventory order, every inventory row
   * whose model is a string, with Model and Colour stripped and lower-cased
   * and every other cell as it was; rows without a string model are dropped.
   */
  lemma InventoryPrepared(inventory: Table)
    requires PrepareInventory(inventory).Ok?
    ensures IsSubseq(PrepareInventory(inventory).value.rows, CleanRows(inventory.rows))
    ensures forall row :: row in PrepareInventory(inventory).value.rows <==>
      exists i :: 0 <= i < |inventory.rows| && Get(inventory.rows[i], ModelColumn).Text? &&
        row == CleanRow(inventory.rows[i])
  {
    var cleaned := CleanRows(inventory.rows);
    forall row
      ensures row in PrepareInventory(inventory).value.rows <==>
        exists i :: 0 <= i < |inventory.rows| && Get(inventory.rows[i], ModelColumn).Text? &&
          row == CleanRow(inventory.rows[i])
    {
      if row in PrepareInventory(inventory).value.rows {
        var i :| 0 <= i < |cleaned| && cleaned[i] == row;
        assert Get(inventory.rows[i], ModelColumn).Text?;
      }
    }
  }

  /** Padding and letter case do not keep an inventory model from matching. */
  lemma PaddedModelMatches()
    ensures ModelName(Text(" Sony ")) == ModelName(Text("sony")) == Text("sony")
  {
    assert Strip(" Sony ") == "Sony" by {
      assert " Sony "[1..] == "Sony ";
      assert StripLeft("Sony ") == "Sony ";
      assert "Sony "[..4] == "Sony";
      assert StripRight("Sony") == "Sony";
    }
    UnpaddedStrip("sony");
    assert Lower("Sony") == "sony" by {
      assert LowerChar('S') == 's';
    }
    assert Lower("sony") == "sony";
  }

  /** No row before index `i` has the model of row `i`. */
  predicate FirstOfModel(rows: seq<Row>, i: int)
    requires 0 <= i < |rows|
  {
    forall j :: 0 <= j < i ==> Get(rows[j], ModelColumn) != Get(rows[i], ModelColumn)
  }

  function KeepFirst(rows: seq<Row>, seen: set<Cell>): seq<Row> {
    if rows == [] then []
    else if Get(rows[0], ModelColumn) in seen then KeepFirst(rows[1..], seen)
    else [rows[0]] + KeepFirst(rows[1..], seen + {Get(rows[0], ModelColumn)})
  }

  /** `drop_duplicates(subset=['Model'])`: the first row of every model, in order. */
  function DedupeByModel(rows: seq<Row>): seq<Row> {
    KeepFirst(rows, {})
  }

  lemma {:induction false} KeepFirstMembers(rows: seq<Row>, seen: set<Cell>, r: Row)
    ensures r in KeepFirst(rows, seen) <==>
      exists i :: 0 <= i < |rows| && rows[i] == r && Get(r, ModelColumn) !in seen && FirstOfModel(rows, i)
  {
    if rows != [] {
      var m := Get(rows[0], ModelColumn);
      var seen' := if m in seen then seen else seen + {m};
      KeepFirstMembers(rows[1..], seen', r);
      if r in KeepFirst(rows, seen) {
        if r == rows[0] && m !in seen {
          assert FirstOfModel(rows, 0);
        } else {
          var i :| 0 <= i < |rows[1..]| && rows[1..][i] == r && Get(r, ModelColumn) !in seen' && FirstOfModel(rows[1..], i);
          assert Get(r, ModelColumn) != m;
          assert FirstOfModel(rows, i + 1);
        }
      }
      if exists i :: 0 <= i < |rows| && rows[i] == r && Get(r, ModelColumn) !in seen && FirstOfModel(rows, i) {
        var i :| 0 <= i < |rows| && rows[i] == r && Get(r, ModelColumn) !in seen && FirstOfModel(rows, i);
        if i > 0 {
          assert Get(rows[0], ModelColumn) != Get(r, ModelColumn);
          assert FirstOfModel(rows[1..], i - 1) by {
            forall j | 0 <= j < i - 1 ensures Get(rows[1..][j], ModelColumn) != Get(rows[1..][i - 1], ModelColumn) {
              assert rows[1..][j] == rows[j + 1];
            }
          }
          assert rows[1..][i - 1] == r;
        }
      }
    }
  }

  lemma {:induction false} KeepFirstDistinct(rows: seq<Row>, seen: set<Cell>)
    ensures forall r :: r in KeepFirst(rows, seen) ==> Get(r, ModelColumn) !in seen
    ensures forall i, j :: 0 <= i < j < |KeepFirst(rows, seen)| ==>
      Get(KeepFirst(rows, seen)[i], ModelColumn) != Get(KeepFirst(rows, seen)[j], ModelColumn)
  {
    if rows != [] {
      var m := Get(rows[0], ModelColumn);
      if m in seen {
        KeepFirstDistinct(rows[1..], seen);
      } else {
        KeepFirstDistinct(rows[1..], seen + {m});
        var out := KeepFirst(rows, seen);
        var rest := KeepFirst(rows[1..], seen + {m});
        forall i, j | 0 <= i < j < |out| ensures Get(out[i], ModelColumn) != Get(out[j], ModelColumn) {
          assert out[j] == rest[j - 1];
          assert out[j] in rest;
          if i > 0 {
            assert out[i] == rest[i - 1];
          }
        }
      }
    }
  }

  /**
   * Deduplication keeps a row iff no earlier row has its model, so every
   * model keeps exactly its first row; the kept rows have distinct models.
   */
  lemma DedupeKeepsFirst(rows: seq<Row>)
    ensures forall r :: r in DedupeByModel(rows) <==>
      exists i :: 0 <= i < |rows| && rows[i] == r && FirstOfModel(rows, i)
    ensures forall i, j :: 0 <= i < j < |DedupeByModel(rows)| ==>
      Get(DedupeByModel(rows)[i], ModelColumn) != Get(DedupeByModel(rows)[j], ModelColumn)
  {
    forall r ensures r in DedupeByModel(rows) <==>
      exists i :: 0 <= i < |rows| && rows[i] == r && FirstOfModel(rows, i)
    {
      KeepFirstMembers(rows, {}, r);
    }
    KeepFirstDistinct(rows, {});
  }

  /** Every model of the inventory survives deduplication. */
  lemma DedupeKeepsModels(rows: seq<Row>, i: nat)
    requires i < |rows|
    ensures exists r :: r in DedupeByModel(rows) && Get(r, ModelColumn) == Get(rows[i], ModelColumn)
  {
    var k := i;
    while exists j :: 0 <= j < k && Get(rows[j], ModelColumn) == Get(rows[i], ModelColumn)
      invariant 0 <= k <= i && Get(rows[k], ModelColumn) == Get(rows[i], ModelColumn)
      decreases k
    {
      var j :| 0 <= j < k && Get(rows[j], ModelColumn) == Get(rows[i], ModelColumn);
      k := j;
    }
    DedupeKeepsFirst(rows);
    assert rows[k] in DedupeByModel(rows);
  }

  /** The names in `names` that are not columns, in order. */
  function Absent(names: seq<string>, columns: seq<string>): (r: seq<string>)
    ensures r == [] <==> forall n :: n in names ==> n in columns
  {
    if names == [] then []
    else (if names[0] in columns then [] else [names[0]]) + Absent(names[1..], columns)
  }

  /** A spec row with the inventory fields of its inventory row. */
  function Merge(spec: Row, stock: Row): (r: Row)
    ensures forall c :: Get(r, c) == if c in InventoryFields then Get(stock, c) else Get(spec, c)
  {
    map c | c in spec.Keys + (set f | f in InventoryFields) ::
      if c in InventoryFields then Get(stock, c) else spec[c]
  }

  function Matches(spec: Row, stock: seq<Row>): seq<Row> {
    if stock == [] then []
    else (if Get(stock[0], ModelColumn) == Get(spec, ModelColumn) then [Merge(spec, stock[0])] else [])
         + Matches(spec, stock[1..])
  }

  /** The inner join's rows, spec rows in order, each with every matching inventory row. */
  function JoinRows(specs: seq<Row>, stock: seq<Row>): seq<Row> {
    if specs == [] then [] else Matches(specs[0], stock) + JoinRows(specs[1..], stock)
  }

  /**
   * `pd.merge(specs, inventory[['Model', *InventoryFields]], on='Model', how='inner')`.
   * Selecting the inventory columns raises KeyError for a missing one.
   */
  function InnerJoin(specs: Table, stock: Table): (r: Result<Table, Error>)
    ensures r.Ok? ==> r.value.columns == specs.columns + InventoryFields
  {
    if ModelColumn !in stock.columns then Err(MissingColumn(ModelColumn))
    else if Absent(InventoryFields, stock.columns) != [] then Err(MissingColumn(Absent(InventoryFields, stock.columns)[0]))
    else if ModelColumn !in specs.columns then Err(MissingColumn(ModelColumn))
    else Ok(Table(specs.columns + InventoryFields, JoinRows(specs.rows, stock.rows)))
  }

  lemma {:induction false} MatchesMembers(spec: Row, stock: seq<Row>, r: Row)
    ensures r in Matches(spec, stock) <==>
      exists v :: v in stock && Get(v, ModelColumn) == Get(spec, ModelColumn) && r == Merge(spec, v)
  {
    if stock != [] {
      MatchesMembers(spec, stock[1..], r);
      assert stock == [stock[0]] + stock[1..];
    }
  }

  /**
   * A joined row is a spec row merged with an inventory row of the same
   * model, and every such pair gives a joined row: spec rows whose model is
   * not in stock are dropped.
   */
  lemma {:induction false} JoinMembers(specs: seq<Row>, stock: seq<Row>, r: Row)
    ensures r in JoinRows(specs, stock) <==>
      exists s, v :: s in specs && v in stock && Get(v, ModelColumn) == Get(s, ModelColumn) && r == Merge(s, v)
  {
    if specs != [] {
      JoinMembers(specs[1..], stock, r);
      MatchesMembers(specs[0], stock, r);
      assert specs == [specs[0]] + specs[1..];
    }
  }

  lemma {:induction false} MatchesAtMostOne(spec: Row, stock: seq<Row>)
    requires forall i, j :: 0 <= i < j < |stock| ==> Get(stock[i], ModelColumn) != Get(stock[j], ModelColumn)
    ensures |Matches(spec, stock)| <= 1
    ensures |Matches(spec, stock)| == 1 <==> exists v :: v in stock && Get(v, ModelColumn) == Get(spec, ModelColumn)
  {
    if stock != [] {
      MatchesAtMostOne(spec, stock[1..]);
      if Get(stock[0], ModelColumn) == Get(spec, ModelColumn) {
        forall v | v in stock[1..] ensures Get(v, ModelColumn) != Get(spec, ModelColumn) {
          var j :| 0 <= j < |stock[1..]| && stock[1..][j] == v;
          assert stock[j + 1] == v;
        }
      }
      assert stock == [stock[0]] + stock[1..];
    }
  }

  /**
   * Joined with a deduplicated inventory, every spec row yields one row if
   * its model is in stock and none otherwise.
   */
  lemma {:induction false} JoinOnePerSpec(specs: seq<Row>, stock: seq<Row>)
    requires forall i, j :: 0 <= i < j < |stock| ==> Get(stock[i], ModelColumn) != Get(stock[j], ModelColumn)
    ensures |JoinRows(specs, stock)| <= |specs|
    ensures (forall s :: s in specs ==> exists v :: v in stock && Get(v, ModelColumn) == Get(s, ModelColumn))
      ==> |JoinRows(specs, stock)| == |specs|
  {
    if specs != [] {
      MatchesAtMostOne(specs[0], stock);
      JoinOnePerSpec(specs[1..], stock);
    }
  }

  /** `df['Colour'] = df['Colour'].fillna('black').str.lower()` */
  function DefaultColour(t: Table): (r: Table)
    ensures r.columns == t.columns && |r.rows| == |t.rows|
  {
    Table(t.columns, RewriteColumn(t.rows, ColourColumn, ToColour))
  }

  /** One pass of the category loop: normalise, join, default the colour. */
  function CategoryTable(spec: Table, stock: Table): Result<Table, Error> {
    var normal :- Normalised(spec);
    var joined :- InnerJoin(normal, Table(stock.columns, DedupeByModel(stock.rows)));
    Ok(DefaultColour(joined))
  }

  /** One pass of lines 172-209: normalise the spec table, join it, default the colour. */
  method LoadCategory(spec: Table, stock: Table) returns (r: Result<Table, Error>)
    ensures r == CategoryTable(spec, stock)
  {
    var normal := NormaliseSpecs(spec);
    if normal.Err? {
      return Err(normal.error);
    }
    var joined := InnerJoin(normal.value, Table(stock.columns, DedupeByModel(stock.rows)));
    if joined.Err? {
      return Err(joined.error);
    }
    return Ok(DefaultColour(joined.value));
  }

  /**
   * The catalog built from the categories' names and outcomes in order:
   * the first failure aborts the whole load.
   */
  function Gather(entries: seq<(string, Result<Table, Error>)>): Result<map<string, Table>, Error>
    decreases |entries|
  {
    if entries == [] then Ok(map[])
    else
      var catalog :- Gather(entries[..|entries| - 1]);
      var table :- entries[|entries| - 1].1;
      Ok(catalog[entries[|entries| - 1].0 := table])
  }

  /** Each category's name with the outcome of building its table. */
  function Outcomes(specs: seq<(string, Table)>, stock: Table): (r: seq<(string, Result<Table, Error>)>)
    ensures |r| == |specs|
    ensures forall i :: 0 <= i < |specs| ==> r[i] == (specs[i].0, CategoryTable(specs[i].1, stock))
  {
    seq(|specs|, i requires 0 <= i < |specs| => (specs[i].0, CategoryTable(specs[i].1, stock)))
  }

  /** Lines 168-211: the prepared inventory, then every category in turn. */
  function Loaded(specs: seq<(string, Table)>, inventory: Table): Result<map<string, Table>, Error> {
    var stock :- PrepareInventory(inventory);
    Gather(Outcomes(specs, stock))
  }

  /** One more outcome: a table is stored under its name, a failure ends the load. */
  lemma GatherStep(entries: seq<(string, Result<Table, Error>)>, i: nat)
    requires i < |entries|
    ensures Gather(entries[..i + 1]) ==
      match Gather(entries[..i])
      case Err(e) => Err(e)
      case Ok(catalog) =>
        match entries[i].1
        case Err(e) => Err(e)
        case Ok(table) => Ok(catalog[entries[i].0 := table])
  {
    assert entries[..i + 1][..i] == entries[..i];
  }

  /** Once a prefix of the outcomes fails, the whole load fails with its error. */
  lemma {:induction false} GatherStops(entries: seq<(string, Result<Table, Error>)>, n: nat)
    requires n <= |entries|
    requires Gather(entries[..n]).Err?
    ensures Gather(entries) == Gather(entries[..n])
    decreases |entries| - n
  {
    if n < |entries| {
      assert entries[..n + 1][..n] == entries[..n];
      GatherStops(entries, n + 1);
    } else {
      assert entries[..n] == entries;
    }
  }

  /**
   * Lines 168-211: prepare the inventory, then for each category in turn
   * normalise its table, join it with the inventory and store it under the
   * category's name. The first exception aborts the load.
   */
  method LoadCatalog(specs: seq<(string, Table)>, inventory: Table) returns (r: Result<map<string, Table>, Error>)
    ensures r == Loaded(specs, inventory)
  {
    var prepared := PrepareInventory(inventory);
    if prepared.Err? {
      return Err(prepared.error);
    }
    var stock := prepared.value;
    ghost var entries := Outcomes(specs, stock);
    var catalog: map<string, Table> := map[];
    var i := 0;
    while i < |specs|
      invariant 0 <= i <= |specs|
      invariant Gather(entries[..i]) == Ok(catalog)
    {
      var table := LoadCategory(specs[i].1, stock);
      assert entries[i] == (specs[i].0, table);
      GatherStep(entries, i);
      if table.Err? {
        GatherStops(entries, i + 1);
        return Err(table.error);
      }
      catalog := catalog[specs[i].0 := table.value];
      i := i + 1;
    }
    assert entries[..i] == entries;
    return Ok(catalog);
  }

  /** The load succeeds exactly when every outcome is a table. */
  lemma {:induction false} GatherSucceeds(entries: seq<(string, Result<Table, Error>)>)
    ensures Gather(entries).Ok? <==> forall i :: 0 <= i < |entries| ==> entries[i].1.Ok?
    decreases |entries|
  {
    if entries != [] {
      var n := |entries| - 1;
      var front := entries[..n];
      GatherSucceeds(front);
      if !Gather(entries).Ok? && Gather(front).Err? {
        var i :| 0 <= i < n && front[i].1.Err?;
        assert front[i] == entries[i];
      }
      if Gather(entries).Ok? {
        forall i | 0 <= i < n ensures entries[i].1.Ok? {
          assert front[i] == entries[i];
        }
      }
    }
  }

  /**
   * A loaded catalog holds every category's table under its name, and no
   * other name, when the names are distinct.
   */
  lemma GatherContents(entries: seq<(string, Result<Table, Error>)>)
    requires Gather(entries).Ok?
    requires forall i, j :: 0 <= i < j < |entries| ==> entries[i].0 != entries[j].0
    ensures forall name :: name in Gather(entries).value <==> exists i :: 0 <= i < |entries| && entries[i].0 == name
    ensures forall i :: 0 <= i < |entries| ==>
      entries[i].1.Ok? && entries[i].0 in Gather(entries).value && Gather(entries).value[entries[i].0] == entries[i].1.value
  {
    GatherKeys(entries);
    GatherValues(entries);
  }

  /** The names a loaded catalog holds are the categories' names. */
  lemma {:induction false} GatherKeys(entries: seq<(string, Result<Table, Error>)>)
    requires Gather(entries).Ok?
    ensures forall name :: name in Gather(entries).value <==> exists i :: 0 <= i < |entries| && entries[i].0 == name
    decreases |entries|
  {
    if entries != [] {
      var n := |entries| - 1;
      var front := entries[..n];
      GatherKeys(front);
      forall name ensures name in Gather(entries).value <==> exists i :: 0 <= i < |entries| && entries[i].0 == name {
        if exists i :: 0 <= i < |entries| && entries[i].0 == name {
          var i :| 0 <= i < |entries| && entries[i].0 == name;
          if i < n {
            assert front[i].0 == name;
          }
        }
        if exists i :: 0 <= i < n && front[i].0 == name {
          var i :| 0 <= i < n && front[i].0 == name;
          assert entries[i].0 == name;
        }
      }
    }
  }

  /** With distinct names, each category's name maps to its own table. */
  lemma {:induction false} GatherValues(entries: seq<(string, Result<Table, Error>)>)
    requires Gather(entries).Ok?
    requires forall i, j :: 0 <= i < j < |entries| ==> entries[i].0 != entries[j].0
    ensures forall i :: 0 <= i < |entries| ==>
      entries[i].1.Ok? && entries[i].0 in Gather(entries).value && Gather(entries).value[entries[i].0] == entries[i].1.value
    decreases |entries|
  {
    if entries != [] {
      var n := |entries| - 1;
      var front := entries[..n];
      GatherValues(front);
      forall i | 0 <= i < |entries|
        ensures entries[i].1.Ok? && entries[i].0 in Gather(entries).value
        ensures Gather(entries).value[entries[i].0] == entries[i].1.value
      {
        if i < n {
          assert front[i] == entries[i];
        }
      }
    }
  }

  /**
   * The load succeeds exactly when the inventory can be prepared and every
   * category's table can be built; the catalog then maps every category's
   * name to its table and holds no other name.
   */
  lemma LoadedMeaning(specs: seq<(string, Table)>, inventory: Table)
    requires forall i, j :: 0 <= i < j < |specs| ==> specs[i].0 != specs[j].0
    ensures Loaded(specs, inventory).Ok? <==> (PrepareInventory(inventory).Ok? &&
      forall i :: 0 <= i < |specs| ==> CategoryTable(specs[i].1, PrepareInventory(inventory).value).Ok?)
    ensures Loaded(specs, inventory).Ok? ==>
      (forall name :: name in Loaded(specs, inventory).value <==> exists i :: 0 <= i < |specs| && specs[i].0 == name)
    ensures Loaded(specs, inventory).Ok? ==> forall i :: 0 <= i < |specs| ==>
      specs[i].0 in Loaded(specs, inventory).value &&
      Loaded(specs, inventory).value[specs[i].0] == CategoryTable(specs[i].1, PrepareInventory(inventory).value).value
  {
    if PrepareInventory(inventory).Ok? {
      var entries := Outcomes(specs, PrepareInventory(inventory).value);
      GatherSucceeds(entries);
      if Gather(entries).Ok? {
        GatherContents(entries);
      }
    }
  }

  // ---------------------------------------------------------------------
  // What the normalisation guarantees

  lemma {:induction false} PassKeepsNumbers(columns: seq<string>, names: seq<string>, w: Rewrite, c: string, x: Cell)
    requires w == ToFlag || w == ToNumber
    requires x.Num?
    ensures ColumnPass(columns, names, w, c, x).Num?
    ensures w == ToNumber ==> ColumnPass(columns, names, w, c, x) == x
    decreases |names|
  {
    if names != [] {
      PassKeepsNumbers(columns, names[..|names| - 1], w, c, x);
    }
  }

  lemma {:induction false} PassWrites(columns: seq<string>, names: seq<string>, w: Rewrite, c: string, x: Cell)
    requires c in names && c in columns
    ensures exists y :: ColumnPass(columns, names, w, c, x) == Apply(w, y)
    decreases |names|
  {
    var last := names[|names| - 1];
    if last != c {
      assert c in names[..|names| - 1];
      PassWrites(columns, names[..|names| - 1], w, c, x);
    } else {
      assert ColumnPass(columns, names, w, c, x) == Apply(w, ColumnPass(columns, names[..|names| - 1], w, c, x));
    }
  }

  lemma {:induction false} PassSkips(columns: seq<string>, names: seq<string>, w: Rewrite, c: string, x: Cell)
    requires c !in names || c !in columns
    ensures ColumnPass(columns, names, w, c, x) == x
    decreases |names|
  {
    if names != [] {
      assert c !in names[..|names| - 1] || c !in columns;
      PassSkips(columns, names[..|names| - 1], w, c, x);
    }
  }

  /** Every Yes/No column of a normalised table holds 0 or 1. */
  lemma FlagsAreBits(columns: seq<string>, c: string, x: Cell)
    requires c in columns && c in YesNoColumns
    ensures NormalCell(columns, c, x) == Num(0.0) || NormalCell(columns, c, x) == Num(1.0)
  {
    var m := ModelPass(columns, c, x);
    PassWrites(columns, YesNoColumns, ToFlag, c, m);
    var f := ColumnPass(columns, YesNoColumns, ToFlag, c, m);
    var y :| f == Apply(ToFlag, y);
    PassKeepsNumbers(columns, NumericColumns, ToNumber, c, f);
  }

  /**
   * The Yes/No encoding gives 1 exactly when the text reads "yes" once
   * stripped, in any letter case, and 0 otherwise.
   */
  lemma FlagMeansYes(s: string)
    ensures YesNoFlag(Text(s)) == Num(1.0) <==> Lower(Strip(s)) == "yes"
    ensures YesNoFlag(Text(s)) != Num(1.0) ==> YesNoFlag(Text(s)) == Num(0.0)
  {
    CapitalizedYes(Strip(s));
  }

  /** Surrounding blanks and case do not matter: " yes " is encoded as 1. */
  lemma PaddedYesIsOne()
    ensures YesNoFlag(Text(" yes ")) == Num(1.0)
  {
    assert Strip(" yes ") == "yes" by {
      assert StripLeft(" yes ") == "yes ";
      assert StripRight("yes ") == "yes";
    }
    FlagMeansYes(" yes ");
  }

  /** A text without surrounding blanks that cannot capitalise to "Yes" is encoded as 0. */
  lemma NotYesIsZero(s: string)
    requires s != [] && !IsSpace(s[0]) && !IsSpace(s[|s| - 1])
    requires |s| != 3 || UpperChar(s[0]) != 'Y'
    ensures YesNoFlag(Text(s)) == Num(0.0)
  {
    UnpaddedStrip(s);
    assert |Capitalize(s)| == |s| && Capitalize(s)[0] == UpperChar(s[0]);
  }

  /** Text that is neither Yes nor No is encoded as 0. */
  lemma OtherTextIsNo()
    ensures YesNoFlag(Text("Yes (partial)")) == Num(0.0)
    ensures YesNoFlag(Text("Tilt")) == Num(0.0)
    ensures YesNoFlag(Text("20m")) == Num(0.0)
  {
    NotYesIsZero("Yes (partial)");
    NotYesIsZero("Tilt");
    NotYesIsZero("20m");
  }

  /** Every numeric column of a normalised table holds a number. */
  lemma NumericColumnsParsed(columns: seq<string>, c: string, x: Cell)
    requires c in columns && c in NumericColumns
    ensures NormalCell(columns, c, x).Num?
  {
    var f := ColumnPass(columns, YesNoColumns, ToFlag, c, ModelPass(columns, c, x));
    PassWrites(columns, NumericColumns, ToNumber, c, f);
  }

  /**
   * `to_numeric` followed by `fillna(0)`: numbers stay, a decimal string
   * gives the number it spells, any other value gives 0.
   */
  lemma NumberOrZeroReads(x: Cell)
    ensures NumberOrZero(x).Num?
    ensures x.Num? ==> NumberOrZero(x) == x
    ensures x.Text? && ParseDecimal(x.s).None? ==> NumberOrZero(x) == Num(0.0)
    ensures forall n: nat :: x == Text(NatText(n)) ==> NumberOrZero(x) == Num(n as real)
  {
    forall n: nat | x == Text(NatText(n)) ensures NumberOrZero(x) == Num(n as real) {
      ParseDecimalText(n);
    }
  }

  /** Normalising a model name twice changes nothing more. */
  lemma ModelNameIdempotent(x: Cell)
    ensures ModelName(ModelName(x)) == ModelName(x)
  {
    if x.Text? {
      var t := Strip(x.s);
      StripLower(t);
      StripIdempotent(x.s);
      LowerIdempotent(t);
    }
  }

  /** The Model column is neither a flag, a number nor an inventory field. */
  lemma ModelColumnApart()
    ensures ModelColumn !in YesNoColumns && ModelColumn !in NumericColumns && ModelColumn !in InventoryFields
  {
  }

  /** No numeric column is one of the inventory fields. */
  lemma NumericApartFromInventory()
    ensures forall c :: c in NumericColumns ==> c !in InventoryFields
  {
    forall k | 0 <= k < |NumericColumns| ensures NumericColumns[k] !in InventoryFields {
      var c := NumericColumns[k];
      assert |c| >= 12 || c[0] == 'I';
    }
  }

  /** A normalised model cell is the model name stripped and lower-cased. */
  lemma NormalModel(columns: seq<string>, x: Cell)
    requires ModelColumn in columns
    ensures NormalCell(columns, ModelColumn, x) == ModelName(x)
  {
    ModelColumnApart();
    PassSkips(columns, YesNoColumns, ToFlag, ModelColumn, ModelName(x));
    PassSkips(columns, NumericColumns, ToNumber, ModelColumn, ModelName(x));
  }

  /**
   * Every row of a loaded table comes from a normalised spec row merged with
   * a deduplicated inventory row of the same model, colour defaulted.
   */
  lemma CategoryRowSource(spec: Table, stock: Table, r: Row)
    requires CategoryTable(spec, stock).Ok?
    requires r in CategoryTable(spec, stock).value.rows
    ensures exists i, v :: (0 <= i < |spec.rows| && v in DedupeByModel(stock.rows) &&
      Get(v, ModelColumn) == NormalCell(spec.columns, ModelColumn, Get(spec.rows[i], ModelColumn)) &&
      forall c :: Get(r, c) ==
        if c == ColourColumn then ColourOrBlack(Get(v, c))
        else if c in InventoryFields then Get(v, c)
        else NormalCell(spec.columns, c, Get(spec.rows[i], c)))
  {
    var normal := Normalised(spec).value;
    var unique := DedupeByModel(stock.rows);
    CategoryTableShape(spec, stock);
    JoinedRowSource(normal.rows, unique, r);
    var s, v :| s in normal.rows && v in unique && Get(v, ModelColumn) == Get(s, ModelColumn) &&
      forall c :: Get(r, c) ==
        if c == ColourColumn then ColourOrBlack(Get(v, c))
        else if c in InventoryFields then Get(v, c)
        else Get(s, c);
    NormalRowSource(spec, s);
    var i :| 0 <= i < |spec.rows| && forall c :: Get(s, c) == NormalCell(spec.columns, c, Get(spec.rows[i], c));
    assert Get(v, ModelColumn) == NormalCell(spec.columns, ModelColumn, Get(spec.rows[i], ModelColumn));
    forall c ensures Get(r, c) ==
        if c == ColourColumn then ColourOrBlack(Get(v, c))
        else if c in InventoryFields then Get(v, c)
        else NormalCell(spec.columns, c, Get(spec.rows[i], c))
    {
    }
  }

  /** A normalised row holds, under every column, the normalised cell of some spec row. */
  lemma NormalRowSource(spec: Table, s: Row)
    requires Normalised(spec).Ok? && s in Normalised(spec).value.rows
    ensures exists i :: (0 <= i < |spec.rows| &&
      forall c :: Get(s, c) == NormalCell(spec.columns, c, Get(spec.rows[i], c)))
  {
    var normal := Normalised(spec).value;
    var i :| 0 <= i < |normal.rows| && normal.rows[i] == s;
    assert s == NormalRow(spec.columns, spec.rows[i]);
    forall c ensures Get(s, c) == NormalCell(spec.columns, c, Get(spec.rows[i], c)) {
      NormalRowGet(spec.columns, spec.rows[i], c);
    }
  }

  /** A row of a colour-defaulted join merges a spec row with a stock row of its model. */
  lemma JoinedRowSource(specs: seq<Row>, stock: seq<Row>, r: Row)
    requires r in RewriteColumn(JoinRows(specs, stock), ColourColumn, ToColour)
    ensures exists s, v :: (s in specs && v in stock && Get(v, ModelColumn) == Get(s, ModelColumn) &&
      forall c :: Get(r, c) ==
        if c == ColourColumn then ColourOrBlack(Get(v, c))
        else if c in InventoryFields then Get(v, c)
        else Get(s, c))
  {
    var joined := JoinRows(specs, stock);
    var rows := RewriteColumn(joined, ColourColumn, ToColour);
    var k :| 0 <= k < |rows| && rows[k] == r;
    JoinMembers(specs, stock, joined[k]);
    assert joined[k] in joined;
    var s, v :| s in specs && v in stock && Get(v, ModelColumn) == Get(s, ModelColumn) && joined[k] == Merge(s, v);
    assert ColourColumn in InventoryFields;
    forall c ensures Get(r, c) ==
        if c == ColourColumn then ColourOrBlack(Get(v, c))
        else if c in InventoryFields then Get(v, c)
        else Get(s, c)
    {
      assert Get(r, c) == if c == ColourColumn then ColourOrBlack(Get(joined[k], ColourColumn)) else Get(joined[k], c);
    }
  }

  /**
   * In a loaded table every numeric column of the spec holds a number, so
   * `to_numeric` on such a column later finds no string to parse.
   */
  lemma CategoryNumeric(spec: Table, stock: Table, c: string)
    requires CategoryTable(spec, stock).Ok?
    requires c in spec.columns && c in NumericColumns
    ensures forall r :: r in CategoryTable(spec, stock).value.rows ==> Get(r, c).Num?
  {
    NumericApartFromInventory();
    forall r | r in CategoryTable(spec, stock).value.rows ensures Get(r, c).Num? {
      CategoryRowSource(spec, stock, r);
      var i, v :| 0 <= i < |spec.rows| && v in DedupeByModel(stock.rows) &&
        Get(v, ModelColumn) == NormalCell(spec.columns, ModelColumn, Get(spec.rows[i], ModelColumn)) &&
        forall c :: Get(r, c) ==
          if c == ColourColumn then ColourOrBlack(Get(v, c))
          else if c in InventoryFields then Get(v, c)
          else NormalCell(spec.columns, c, Get(spec.rows[i], c));
      NumericColumnsParsed(spec.columns, c, Get(spec.rows[i], c));
    }
  }

  /**
   * Rows of a loaded table are spec rows of models in stock, carrying that
   * model's first inventory row's fields and a lower-case or "black" colour.
   */
  lemma CategoryRowsFromStock(spec: Table, stock: Table, r: Row)
    requires CategoryTable(spec, stock).Ok?
    requires r in CategoryTable(spec, stock).value.rows
    ensures exists i, j :: (0 <= i < |spec.rows| && 0 <= j < |stock.rows| && FirstOfModel(stock.rows, j) &&
      Get(stock.rows[j], ModelColumn) == ModelName(Get(spec.rows[i], ModelColumn)) &&
      Get(r, ModelColumn) == ModelName(Get(spec.rows[i], ModelColumn)) &&
      Get(r, ColourColumn) == ColourOrBlack(Get(stock.rows[j], ColourColumn)))
  {
    CategoryRowSource(spec, stock, r);
    var i, v :| 0 <= i < |spec.rows| && v in DedupeByModel(stock.rows) &&
      Get(v, ModelColumn) == NormalCell(spec.columns, ModelColumn, Get(spec.rows[i], ModelColumn)) &&
      forall c :: Get(r, c) ==
        if c == ColourColumn then ColourOrBlack(Get(v, c))
        else if c in InventoryFields then Get(v, c)
        else NormalCell(spec.columns, c, Get(spec.rows[i], c));
    ModelColumnApart();
    NormalModel(spec.columns, Get(spec.rows[i], ModelColumn));
    assert Get(r, ModelColumn) == NormalCell(spec.columns, ModelColumn, Get(spec.rows[i], ModelColumn));
    DedupeKeepsFirst(stock.rows);
    var j :| 0 <= j < |stock.rows| && stock.rows[j] == v && FirstOfModel(stock.rows, j);
  }

  /**
   * Conversely, a spec row whose normalised model is the model of some
   * inventory row yields a loaded row of that model.
   */
  lemma StockedModelJoins(spec: Table, stock: Table, i: nat, k: nat)
    requires CategoryTable(spec, stock).Ok?
    requires i < |spec.rows| && k < |stock.rows|
    requires Get(stock.rows[k], ModelColumn) == ModelName(Get(spec.rows[i], ModelColumn))
    ensures exists r :: (r in CategoryTable(spec, stock).value.rows &&
      Get(r, ModelColumn) == ModelName(Get(spec.rows[i], ModelColumn)))
  {
    var m := ModelName(Get(spec.rows[i], ModelColumn));
    var normal := Normalised(spec).value;
    var unique := DedupeByModel(stock.rows);
    DedupeKeepsModels(stock.rows, k);
    var v :| v in unique && Get(v, ModelColumn) == m;
    NormalModelAt(spec, i);
    var joined := Table(normal.columns + InventoryFields, JoinRows(normal.rows, unique));
    CategoryTableShape(spec, stock);
    JoinHasModel(normal.rows, unique, i, v);
    DefaultColourKeepsModel(joined, m);
  }

  /** A built category table is the colour-defaulted join of the normalised specs with the deduplicated stock. */
  lemma CategoryTableShape(spec: Table, stock: Table)
    requires CategoryTable(spec, stock).Ok?
    ensures Normalised(spec).Ok?
    ensures CategoryTable(spec, stock).value == DefaultColour(Table(Normalised(spec).value.columns + InventoryFields,
      JoinRows(Normalised(spec).value.rows, DedupeByModel(stock.rows))))
  {
  }

  /** A spec row with a matching inventory row puts a row of its model into the join. */
  lemma JoinHasModel(specs: seq<Row>, stock: seq<Row>, i: nat, v: Row)
    requires i < |specs| && v in stock && Get(v, ModelColumn) == Get(specs[i], ModelColumn)
    ensures exists n :: (0 <= n < |JoinRows(specs, stock)| &&
      Get(JoinRows(specs, stock)[n], ModelColumn) == Get(specs[i], ModelColumn))
  {
    JoinMembers(specs, stock, Merge(specs[i], v));
    ModelColumnApart();
    var n :| 0 <= n < |JoinRows(specs, stock)| && JoinRows(specs, stock)[n] == Merge(specs[i], v);
  }

  /** Row `i` of the normalised spec table has the row's model, stripped and lower-cased. */
  lemma NormalModelAt(spec: Table, i: nat)
    requires Normalised(spec).Ok? && i < |spec.rows|
    ensures Get(Normalised(spec).value.rows[i], ModelColumn) == ModelName(Get(spec.rows[i], ModelColumn))
  {
    NormalRowGet(spec.columns, spec.rows[i], ModelColumn);
    NormalModel(spec.columns, Get(spec.rows[i], ModelColumn));
  }

  /** Defaulting the colour leaves every row's model as it was. */
  lemma DefaultColourKeepsModel(t: Table, m: Cell)
    requires exists n :: 0 <= n < |t.rows| && Get(t.rows[n], ModelColumn) == m
    ensures exists r :: r in DefaultColour(t).rows && Get(r, ModelColumn) == m
  {
    var n :| 0 <= n < |t.rows| && Get(t.rows[n], ModelColumn) == m;
    assert DefaultColour(t).rows[n] in DefaultColour(t).rows;
  }

  /**
   * With the inventory as prepared, a spec row yields a loaded row of its
   * model whenever some inventory row names the same model, however that
   * name is padded or cased: " Sony " joins "sony".
   */
  lemma InventoryModelJoins(spec: Table, inventory: Table, i: nat, j: nat)
    requires PrepareInventory(inventory).Ok?
    requires CategoryTable(spec, PrepareInventory(inventory).value).Ok?
    requires i < |spec.rows| && j < |inventory.rows|
    requires Get(inventory.rows[j], ModelColumn).Text?
    requires ModelName(Get(inventory.rows[j], ModelColumn)) == ModelName(Get(spec.rows[i], ModelColumn))
    ensures exists r :: (r in CategoryTable(spec, PrepareInventory(inventory).value).value.rows &&
      Get(r, ModelColumn) == ModelName(Get(spec.rows[i], ModelColumn)))
  {
    var stock := PrepareInventory(inventory).value;
    InventoryPrepared(inventory);
    var row := CleanRow(inventory.rows[j]);
    assert row in stock.rows;
    var k :| 0 <= k < |stock.rows| && stock.rows[k] == row;
    StockedModelJoins(spec, stock, i, k);
  }

  /** A loaded table has the spec's columns followed by the inventory fields. */
  lemma CategoryColumns(spec: Table, stock: Table)
    requires CategoryTable(spec, stock).Ok?
    ensures CategoryTable(spec, stock).value.columns == spec.columns + InventoryFields
  {
  }

  /** The loaded camera table has no column 'Flipscreen type'. */
  lemma CameraHeaderLacksFlipscreenType(spec: Table, stock: Table)
    requires spec.columns == CameraHeader
    requires CategoryTable(spec, stock).Ok?
    ensures "Flipscreen type" !in CategoryTable(spec, stock).value.columns
  {
    CategoryColumns(spec, stock);
    CameraHeaderNames();
  }

  lemma CameraHeaderNames()
    ensures "Flipscreen type" !in CameraHeader + InventoryFields
  {
    forall k | 0 <= k < 17 ensures CameraHeader[k] != "Flipscreen type" {
      var c := CameraHeader[k];
      assert |c| != 15 || c[0] != 'F' || c[2] != 'i' || c[11] == 'T';
    }
    forall k | 17 <= k < |CameraHeader| ensures CameraHeader[k] != "Flipscreen type" {
      assert |CameraHeader[k]| != 15 || CameraHeader[k][0] != 'F';
    }
  }

  /** The loaded drone table has no column named 'Obstacle Avoidance Sensor'. */
  lemma DroneHeaderLacksObstacle(spec: Table, stock: Table)
    requires spec.columns == DroneHeader
    requires CategoryTable(spec, stock).Ok?
    ensures "Obstacle Avoidance Sensor" !in CategoryTable(spec, stock).value.columns
  {
    CategoryColumns(spec, stock);
    DroneHeaderNames();
  }

  lemma DroneHeaderNames()
    ensures "Obstacle Avoidance Sensor" !in DroneHeader + InventoryFields
  {
    forall k | 0 <= k < |DroneHeader| ensures DroneHeader[k] != "Obstacle Avoidance Sensor" {
      var c := DroneHeader[k];
      assert |c| != 25 || c[0] != 'O';
    }
  }
}
