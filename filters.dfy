/**
 * `apply_filters`: the buyer's criteria become, in the order the filter
 * reads them, a list of row selections on the category's table, then the
 * price window. A criterion the code cannot use (a label missing from a
 * bucket dictionary, a value without `.lower()`, no usable price range)
 * raises an exception at its place in that order.
 *
 * The filter is modelled in two stages: `FilterPlan` turns the criteria into
 * the steps that run before the first exception and that exception, if any;
 * `ApplyFilters` runs the steps on the table and then raises it.
 */
module Filters {
  import opened Values
  import opened Text
  import opened Selection
  import opened Buckets

  /** The criteria keys and columns the filter reads besides the buckets. */
  const ConditionKey := "Condition"
  const ColourKey := "Colour"
  const ObstacleKey := "Obstacle Avoidance Sensor"
  const PayloadKey := "Maximum Payload (kg)"
  const CompatibilityKey := "Device Compatibility"
  const CapabilityKey := "Video Recording Capabilities"
  const PriceKey := "price"
  const PriceColumn := "Price"

  /** One `if '<key>' in criteria:` block of the filter. */
  datatype Rule =
    | ConditionRule                               // new or used, any category
    | ColourRule                                  // cameras and lenses
    | BucketRule(field: BucketField)              // a label from a bucket dictionary
    | EqualRule(key: string)                      // df[key] == criteria[key]
    | FourKRule                                   // '4K Video' Yes/No on 'Quality 4K'
    | FlipscreenRule                              // 'Flipscreen', then 'Flipscreen type'
    | YesFlagRule(key: string, column: string)    // df[column] == (1 if value == 'Yes' else 0)
    | FeatureRule(name: string)                   // a truthy feature requires df[name] == 1
    | ObstacleRule                                // drones, only if the column exists
    | PayloadRule                                 // gimbals, coerces the column first
    | CompatibilityRule                           // gimbals, lower-cased equality
    | CapabilityRule                              // action cameras, substring match
    | PriceRule                                   // every category, last

  /** The blocks of the category's branch, in source order. */
  function CategoryRules(category: string): seq<Rule> {
    if category == "cameras" then
      [BucketRule(CameraWeight), EqualRule("Design Style"), BucketRule(CameraResolution), FourKRule,
       BucketRule(CameraIso), FlipscreenRule,
       YesFlagRule("Optical Viewfinder", "Optical Viewfinder"),
       YesFlagRule("Electronic Viewfinder (EVF)", "Electronic Viewfinder (EVF)"),
       FeatureRule("Weathersealing"), FeatureRule("IBIS"), FeatureRule("USB-C")]
    else if category == "lenses" then
      [EqualRule("Lens Type"), BucketRule(LensAperture), YesFlagRule("OIS", "Image Stabilization (OIS)")]
    else if category == "drones" then
      [BucketRule(DroneWeight), BucketRule(DroneFlightTime), EqualRule("Camera Resolution"),
       EqualRule("Frames Per Sec"), ObstacleRule, BucketRule(DroneSpeed), BucketRule(DroneRange),
       FeatureRule("Tracking"), FeatureRule("Orbit Mode"), FeatureRule("Vertical Video Recording")]
    else if category == "gimbals" then
      [PayloadRule, BucketRule(GimbalBattery), CompatibilityRule,
       FeatureRule("Time-lapse"), FeatureRule("Follow Mode"), FeatureRule("App Connectivity")]
    else if category == "action_cameras" then
      [BucketRule(ActionWeight), CapabilityRule, BucketRule(ActionBattery),
       FeatureRule("Time-lapse"), FeatureRule("Slow Motion"), FeatureRule("Water Resistance"),
       FeatureRule("Shock Resistance")]
    else []
  }

  /** Every block the filter runs for the category, in order. */
  function Rules(category: string): seq<Rule> {
    [ConditionRule]
    + (if category == "cameras" || category == "lenses" then [ColourRule] else [])
    + CategoryRules(category)
    + [PriceRule]
  }

  /** Every category starts with the condition block and ends with the price block. */
  lemma RulesEnds(category: string)
    ensures |Rules(category)| >= 2
    ensures Rules(category)[0] == ConditionRule
    ensures Rules(category)[|Rules(category)| - 1] == PriceRule
  {
  }

  /** The flip-screen block is the eighth camera block. */
  lemma CameraFlipscreenAt()
    ensures |Rules("cameras")| > 7 && Rules("cameras")[7] == FlipscreenRule
  {
    assert Rules("cameras") == [ConditionRule, ColourRule] + CategoryRules("cameras") + [PriceRule];
  }

  /** The criteria keys a block reads. */
  function RuleKeys(rule: Rule): set<string> {
    match rule
    case ConditionRule => {ConditionKey}
    case ColourRule => {ColourKey}
    case BucketRule(f) => {Key(f)}
    case EqualRule(k) => {k}
    case FourKRule => {"4K Video"}
    case FlipscreenRule => {"Flipscreen", "Flipscreen type"}
    case YesFlagRule(k, _) => {k}
    case FeatureRule(n) => {n}
    case ObstacleRule => {ObstacleKey}
    case PayloadRule => {PayloadKey}
    case CompatibilityRule => {CompatibilityKey}
    case CapabilityRule => {CapabilityKey}
    case PriceRule => {PriceKey}
  }

  /** The criteria keys the category's filter reads at all. */
  function UsedKeys(rules: seq<Rule>): set<string> {
    if rules == [] then {} else RuleKeys(rules[0]) + UsedKeys(rules[1..])
  }

  // ---------------------------------------------------------------------
  // Plans

  /** The steps that run, then the exception that ends the filter, if any. */
  datatype Plan = Plan(steps: seq<Step>, failure: Option<Error>)

  function Steps(steps: seq<Step>): Plan { Plan(steps, None) }
  function Fail(e: Error): Plan { Plan([], Some(e)) }
  function NoSteps(): Plan { Plan([], None) }

  /** `p` followed by `q`; nothing after an exception runs. */
  function Then(p: Plan, q: Plan): Plan {
    if p.failure.Some? then p else Plan(p.steps + q.steps, q.failure)
  }

  /**
   * `table[value]` for a dictionary with string keys: a list is unhashable
   * (TypeError), any other value that is not one of the keys is a KeyError.
   */
  function LookupLabel<V>(table: map<string, V>, key: string, value: Json): Result<V, Error> {
    match value
    case JStr(s) => if s in table then Ok(table[s]) else Err(UnknownLabel(key, value))
    case JList(_) => Err(Unhashable(key))
    case _ => Err(UnknownLabel(key, value))
  }

  /** `price_range[i]`: lists and strings can be indexed, nothing else can. */
  function Item(value: Json, i: nat): Result<Json, Error> {
    match value
    case JList(xs) => if i < |xs| then Ok(xs[i]) else Err(PriceIndex(i))
    case JStr(s) => if i < |s| then Ok(JStr([s[i]])) else Err(PriceIndex(i))
    case _ => Err(NotSubscriptable)
  }

  /** Python's `int(value)` on a decoded JSON value. */
  function IntOf(value: Json): Result<int, Error> {
    match value
    case JNum(x) => Ok(Trunc(x))
    case JBool(b) => Ok(if b then 1 else 0)
    case JStr(s) => (match ParseInt(s) case Some(i) => Ok(i) case None => Err(BadInt(value)))
    case _ => Err(BadInt(value))
  }

  /** `int(price_range[0])`, then `int(price_range[1])`. */
  function PriceBounds(value: Json): Result<(int, int), Error> {
    var a :- Item(value, 0);
    var lo :- IntOf(a);
    var b :- Item(value, 1);
    var hi :- IntOf(b);
    Ok((lo, hi))
  }

  /** The steps and exception of one block; `columns` are the table's. */
  function Segment(rule: Rule, criteria: Criteria, columns: seq<string>): Plan {
    match rule
    case ConditionRule =>
      if !Truthy(Lookup(criteria, ConditionKey)) then NoSteps()
      else (match criteria[ConditionKey]
            case JStr(s) =>
              if Lower(s) == "new" || Lower(s) == "used"
              then Steps([Select(ConditionKey, LowerIs(Lower(s)))])
              else NoSteps()
            case _ => Fail(NoLower(ConditionKey)))
    case ColourRule =>
      if !Truthy(Lookup(criteria, ColourKey)) then NoSteps()
      else if ColourKey !in columns then Fail(MissingColumn(ColourKey))
      else (match criteria[ColourKey]
            case JStr(s) => Steps([Select(ColourKey, EqualsValue(JStr(Lower(s))))])
            case _ => Fail(NoLower(ColourKey)))
    case BucketRule(f) =>
      if Key(f) !in criteria then NoSteps()
      else (match LookupLabel(Labels(f), Key(f), criteria[Key(f)])
            case Ok(b) => Steps(RangeSteps(f, b))
            case Err(e) => Fail(e))
    case EqualRule(k) =>
      if k !in criteria then NoSteps() else Steps([Select(k, EqualsValue(criteria[k]))])
    case FourKRule =>
      if "4K Video" !in criteria then NoSteps()
      else if "Quality 4K" !in columns then Fail(MissingColumn("Quality 4K"))
      else (match LookupLabel(map["Yes" := 1.0, "No" := 0.0], "4K Video", criteria["4K Video"])
            case Ok(flag) => Steps([Select("Quality 4K", FlagIs(flag))])
            case Err(e) => Fail(e))
    case FlipscreenRule =>
      if "Flipscreen" !in criteria then NoSteps()
      else if criteria["Flipscreen"] == JStr("Yes") then
        Steps([Select("Flipscreen", FlagIs(1.0))]
              + (if "Flipscreen type" in criteria
                 then [Select("Flipscreen type", EqualsValue(criteria["Flipscreen type"]))]
                 else []))
      else Steps([Select("Flipscreen", FlagIs(0.0))])
    case YesFlagRule(k, c) =>
      if k !in criteria then NoSteps()
      else Steps([Select(c, FlagIs(if criteria[k] == JStr("Yes") then 1.0 else 0.0))])
    case FeatureRule(n) =>
      if Truthy(Lookup(criteria, n)) then Steps([Select(n, FlagIs(1.0))]) else NoSteps()
    case ObstacleRule =>
      if ObstacleKey !in criteria || ObstacleKey !in columns then NoSteps()
      else if criteria[ObstacleKey] == JStr("Yes") then Steps([Select(ObstacleKey, StrippedLowerIsNot("no"))])
      else if criteria[ObstacleKey] == JStr("No") then Steps([Select(ObstacleKey, StrippedLowerIs("no"))])
      else NoSteps()
    case PayloadRule =>
      if PayloadKey !in criteria then NoSteps()
      else if criteria[PayloadKey].JList? then Fail(Unhashable(PayloadKey))
      else if criteria[PayloadKey].JStr? && criteria[PayloadKey].s in Labels(GimbalPayload) then
        (if PayloadKey in columns
         then Steps([ToNumeric(PayloadKey)] + RangeSteps(GimbalPayload, Labels(GimbalPayload)[criteria[PayloadKey].s]))
         else NoSteps())
      else NoSteps()
    case CompatibilityRule =>
      if CompatibilityKey !in criteria then NoSteps()
      else if CompatibilityKey !in columns then Fail(MissingColumn(CompatibilityKey))
      else (match criteria[CompatibilityKey]
            case JStr(s) => Steps([Select(CompatibilityKey, EqualsValue(JStr(Lower(s))))])
            case _ => Fail(NoLower(CompatibilityKey)))
    case CapabilityRule =>
      if CapabilityKey !in criteria then NoSteps()
      else (match criteria[CapabilityKey]
            case JStr(s) => Steps([Select(CapabilityKey, ContainsText(s))])
            case _ => if CapabilityKey !in columns then Fail(MissingColumn(CapabilityKey))
                      else Fail(BadPattern(CapabilityKey)))
    case PriceRule =>
      var v := Lookup(criteria, PriceKey);
      if !(v.JList? && |v.items| == 2) && PriceColumn !in columns then Fail(MissingColumn(PriceColumn))
      else (match PriceBounds(v)
            case Ok(bounds) => Steps([Select(PriceColumn, Within(bounds.0, bounds.1))])
            case Err(e) => Fail(e))
  }

  function PlanOf(rules: seq<Rule>, criteria: Criteria, columns: seq<string>): Plan
    decreases |rules|
  {
    if rules == [] then NoSteps()
    else Then(Segment(rules[0], criteria, columns), PlanOf(rules[1..], criteria, columns))
  }

  function FilterPlan(category: string, criteria: Criteria, columns: seq<string>): Plan {
    PlanOf(Rules(category), criteria, columns)
  }

  /**
   * `apply_filters(df, category, criteria)`. Filtering never adds a row or
   * changes the columns.
   */
  function ApplyFilters(t: Table, category: string, criteria: Criteria): (r: Result<Table, Error>)
    ensures r.Ok? ==> r.value.columns == t.columns && |r.value.rows| <= |t.rows|
  {
    var plan := FilterPlan(category, criteria, t.columns);
    RunShape(t, plan.steps);
    var out :- Run(t, plan.steps);
    if plan.failure.Some? then Err(plan.failure.value) else Ok(out)
  }

  // ---------------------------------------------------------------------
  // Structure of plans

  lemma {:induction false} SelectRowsShorter(rows: seq<Row>, c: string, test: Test)
    requires SelectRows(rows, c, test).Ok?
    ensures |SelectRows(rows, c, test).value| <= |rows|
  {
    if rows != [] {
      SelectRowsShorter(rows[1..], c, test);
    }
  }

  lemma {:induction false} RunShape(t: Table, steps: seq<Step>)
    ensures Run(t, steps).Ok? ==>
      Run(t, steps).value.columns == t.columns && |Run(t, steps).value.rows| <= |t.rows|
    decreases |steps|
  {
    if steps != [] && Exec(t, steps[0]).Ok? {
      var t1 := Exec(t, steps[0]).value;
      if steps[0].Select? {
        SelectRowsShorter(t.rows, steps[0].column, steps[0].test);
      }
      RunShape(t1, steps[1..]);
    }
  }

  /**
   * A plan raises nothing iff no block does, and then its steps are exactly
   * the blocks' steps.
   */
  lemma {:induction false} PlanOfParts(rules: seq<Rule>, criteria: Criteria, columns: seq<string>)
    ensures PlanOf(rules, criteria, columns).failure.None? <==>
      forall i :: 0 <= i < |rules| ==> Segment(rules[i], criteria, columns).failure.None?
    ensures PlanOf(rules, criteria, columns).failure.None? ==>
      forall s :: s in PlanOf(rules, criteria, columns).steps <==>
        exists i :: 0 <= i < |rules| && s in Segment(rules[i], criteria, columns).steps
    decreases |rules|
  {
    if rules != [] {
      PlanOfParts(rules[1..], criteria, columns);
      var head := Segment(rules[0], criteria, columns);
      var rest := PlanOf(rules[1..], criteria, columns);
      if head.failure.None? && rest.failure.None? {
        forall s | s in head.steps + rest.steps
          ensures exists i :: 0 <= i < |rules| && s in Segment(rules[i], criteria, columns).steps
        {
          if s !in head.steps {
            var i :| 0 <= i < |rules[1..]| && s in Segment(rules[1..][i], criteria, columns).steps;
            assert rules[1..][i] == rules[i + 1];
          }
        }
        forall s | exists i :: 0 <= i < |rules| && s in Segment(rules[i], criteria, columns).steps
          ensures s in head.steps + rest.steps
        {
          var i :| 0 <= i < |rules| && s in Segment(rules[i], criteria, columns).steps;
          if i > 0 {
            assert rules[1..][i - 1] == rules[i];
          }
        }
      }
      if head.failure.None? && rest.failure.Some? {
        var i :| 0 <= i < |rules[1..]| && Segment(rules[1..][i], criteria, columns).failure.Some?;
        assert rules[1..][i] == rules[i + 1];
      }
      if PlanOf(rules, criteria, columns).failure.None? {
        forall i | 0 <= i < |rules| ensures Segment(rules[i], criteria, columns).failure.None? {
          if i > 0 {
            assert rules[1..][i - 1] == rules[i];
          }
        }
      }
    }
  }

  /** Every step that rewrites a column rewrites `c`. */
  predicate CoercesOnly(steps: seq<Step>, c: string) {
    forall i :: 0 <= i < |steps| && steps[i].ToNumeric? ==> steps[i].column == c
  }

  lemma RangeStepsSelect(f: BucketField, b: Bounds)
    ensures forall i :: 0 <= i < |RangeSteps(f, b)| ==> RangeSteps(f, b)[i].Select?
  {
  }

  /** Only the payload block rewrites a column, and only the payload column. */
  lemma SegmentCoercesPayloadOnly(rule: Rule, criteria: Criteria, columns: seq<string>)
    ensures CoercesOnly(Segment(rule, criteria, columns).steps, PayloadKey)
  {
    match rule
    case BucketRule(f) =>
      if Key(f) in criteria && LookupLabel(Labels(f), Key(f), criteria[Key(f)]).Ok? {
        RangeStepsSelect(f, LookupLabel(Labels(f), Key(f), criteria[Key(f)]).value);
      }
    case PayloadRule =>
      if PayloadKey in criteria && criteria[PayloadKey].JStr? && criteria[PayloadKey].s in Labels(GimbalPayload) {
        RangeStepsSelect(GimbalPayload, Labels(GimbalPayload)[criteria[PayloadKey].s]);
      }
    case _ =>
  }

  lemma {:induction false} PlanCoercesPayloadOnly(rules: seq<Rule>, criteria: Criteria, columns: seq<string>)
    ensures CoercesOnly(PlanOf(rules, criteria, columns).steps, PayloadKey)
    decreases |rules|
  {
    if rules != [] {
      PlanCoercesPayloadOnly(rules[1..], criteria, columns);
      var head := Segment(rules[0], criteria, columns);
      var rest := PlanOf(rules[1..], criteria, columns);
      SegmentCoercesPayloadOnly(rules[0], criteria, columns);
      if head.failure.None? {
        forall i | 0 <= i < |head.steps + rest.steps| && (head.steps + rest.steps)[i].ToNumeric?
          ensures (head.steps + rest.steps)[i].column == PayloadKey
        {
          if i >= |head.steps| {
            assert (head.steps + rest.steps)[i] == rest.steps[i - |head.steps|];
          }
        }
      }
    }
  }

  /** Without a payload column, no block rewrites a column. */
  lemma SegmentNoCoercion(rule: Rule, criteria: Criteria, columns: seq<string>)
    requires PayloadKey !in columns
    ensures forall i :: 0 <= i < |Segment(rule, criteria, columns).steps| ==>
      !Segment(rule, criteria, columns).steps[i].ToNumeric?
  {
    match rule
    case BucketRule(f) =>
      if Key(f) in criteria && LookupLabel(Labels(f), Key(f), criteria[Key(f)]).Ok? {
        RangeStepsSelect(f, LookupLabel(Labels(f), Key(f), criteria[Key(f)]).value);
      }
    case _ =>
  }

  lemma {:induction false} PlanNoCoercion(rules: seq<Rule>, criteria: Criteria, columns: seq<string>)
    requires PayloadKey !in columns
    ensures forall i :: 0 <= i < |PlanOf(rules, criteria, columns).steps| ==>
      !PlanOf(rules, criteria, columns).steps[i].ToNumeric?
    decreases |rules|
  {
    if rules != [] {
      PlanNoCoercion(rules[1..], criteria, columns);
      var head := Segment(rules[0], criteria, columns);
      var rest := PlanOf(rules[1..], criteria, columns);
      SegmentNoCoercion(rules[0], criteria, columns);
      if head.failure.None? {
        forall i | 0 <= i < |head.steps + rest.steps|
          ensures !(head.steps + rest.steps)[i].ToNumeric?
        {
          if i >= |head.steps| {
            assert (head.steps + rest.steps)[i] == rest.steps[i - |head.steps|];
          }
        }
      }
    }
  }

  /**
   * The payload column, if the table has one, holds no string, so the
   * coercion of line 415 changes nothing. The loader makes every table so.
   */
  predicate PayloadNumeric(t: Table) {
    PayloadKey in t.columns ==> NoTextIn(t.rows, PayloadKey)
  }

  /** With the payload column numeric or absent, every coercion is idle. */
  lemma FilterPlanSettled(t: Table, category: string, criteria: Criteria)
    requires PayloadNumeric(t)
    ensures Settled(t.rows, FilterPlan(category, criteria, t.columns).steps)
  {
    PlanCoercesPayloadOnly(Rules(category), criteria, t.columns);
    if PayloadKey !in t.columns {
      PlanNoCoercion(Rules(category), criteria, t.columns);
    }
  }

  // ---------------------------------------------------------------------
  // What the filter keeps

  /**
   * When the payload column holds no strings or is absent (as after loading),
   * a successful filter keeps exactly the rows every step of the plan
   * admits, in table order.
   */
  lemma ApplyFiltersKeeps(t: Table, category: string, criteria: Criteria)
    requires ApplyFilters(t, category, criteria).Ok?
    requires PayloadNumeric(t)
    ensures ApplyFilters(t, category, criteria).value.rows ==
      KeepRows(t.rows, FilterPlan(category, criteria, t.columns).steps)
  {
    var plan := FilterPlan(category, criteria, t.columns);
    FilterPlanSettled(t, category, criteria);
    RunKeeps(t, plan.steps);
  }

  /** The result lists rows of the table, in table order. */
  lemma ApplyFiltersSubsequence(t: Table, category: string, criteria: Criteria)
    requires ApplyFilters(t, category, criteria).Ok?
    requires PayloadNumeric(t)
    ensures IsSubseq(ApplyFilters(t, category, criteria).value.rows, t.rows)
  {
    ApplyFiltersKeeps(t, category, criteria);
    KeepRowsSubseq(t.rows, FilterPlan(category, criteria, t.columns).steps);
  }

  /** Every step of the plan holds of every row the filter returns. */
  lemma ResultSatisfies(t: Table, category: string, criteria: Criteria, s: Step, r: Row)
    requires ApplyFilters(t, category, criteria).Ok?
    requires PayloadNumeric(t)
    requires s in FilterPlan(category, criteria, t.columns).steps
    requires r in ApplyFilters(t, category, criteria).value.rows
    ensures r in t.rows && Holds(s, r)
  {
    var steps := FilterPlan(category, criteria, t.columns).steps;
    ApplyFiltersKeeps(t, category, criteria);
    KeepRowsMembers(t.rows, steps, r);
  }

  /** The block at index `i` of the category contributes its steps. */
  lemma SegmentInPlan(category: string, criteria: Criteria, columns: seq<string>, i: nat)
    requires i < |Rules(category)|
    requires FilterPlan(category, criteria, columns).failure.None?
    ensures Segment(Rules(category)[i], criteria, columns).failure.None?
    ensures forall s :: s in Segment(Rules(category)[i], criteria, columns).steps ==>
      s in FilterPlan(category, criteria, columns).steps
  {
    PlanOfParts(Rules(category), criteria, columns);
  }

  /** A block that raises makes the whole filter raise. */
  lemma SegmentFailureFails(t: Table, category: string, criteria: Criteria, i: nat)
    requires i < |Rules(category)|
    requires Segment(Rules(category)[i], criteria, t.columns).failure.Some?
    ensures ApplyFilters(t, category, criteria).Err?
  {
    PlanOfParts(Rules(category), criteria, t.columns);
  }

  /**
   * Every returned row costs between `int(price[0])` and `int(price[1])`,
   * both ends included.
   */
  lemma PriceWindow(t: Table, category: string, criteria: Criteria, r: Row)
    requires ApplyFilters(t, category, criteria).Ok?
    requires PayloadNumeric(t)
    requires r in ApplyFilters(t, category, criteria).value.rows
    ensures PriceBounds(Lookup(criteria, PriceKey)).Ok?
    ensures Get(r, PriceColumn).Num?
    ensures PriceBounds(Lookup(criteria, PriceKey)).value.0 as real <= Get(r, PriceColumn).n
            <= PriceBounds(Lookup(criteria, PriceKey)).value.1 as real
  {
    var rules := Rules(category);
    var i := |rules| - 1;
    RulesEnds(category);
    SegmentInPlan(category, criteria, t.columns, i);
    PriceSegment(criteria, t.columns);
    var bounds := PriceBounds(Lookup(criteria, PriceKey)).value;
    var s := Select(PriceColumn, Within(bounds.0, bounds.1));
    ResultSatisfies(t, category, criteria, s, r);
    WithinHolds(bounds.0, bounds.1, r);
  }

  /** The price block, when it does not raise, is the one window selection. */
  lemma PriceSegment(criteria: Criteria, columns: seq<string>)
    requires Segment(PriceRule, criteria, columns).failure.None?
    ensures PriceBounds(Lookup(criteria, PriceKey)).Ok?
    ensures var bounds := PriceBounds(Lookup(criteria, PriceKey)).value;
      Select(PriceColumn, Within(bounds.0, bounds.1)) in Segment(PriceRule, criteria, columns).steps
  {
  }

  lemma WithinHolds(lo: int, hi: int, r: Row)
    requires Holds(Select(PriceColumn, Within(lo, hi)), r)
    ensures Get(r, PriceColumn).Num? && lo as real <= Get(r, PriceColumn).n <= hi as real
  {
  }

  /**
   * Without a `price` entry the filter always fails: `price_range[0]` is
   * evaluated on None, after `df['Price']` when the table has no such column.
   */
  lemma PriceRequired(t: Table, category: string, criteria: Criteria)
    requires PriceKey !in criteria
    ensures ApplyFilters(t, category, criteria).Err?
  {
    var rules := Rules(category);
    RulesEnds(category);
    SegmentFailureFails(t, category, criteria, |rules| - 1);
  }

  /** `int()` of each of two integers (as JSON numbers or strings) gives them back. */
  lemma PriceBoundsOfPair(lo: int, hi: int)
    ensures PriceBounds(JList([JNum(lo as real), JNum(hi as real)])) == Ok((lo, hi))
    ensures PriceBounds(JList([JStr(IntText(lo)), JStr(IntText(hi))])) == Ok((lo, hi))
  {
    var nums := JList([JNum(lo as real), JNum(hi as real)]);
    assert Item(nums, 0) == Ok(JNum(lo as real)) && Item(nums, 1) == Ok(JNum(hi as real));
    TruncTowardZero(lo as real);
    TruncTowardZero(hi as real);
    assert IntOf(JNum(lo as real)) == Ok(lo) && IntOf(JNum(hi as real)) == Ok(hi);
    var texts := JList([JStr(IntText(lo)), JStr(IntText(hi))]);
    assert Item(texts, 0) == Ok(JStr(IntText(lo))) && Item(texts, 1) == Ok(JStr(IntText(hi)));
    ParseIntText(lo);
    ParseIntText(hi);
    assert IntOf(JStr(IntText(lo))) == Ok(lo) && IntOf(JStr(IntText(hi))) == Ok(hi);
  }

  /** A two-digit price string is read digit by digit: "59" is the window 5..9. */
  lemma PriceBoundsOfString()
    ensures PriceBounds(JStr("59")) == Ok((5, 9))
    ensures PriceBounds(JList([JNum(100.0)])) == Err(PriceIndex(1))
    ensures PriceBounds(JNull) == Err(NotSubscriptable)
  {
    assert ParseInt("5") == Some(5) by {
      assert Strip("5") == "5";
      assert DigitsValue("5"[..0]) == 0;
    }
    assert ParseInt("9") == Some(9) by {
      assert Strip("9") == "9";
      assert DigitsValue("9"[..0]) == 0;
    }
  }

  /**
   * A bucket label keeps only rows whose value is a number in the label's
   * interval.
   */
  lemma BucketSelects(t: Table, category: string, criteria: Criteria, i: nat, r: Row)
    requires i < |Rules(category)| && Rules(category)[i].BucketRule?
    requires ApplyFilters(t, category, criteria).Ok?
    requires PayloadNumeric(t)
    requires r in ApplyFilters(t, category, criteria).value.rows
    requires Key(Rules(category)[i].field) in criteria
    ensures criteria[Key(Rules(category)[i].field)].JStr?
    ensures var f := Rules(category)[i].field;
      Bucket(f, criteria[Key(f)].s).Some? &&
      Get(r, Column(f)).Num? && InInterval(Get(r, Column(f)).n, Bucket(f, criteria[Key(f)].s).value)
  {
    var f := Rules(category)[i].field;
    SegmentInPlan(category, criteria, t.columns, i);
    var choice := criteria[Key(f)].s;
    var steps := RangeSteps(f, Labels(f)[choice]);
    forall k | 0 <= k < |steps| ensures Holds(steps[k], r) {
      ResultSatisfies(t, category, criteria, steps[k], r);
    }
    BucketAgreement(f, choice, r);
  }

  /** A label the bucket dictionary does not know makes the filter fail. */
  lemma UnknownLabelFails(t: Table, category: string, criteria: Criteria, i: nat)
    requires i < |Rules(category)| && Rules(category)[i].BucketRule?
    requires Key(Rules(category)[i].field) in criteria
    requires !criteria[Key(Rules(category)[i].field)].JStr?
      || Bucket(Rules(category)[i].field, criteria[Key(Rules(category)[i].field)].s).None?
    ensures ApplyFilters(t, category, criteria).Err?
  {
    var f := Rules(category)[i].field;
    if criteria[Key(f)].JStr? {
      LabelsKnown(f, criteria[Key(f)].s);
    }
    SegmentFailureFails(t, category, criteria, i);
  }

  /** The camera 4K block looks its value up in a Yes/No dictionary too: any other value fails. */
  lemma UnknownFourKFails(t: Table, criteria: Criteria)
    requires "4K Video" in criteria
    requires criteria["4K Video"] != JStr("Yes") && criteria["4K Video"] != JStr("No")
    ensures ApplyFilters(t, "cameras", criteria).Err?
  {
    assert Rules("cameras")[5] == FourKRule;
    SegmentFailureFails(t, "cameras", criteria, 5);
  }

  /**
   * `df[c] == <value>` reads the column before the request value: a missing
   * column raises KeyError whatever the value is.
   */
  lemma ColumnReadFirst(criteria: Criteria, columns: seq<string>)
    ensures Truthy(Lookup(criteria, ColourKey)) && ColourKey !in columns ==>
      Segment(ColourRule, criteria, columns) == Fail(MissingColumn(ColourKey))
    ensures "4K Video" in criteria && "Quality 4K" !in columns ==>
      Segment(FourKRule, criteria, columns) == Fail(MissingColumn("Quality 4K"))
    ensures CompatibilityKey in criteria && CompatibilityKey !in columns ==>
      Segment(CompatibilityRule, criteria, columns) == Fail(MissingColumn(CompatibilityKey))
  {
  }

  /** A camera table without a Colour column fails on a non-text colour with KeyError, not AttributeError. */
  lemma MissingColourBeforeValue(row: Row)
    ensures ApplyFilters(Table(["Model", PriceColumn], [row]), "cameras",
      map[ColourKey := JNum(1.0), PriceKey := JList([JNum(1.0), JNum(9.0)])]) == Err(MissingColumn(ColourKey))
  {
    var columns := ["Model", PriceColumn];
    var criteria := map[ColourKey := JNum(1.0), PriceKey := JList([JNum(1.0), JNum(9.0)])];
    var rules := Rules("cameras");
    assert rules[0] == ConditionRule && rules[1] == ColourRule;
    assert Segment(ConditionRule, criteria, columns) == NoSteps();
    ColumnReadFirst(criteria, columns);
    assert PlanOf(rules[1..], criteria, columns) == Fail(MissingColumn(ColourKey));
  }

  /** A truthy feature criterion keeps only rows whose feature column is 1. */
  lemma FeatureSelects(t: Table, category: string, criteria: Criteria, i: nat, r: Row)
    requires i < |Rules(category)| && Rules(category)[i].FeatureRule?
    requires Truthy(Lookup(criteria, Rules(category)[i].name))
    requires ApplyFilters(t, category, criteria).Ok?
    requires PayloadNumeric(t)
    requires r in ApplyFilters(t, category, criteria).value.rows
    ensures Get(r, Rules(category)[i].name) == Num(1.0)
  {
    var n := Rules(category)[i].name;
    SegmentInPlan(category, criteria, t.columns, i);
    FeatureSegment(n, criteria, t.columns);
    ResultSatisfies(t, category, criteria, Select(n, FlagIs(1.0)), r);
    FlagHolds(n, 1.0, r);
  }

  /** A requested feature adds the selection of rows flagged 1. */
  lemma FeatureSegment(n: string, criteria: Criteria, columns: seq<string>)
    requires Truthy(Lookup(criteria, n))
    ensures Select(n, FlagIs(1.0)) in Segment(FeatureRule(n), criteria, columns).steps
  {
  }

  lemma FlagHolds(n: string, f: real, r: Row)
    requires Holds(Select(n, FlagIs(f)), r)
    ensures Get(r, n) == Num(f)
  {
  }

  // ---------------------------------------------------------------------
  // Which criteria matter

  /** `c1` and `c2` agree on the keys in `keys`. */
  predicate AgreeOn(c1: Criteria, c2: Criteria, keys: set<string>) {
    forall k :: k in keys ==> (k in c1 <==> k in c2) && (k in c1 ==> c1[k] == c2[k])
  }

  /** A block reads only its own keys. */
  lemma SegmentLocal(rule: Rule, c1: Criteria, c2: Criteria, columns: seq<string>)
    requires AgreeOn(c1, c2, RuleKeys(rule))
    ensures Segment(rule, c1, columns) == Segment(rule, c2, columns)
  {
    if rule.FlipscreenRule? {
      assert "Flipscreen" in RuleKeys(rule) && "Flipscreen type" in RuleKeys(rule);
    } else if rule.ConditionRule? || rule.ColourRule? || rule.BucketRule? || rule.EqualRule? || rule.FourKRule? {
      SegmentLocalFirst(rule, c1, c2, columns);
    } else {
      SegmentLocalRest(rule, c1, c2, columns);
    }
  }

  lemma SegmentLocalFirst(rule: Rule, c1: Criteria, c2: Criteria, columns: seq<string>)
    requires rule.ConditionRule? || rule.ColourRule? || rule.BucketRule? || rule.EqualRule? || rule.FourKRule?
    requires AgreeOn(c1, c2, RuleKeys(rule))
    ensures Segment(rule, c1, columns) == Segment(rule, c2, columns)
  {
    assert forall k :: k in RuleKeys(rule) ==> Lookup(c1, k) == Lookup(c2, k);
  }

  lemma SegmentLocalRest(rule: Rule, c1: Criteria, c2: Criteria, columns: seq<string>)
    requires rule.YesFlagRule? || rule.FeatureRule? || rule.ObstacleRule? || rule.PayloadRule? ||
             rule.CompatibilityRule? || rule.CapabilityRule? || rule.PriceRule?
    requires AgreeOn(c1, c2, RuleKeys(rule))
    ensures Segment(rule, c1, columns) == Segment(rule, c2, columns)
  {
    assert forall k :: k in RuleKeys(rule) ==> Lookup(c1, k) == Lookup(c2, k);
  }

  lemma {:induction false} PlanOfLocal(rules: seq<Rule>, c1: Criteria, c2: Criteria, columns: seq<string>)
    requires AgreeOn(c1, c2, UsedKeys(rules))
    ensures PlanOf(rules, c1, columns) == PlanOf(rules, c2, columns)
    decreases |rules|
  {
    if rules != [] {
      SegmentLocal(rules[0], c1, c2, columns);
      PlanOfLocal(rules[1..], c1, c2, columns);
    }
  }

  /**
   * A criterion the category's filter never reads (a lens criterion in a
   * camera request, an unknown key) changes nothing, whatever its value.
   */
  lemma IgnoredKey(t: Table, category: string, criteria: Criteria, k: string, v: Json)
    requires k !in UsedKeys(Rules(category))
    ensures ApplyFilters(t, category, criteria[k := v]) == ApplyFilters(t, category, criteria)
    ensures ApplyFilters(t, category, criteria - {k}) == ApplyFilters(t, category, criteria)
  {
    PlanOfLocal(Rules(category), criteria[k := v], criteria, t.columns);
    PlanOfLocal(Rules(category), criteria - {k}, criteria, t.columns);
  }

  lemma {:induction false} ReplaceOneKey(rules: seq<Rule>, j: nat, c1: Criteria, c2: Criteria, columns: seq<string>)
    requires j < |rules|
    requires Segment(rules[j], c1, columns) == Segment(rules[j], c2, columns)
    requires forall i :: 0 <= i < |rules| && i != j ==> AgreeOn(c1, c2, RuleKeys(rules[i]))
    ensures PlanOf(rules, c1, columns) == PlanOf(rules, c2, columns)
    decreases |rules|
  {
    if j > 0 {
      SegmentLocal(rules[0], c1, c2, columns);
      forall i | 0 <= i < |rules[1..]| && i != j - 1 ensures AgreeOn(c1, c2, RuleKeys(rules[1..][i])) {
        assert rules[1..][i] == rules[i + 1];
      }
      ReplaceOneKey(rules[1..], j - 1, c1, c2, columns);
    } else {
      forall i | 0 <= i < |rules[1..]| ensures AgreeOn(c1, c2, RuleKeys(rules[1..][i])) {
        assert rules[1..][i] == rules[i + 1];
      }
      UsedKeysAgree(rules[1..], c1, c2);
      PlanOfLocal(rules[1..], c1, c2, columns);
    }
  }

  lemma {:induction false} UsedKeysAgree(rules: seq<Rule>, c1: Criteria, c2: Criteria)
    requires forall i :: 0 <= i < |rules| ==> AgreeOn(c1, c2, RuleKeys(rules[i]))
    ensures AgreeOn(c1, c2, UsedKeys(rules))
    decreases |rules|
  {
    if rules != [] {
      assert AgreeOn(c1, c2, RuleKeys(rules[0]));
      forall i | 0 <= i < |rules[1..]| ensures AgreeOn(c1, c2, RuleKeys(rules[1..][i])) {
        assert rules[1..][i] == rules[i + 1];
      }
      UsedKeysAgree(rules[1..], c1, c2);
    }
  }

  /** No block of a category's own branch reads the condition key. */
  lemma CategoryRulesKeys(category: string)
    ensures forall r :: r in CategoryRules(category) ==> ConditionKey !in RuleKeys(r)
  {
    if category == "cameras" || category == "lenses" {
      PhotoBranchesAvoidCondition(category);
    } else if category == "drones" {
      DroneBranchAvoidsCondition();
    } else if category == "gimbals" || category == "action_cameras" {
      OtherBranchesAvoidCondition(category);
    }
  }

  lemma PhotoBranchesAvoidCondition(category: string)
    requires category == "cameras" || category == "lenses"
    ensures forall r :: r in CategoryRules(category) ==> ConditionKey !in RuleKeys(r)
  {
    var rules := CategoryRules(category);
    forall i | 0 <= i < |rules| ensures ConditionKey !in RuleKeys(rules[i]) {
      var r := rules[i];
      if r.BucketRule? {
        assert Key(r.field)[0] != 'C' || |Key(r.field)| != 9;
      }
    }
  }

  lemma DroneBranchAvoidsCondition()
    ensures forall r :: r in CategoryRules("drones") ==> ConditionKey !in RuleKeys(r)
  {
    var rules := CategoryRules("drones");
    forall i | 0 <= i < |rules| ensures ConditionKey !in RuleKeys(rules[i]) {
      var r := rules[i];
      if r.BucketRule? {
        assert Key(r.field)[0] != 'C' || |Key(r.field)| != 9;
      }
    }
  }

  lemma OtherBranchesAvoidCondition(category: string)
    requires category == "gimbals" || category == "action_cameras"
    ensures forall r :: r in CategoryRules(category) ==> ConditionKey !in RuleKeys(r)
  {
    var rules := CategoryRules(category);
    forall i | 0 <= i < |rules| ensures ConditionKey !in RuleKeys(rules[i]) {
      var r := rules[i];
      if r.BucketRule? {
        assert Key(r.field)[0] != 'C' || |Key(r.field)| != 9;
      }
    }
  }

  /**
   * A condition other than "new" or "used" (in any letter case) filters
   * nothing: the request behaves as if it had no condition.
   */
  lemma OtherConditionIgnored(t: Table, category: string, criteria: Criteria)
    requires ConditionKey in criteria && criteria[ConditionKey].JStr?
    requires Lower(criteria[ConditionKey].s) != "new" && Lower(criteria[ConditionKey].s) != "used"
    ensures ApplyFilters(t, category, criteria) == ApplyFilters(t, category, criteria - {ConditionKey})
  {
    var rules := Rules(category);
    var c2 := criteria - {ConditionKey};
    RulesEnds(category);
    forall i | 0 <= i < |rules| && i != 0 ensures AgreeOn(criteria, c2, RuleKeys(rules[i])) {
      CategoryRulesKeys(category);
      assert ConditionKey !in RuleKeys(rules[i]) by {
        if rules[i] != ColourRule && rules[i] != PriceRule {
          assert rules[i] in CategoryRules(category);
        }
      }
    }
    ReplaceOneKey(rules, 0, criteria, c2, t.columns);
  }

  /**
   * The obstacle-sensor criterion only acts when the table has a column of
   * exactly that name; without one it is ignored.
   */
  lemma ObstacleNeedsColumn(t: Table, criteria: Criteria)
    requires ObstacleKey !in t.columns
    ensures ApplyFilters(t, "drones", criteria) == ApplyFilters(t, "drones", criteria - {ObstacleKey})
  {
    var rules := Rules("drones");
    var c2 := criteria - {ObstacleKey};
    var j := 5;
    DroneKeys();
    assert Segment(rules[j], criteria, t.columns) == NoSteps() == Segment(rules[j], c2, t.columns);
    ReplaceOneKey(rules, j, criteria, c2, t.columns);
  }

  /** Only the drone block at index 5 reads the obstacle-sensor key. */
  lemma DroneKeys()
    ensures |Rules("drones")| > 5 && Rules("drones")[5] == ObstacleRule
    ensures forall i :: 0 <= i < |Rules("drones")| && i != 5 ==> ObstacleKey !in RuleKeys(Rules("drones")[i])
  {
    var rules := Rules("drones");
    forall i | 0 <= i < |rules| && i != 5
      ensures ObstacleKey !in RuleKeys(rules[i])
    {
    }
  }

  /**
   * The gimbal payload block, unlike the other bucket blocks, skips a label
   * its dictionary does not hold: such a payload value changes nothing.
   */
  lemma UnknownPayloadIgnored(t: Table, criteria: Criteria)
    requires PayloadKey in criteria && !criteria[PayloadKey].JList?
    requires !criteria[PayloadKey].JStr? || criteria[PayloadKey].s !in Labels(GimbalPayload)
    ensures ApplyFilters(t, "gimbals", criteria) == ApplyFilters(t, "gimbals", criteria - {PayloadKey})
  {
    var rules := Rules("gimbals");
    var c2 := criteria - {PayloadKey};
    var j := 1;
    GimbalKeys();
    assert Segment(rules[j], criteria, t.columns) == NoSteps() == Segment(rules[j], c2, t.columns);
    ReplaceOneKey(rules, j, criteria, c2, t.columns);
  }

  /** Only the gimbal block at index 1 reads the payload key. */
  lemma GimbalKeys()
    ensures |Rules("gimbals")| > 1 && Rules("gimbals")[1] == PayloadRule
    ensures forall i :: 0 <= i < |Rules("gimbals")| && i != 1 ==> PayloadKey !in RuleKeys(Rules("gimbals")[i])
  {
    var rules := Rules("gimbals");
    forall i | 0 <= i < |rules| && i != 1
      ensures PayloadKey !in RuleKeys(rules[i])
    {
    }
  }

  /**
   * Asking for a flip screen of a given type reads a column named
   * 'Flipscreen type'; a camera table without it makes the filter fail.
   */
  lemma FlipscreenTypeNeedsColumn(t: Table, category: string, criteria: Criteria, j: nat)
    requires j < |Rules(category)| && Rules(category)[j] == FlipscreenRule
    requires "Flipscreen type" !in t.columns
    requires "Flipscreen" in criteria && criteria["Flipscreen"] == JStr("Yes")
    requires "Flipscreen type" in criteria
    ensures ApplyFilters(t, category, criteria).Err?
  {
    var plan := FilterPlan(category, criteria, t.columns);
    if plan.failure.None? {
      SegmentInPlan(category, criteria, t.columns, j);
      var s := Select("Flipscreen type", EqualsValue(criteria["Flipscreen type"]));
      assert s in Segment(FlipscreenRule, criteria, t.columns).steps;
      var k :| 0 <= k < |plan.steps| && plan.steps[k] == s;
      RunMissingColumn(t, plan.steps, k);
    }
  }

  /** The camera filter, in particular, fails on such a request. */
  lemma CameraFlipscreenTypeNeedsColumn(t: Table, criteria: Criteria)
    requires "Flipscreen type" !in t.columns
    requires "Flipscreen" in criteria && criteria["Flipscreen"] == JStr("Yes")
    requires "Flipscreen type" in criteria
    ensures ApplyFilters(t, "cameras", criteria).Err?
  {
    CameraFlipscreenAt();
    FlipscreenTypeNeedsColumn(t, "cameras", criteria, 7);
  }

  // ---------------------------------------------------------------------
  // More criteria, fewer rows

  /** Every key of `c1` is in `c2` with the same value. */
  predicate Submap(c1: Criteria, c2: Criteria) {
    forall k :: k in c1 ==> k in c2 && c2[k] == c1[k]
  }

  /** Adding criteria only adds steps to a block that raises nothing. */
  lemma SegmentNarrows(rule: Rule, c1: Criteria, c2: Criteria, columns: seq<string>)
    requires Submap(c1, c2)
    requires Segment(rule, c1, columns).failure.None? && Segment(rule, c2, columns).failure.None?
    ensures forall s :: s in Segment(rule, c1, columns).steps ==> s in Segment(rule, c2, columns).steps
  {
    if forall k :: k in RuleKeys(rule) ==> k in c1 {
      SegmentLocal(rule, c1, c2, columns);
    } else if rule.FlipscreenRule? && "Flipscreen" in c1 {
      assert c2["Flipscreen"] == c1["Flipscreen"];
    }
  }

  lemma {:induction false} PlanOfNarrows(rules: seq<Rule>, c1: Criteria, c2: Criteria, columns: seq<string>)
    requires Submap(c1, c2)
    requires PlanOf(rules, c1, columns).failure.None? && PlanOf(rules, c2, columns).failure.None?
    ensures forall s :: s in PlanOf(rules, c1, columns).steps ==> s in PlanOf(rules, c2, columns).steps
    decreases |rules|
  {
    if rules != [] {
      SegmentNarrows(rules[0], c1, c2, columns);
      PlanOfNarrows(rules[1..], c1, c2, columns);
    }
  }

  /**
   * Adding criteria to a request that succeeds, if the larger request
   * succeeds too, returns a subsequence of the rows it returned.
   */
  lemma MoreCriteriaFewerRows(t: Table, category: string, c1: Criteria, c2: Criteria)
    requires Submap(c1, c2)
    requires ApplyFilters(t, category, c1).Ok? && ApplyFilters(t, category, c2).Ok?
    requires PayloadNumeric(t)
    ensures IsSubseq(ApplyFilters(t, category, c2).value.rows, ApplyFilters(t, category, c1).value.rows)
  {
    var p1 := FilterPlan(category, c1, t.columns);
    var p2 := FilterPlan(category, c2, t.columns);
    PlanOfNarrows(Rules(category), c1, c2, t.columns);
    ApplyFiltersKeeps(t, category, c1);
    ApplyFiltersKeeps(t, category, c2);
    KeepRowsNarrowing(t.rows, p1.steps, p2.steps);
  }
}
