/**
 * The bucket dictionaries of `apply_filters`: a label chosen by the buyer
 * ("Light", "Medium", ...) maps to a `(min, max)` tuple, and each bound that
 * is set becomes one comparison on the field's column. Which comparison
 * (`>=` or `>`, `<=` or `<`) and how a bound counts as "set" differ per field.
 *
 * `Bucket` restates every bucket as an interval with explicit open and closed
 * ends; `BucketAgreement` proves the dictionaries and comparators select
 * exactly those intervals.
 */
module Buckets {
  import opened Values
  import opened Selection

  /** A `(min, max)` tuple; None is Python's None. */
  datatype Bounds = Bounds(lo: Option<real>, hi: Option<real>)

  /** Every field whose criterion is a bucket label. */
  datatype BucketField =
    | CameraWeight | CameraResolution | CameraIso
    | LensAperture
    | DroneWeight | DroneFlightTime | DroneSpeed | DroneRange
    | GimbalPayload | GimbalBattery
    | ActionWeight | ActionBattery

  /** The criteria key that selects the bucket. */
  function Key(f: BucketField): string {
    match f
    case CameraWeight => "Weight"
    case CameraResolution => "Resolution"
    case CameraIso => "ISO Max"
    case LensAperture => "Max Aperture"
    case DroneWeight => "Weight"
    case DroneFlightTime => "Max Flight Time"
    case DroneSpeed => "Maximum Flight Speed (km/h)"
    case DroneRange => "Control Range (km)"
    case GimbalPayload => "Maximum Payload (kg)"
    case GimbalBattery => "Battery Life (hours)"
    case ActionWeight => "Weight"
    case ActionBattery => "Battery Life (minutes)"
  }

  /** The column the comparisons read. */
  function Column(f: BucketField): string {
    match f
    case CameraWeight => "Weight (gram)"
    case CameraResolution => "Resolution (MP)"
    case CameraIso => "ISO Max"
    case LensAperture => "Max Aperture"
    case DroneWeight => "Weight (gram)"
    case DroneFlightTime => "Max Flight Time (minutes)"
    case DroneSpeed => "Maximum Flight Speed (km/h)"
    case DroneRange => "Control Range (km)"
    case GimbalPayload => "Maximum Payload (kg)"
    case GimbalBattery => "Battery Life (hours)"
    case ActionWeight => "Weight (gram)"
    case ActionBattery => "Battery Life (minutes)"
  }

  function Between(lo: real, hi: real): Bounds { Bounds(Some(lo), Some(hi)) }
  function UpTo(hi: real): Bounds { Bounds(None, Some(hi)) }
  function From(lo: real): Bounds { Bounds(Some(lo), None) }

  /** The dictionary literal written in the filter for the field. */
  function Labels(f: BucketField): map<string, Bounds> {
    match f
    case CameraWeight => map["Light" := UpTo(400.0), "Medium" := Between(400.0, 600.0), "Heavy" := From(600.0)]
    case CameraResolution => map["Below 20MP" := UpTo(20.0), "20-30MP" := Between(20.0, 30.0), "Above 30MP" := From(30.0)]
    case CameraIso => map["General" := UpTo(12800.0), "High" := From(12800.0)]
    case LensAperture => map["Wide" := Between(1.0, 1.8), "Medium" := Between(2.0, 2.8), "Narrow" := Between(3.5, 5.6)]
    case DroneWeight => map["Light" := UpTo(250.0), "Medium" := Between(250.0, 900.0)]
    case DroneFlightTime => map["General" := Between(20.0, 30.0), "Long" := From(30.0)]
    case DroneSpeed => map["Slow" := UpTo(36.0), "Moderate" := Between(36.0, 54.0), "Fast" := Between(54.0, 72.0), "Very Fast" := From(72.0)]
    case DroneRange => map["Short" := UpTo(9.0), "Medium" := Between(10.0, 15.0), "Long" := From(15.0)]
    case GimbalPayload => map["0.3kg" := UpTo(0.3), "0.3-2kg" := Between(0.3, 2.0), "Above 2kg" := From(2.0)]
    case GimbalBattery => map["Below 10h" := UpTo(10.0), "Above 10h" := From(11.0)]
    case ActionWeight => map["Light" := UpTo(100.0), "Medium" := From(100.0)]
    case ActionBattery => map["Below 100 minutes" := UpTo(100.0), "100-150 minutes" := Between(100.0, 150.0), "Above 150 minutes" := From(150.0)]
  }

  /** The lower bound is compared with `>` rather than `>=`. */
  predicate LowerStrict(f: BucketField) {
    f == CameraIso || f == DroneFlightTime || f == GimbalPayload
  }

  /** The upper bound is compared with `<` rather than `<=`. */
  predicate UpperStrict(f: BucketField) {
    f == DroneWeight
  }

  /**
   * Whether a bound is applied: `if min_w:` tests Python truth (so a bound
   * of 0 would be skipped); only the payload filter tests `is not None`.
   */
  predicate Active(f: BucketField, b: Option<real>) {
    b.Some? && (f == GimbalPayload || b.value != 0.0)
  }

  /** The comparisons one `(min, max)` tuple turns into, lower bound first. */
  function RangeSteps(f: BucketField, b: Bounds): seq<Step> {
    (if Active(f, b.lo)
     then [Select(Column(f), if LowerStrict(f) then Above(b.lo.value) else AtLeast(b.lo.value))]
     else [])
    + (if Active(f, b.hi)
       then [Select(Column(f), if UpperStrict(f) then Below(b.hi.value) else AtMost(b.hi.value))]
       else [])
  }

  // ---------------------------------------------------------------------
  // The buckets as intervals

  datatype Edge = Unbounded | Closed(at: real) | Open(at: real)

  datatype Interval = Interval(lower: Edge, upper: Edge)

  predicate InInterval(x: real, iv: Interval) {
    (match iv.lower
     case Unbounded => true
     case Closed(a) => a <= x
     case Open(a) => a < x)
    &&
    (match iv.upper
     case Unbounded => true
     case Closed(a) => x <= a
     case Open(a) => x < a)
  }

  function AtMostIv(a: real): Interval { Interval(Unbounded, Closed(a)) }
  function AtLeastIv(a: real): Interval { Interval(Closed(a), Unbounded) }
  function Closed2(a: real, b: real): Interval { Interval(Closed(a), Closed(b)) }

  /** Each bucket's interval of values, with its ends open or closed. */
  function Bucket(f: BucketField, choice: string): Option<Interval> {
    match f
    case CameraWeight =>
      if choice == "Light" then Some(AtMostIv(400.0))
      else if choice == "Medium" then Some(Closed2(400.0, 600.0))
      else if choice == "Heavy" then Some(AtLeastIv(600.0))
      else None
    case CameraResolution =>
      if choice == "Below 20MP" then Some(AtMostIv(20.0))
      else if choice == "20-30MP" then Some(Closed2(20.0, 30.0))
      else if choice == "Above 30MP" then Some(AtLeastIv(30.0))
      else None
    case CameraIso =>
      if choice == "General" then Some(AtMostIv(12800.0))
      else if choice == "High" then Some(Interval(Open(12800.0), Unbounded))
      else None
    case LensAperture =>
      if choice == "Wide" then Some(Closed2(1.0, 1.8))
      else if choice == "Medium" then Some(Closed2(2.0, 2.8))
      else if choice == "Narrow" then Some(Closed2(3.5, 5.6))
      else None
    case DroneWeight =>
      if choice == "Light" then Some(Interval(Unbounded, Open(250.0)))
      else if choice == "Medium" then Some(Interval(Closed(250.0), Open(900.0)))
      else None
    case DroneFlightTime =>
      if choice == "General" then Some(Interval(Open(20.0), Closed(30.0)))
      else if choice == "Long" then Some(Interval(Open(30.0), Unbounded))
      else None
    case DroneSpeed =>
      if choice == "Slow" then Some(AtMostIv(36.0))
      else if choice == "Moderate" then Some(Closed2(36.0, 54.0))
      else if choice == "Fast" then Some(Closed2(54.0, 72.0))
      else if choice == "Very Fast" then Some(AtLeastIv(72.0))
      else None
    case DroneRange =>
      if choice == "Short" then Some(AtMostIv(9.0))
      else if choice == "Medium" then Some(Closed2(10.0, 15.0))
      else if choice == "Long" then Some(AtLeastIv(15.0))
      else None
    case GimbalPayload =>
      if choice == "0.3kg" then Some(AtMostIv(0.3))
      else if choice == "0.3-2kg" then Some(Interval(Open(0.3), Closed(2.0)))
      else if choice == "Above 2kg" then Some(Interval(Open(2.0), Unbounded))
      else None
    case GimbalBattery =>
      if choice == "Below 10h" then Some(AtMostIv(10.0))
      else if choice == "Above 10h" then Some(AtLeastIv(11.0))
      else None
    case ActionWeight =>
      if choice == "Light" then Some(AtMostIv(100.0))
      else if choice == "Medium" then Some(AtLeastIv(100.0))
      else None
    case ActionBattery =>
      if choice == "Below 100 minutes" then Some(AtMostIv(100.0))
      else if choice == "100-150 minutes" then Some(Closed2(100.0, 150.0))
      else if choice == "Above 150 minutes" then Some(AtLeastIv(150.0))
      else None
  }

  // ---------------------------------------------------------------------
  // Lemmas

  /** The interval a `(min, max)` tuple selects under the field's comparators. */
  function Meaning(f: BucketField, b: Bounds): Interval {
    Interval(
      if !Active(f, b.lo) then Unbounded else if LowerStrict(f) then Open(b.lo.value) else Closed(b.lo.value),
      if !Active(f, b.hi) then Unbounded else if UpperStrict(f) then Open(b.hi.value) else Closed(b.hi.value))
  }

  /**
   * The comparisons of a tuple with at least one bound in force keep a row
   * iff its cell is a number inside the tuple's interval.
   */
  lemma RangeStepsOnRow(f: BucketField, b: Bounds, row: Row)
    requires Active(f, b.lo) || Active(f, b.hi)
    ensures AllHold(RangeSteps(f, b), row) <==>
      Get(row, Column(f)).Num? && InInterval(Get(row, Column(f)).n, Meaning(f, b))
  {
    var steps := RangeSteps(f, b);
    var cell := Get(row, Column(f));
    if Active(f, b.lo) {
      assert Holds(steps[0], row) <==>
        (cell.Num? && if LowerStrict(f) then b.lo.value < cell.n else b.lo.value <= cell.n);
    }
    if Active(f, b.hi) {
      var k := |steps| - 1;
      assert Holds(steps[k], row) <==>
        (cell.Num? && if UpperStrict(f) then cell.n < b.hi.value else cell.n <= b.hi.value);
    }
  }

  /** The dictionaries know exactly the labels of the interval table. */
  lemma LabelsKnown(f: BucketField, choice: string)
    ensures choice in Labels(f) <==> Bucket(f, choice).Some?
  {
    match f
    case CameraWeight =>
    case CameraResolution =>
    case CameraIso =>
    case LensAperture =>
    case DroneWeight =>
    case DroneFlightTime =>
    case DroneSpeed =>
    case DroneRange =>
    case GimbalPayload =>
    case GimbalBattery =>
    case ActionWeight =>
    case ActionBattery =>
  }

  /** The camera and lens dictionaries mean the table's intervals. */
  lemma LabelsMeanCameraBuckets(f: BucketField, choice: string)
    requires f == CameraWeight || f == CameraResolution || f == CameraIso || f == LensAperture
    requires choice in Labels(f)
    ensures Active(f, Labels(f)[choice].lo) || Active(f, Labels(f)[choice].hi)
    ensures Bucket(f, choice).Some? && Meaning(f, Labels(f)[choice]) == Bucket(f, choice).value
  {
    match f
    case CameraWeight =>
    case CameraResolution =>
    case CameraIso =>
    case LensAperture =>
    case _ =>
  }

  /** The drone dictionaries mean the table's intervals. */
  lemma LabelsMeanDroneBuckets(f: BucketField, choice: string)
    requires f == DroneWeight || f == DroneFlightTime || f == DroneSpeed || f == DroneRange
    requires choice in Labels(f)
    ensures Active(f, Labels(f)[choice].lo) || Active(f, Labels(f)[choice].hi)
    ensures Bucket(f, choice).Some? && Meaning(f, Labels(f)[choice]) == Bucket(f, choice).value
  {
    match f
    case DroneWeight =>
    case DroneFlightTime =>
    case DroneSpeed =>
    case DroneRange =>
    case _ =>
  }

  /** The gimbal and action camera dictionaries mean the table's intervals. */
  lemma LabelsMeanOtherBuckets(f: BucketField, choice: string)
    requires f == GimbalPayload || f == GimbalBattery || f == ActionWeight || f == ActionBattery
    requires choice in Labels(f)
    ensures Active(f, Labels(f)[choice].lo) || Active(f, Labels(f)[choice].hi)
    ensures Bucket(f, choice).Some? && Meaning(f, Labels(f)[choice]) == Bucket(f, choice).value
  {
    match f
    case GimbalPayload =>
    case GimbalBattery =>
    case ActionWeight =>
    case ActionBattery =>
    case _ =>
  }

  /** Each dictionary entry's bounds, under its comparators, mean the table's interval. */
  lemma LabelsMeanBuckets(f: BucketField, choice: string)
    requires choice in Labels(f)
    ensures Active(f, Labels(f)[choice].lo) || Active(f, Labels(f)[choice].hi)
    ensures Bucket(f, choice).Some? && Meaning(f, Labels(f)[choice]) == Bucket(f, choice).value
  {
    if f == CameraWeight || f == CameraResolution || f == CameraIso || f == LensAperture {
      LabelsMeanCameraBuckets(f, choice);
    } else if f == DroneWeight || f == DroneFlightTime || f == DroneSpeed || f == DroneRange {
      LabelsMeanDroneBuckets(f, choice);
    } else {
      LabelsMeanOtherBuckets(f, choice);
    }
  }

  /**
   * The dictionaries know exactly the labels of the interval table, and the
   * comparisons a label produces keep a row iff its value is a number in
   * that label's interval: strict and non-strict ends as the table says.
   */
  lemma BucketAgreement(f: BucketField, choice: string, row: Row)
    ensures choice in Labels(f) <==> Bucket(f, choice).Some?
    ensures choice in Labels(f) ==>
      (AllHold(RangeSteps(f, Labels(f)[choice]), row) <==>
       Get(row, Column(f)).Num? && InInterval(Get(row, Column(f)).n, Bucket(f, choice).value))
  {
    LabelsKnown(f, choice);
    if choice in Labels(f) {
      LabelsMeanBuckets(f, choice);
      RangeStepsOnRow(f, Labels(f)[choice], row);
    }
  }

  /** The drone weight boundary: 250 g is Medium, 900 g is in no bucket. */
  lemma DroneWeightEdges()
    ensures InInterval(250.0, Bucket(DroneWeight, "Medium").value)
    ensures !InInterval(250.0, Bucket(DroneWeight, "Light").value)
    ensures forall choice :: Bucket(DroneWeight, choice).Some? ==> !InInterval(900.0, Bucket(DroneWeight, choice).value)
  {
  }

  /** Control ranges strictly between 9 and 10 km fall in no range bucket. */
  lemma DroneRangeGap(x: real)
    requires 9.0 < x < 10.0
    ensures forall choice :: Bucket(DroneRange, choice).Some? ==> !InInterval(x, Bucket(DroneRange, choice).value)
  {
  }

  /** An action camera of exactly 100 g is both Light and Medium. */
  lemma ActionWeightOverlap()
    ensures InInterval(100.0, Bucket(ActionWeight, "Light").value)
    ensures InInterval(100.0, Bucket(ActionWeight, "Medium").value)
  {
  }
}
