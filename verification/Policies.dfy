/** The ten auto-ballooning policies as decisions about one guest and the shared host-free number. */
module Policies {
  import opened Options

  /** One collected row, as far as the policies look at it. */
  datatype Sample = Sample(balloonCur: Option<int>, memUnused: Option<int>)

  /** A guest's snapshot: its latest sizes and its history of samples. */
  datatype View = View(cur: int, min: int, max: int, rows: seq<Sample>)

  /** What one policy call does: it fails, leaves things alone, or sets a target and the number. */
  datatype Decision = Fails | Keeps | Sets(target: real, free: real)

  // ----- numbers -----

  /** int(x) of a float */
  function Trunc(x: real): int {
    if x >= 0.0 then x.Floor else -(-x).Floor
  }

  /** n is x without its fraction. */
  predicate Whole(x: real, n: int) {
    (x >= 0.0 ==> n as real <= x < n as real + 1.0) && (x < 0.0 ==> n as real - 1.0 < x <= n as real)
  }

  lemma {:induction false} WholeIs(x: real, n: int)
    ensures Whole(x, n) <==> n == Trunc(x)
  {
  }

  function Max(a: real, b: real): real {
    if a >= b then a else b
  }

  function Min(a: real, b: real): real {
    if a <= b then a else b
  }

  const MIB5 := 5242880
  const MIB := 1048576
  const PAGES := 4096000.0

  /** The greatest multiple of unit that is not above n; Python's integer division rounds down. */
  function FloorTo(n: int, unit: int): int
    requires unit > 0
  {
    n / unit * unit
  }

  // ----- averages -----

  function Present(vals: seq<Option<int>>): seq<int> {
    if vals == [] then []
    else (if vals[0].Some? then [vals[0].value] else []) + Present(vals[1..])
  }

  function Sum(xs: seq<int>): int {
    if xs == [] then 0 else Sum(xs[..|xs| - 1]) + xs[|xs| - 1]
  }

  /** StatAvg of one field: missing without any row, 0 without any value, and else the integer
      quotient of sum and number of values. */
  function Average(vals: seq<Option<int>>): Option<real> {
    if vals == [] then None
    else
      var xs := Present(vals);
      if xs == [] then Some(0.0) else Some((Sum(xs) / |xs|) as real)
  }

  function Curs(rows: seq<Sample>): seq<Option<int>> {
    seq(|rows|, i requires 0 <= i < |rows| => rows[i].balloonCur)
  }

  function Unused(rows: seq<Sample>): seq<Option<int>> {
    seq(|rows|, i requires 0 <= i < |rows| => rows[i].memUnused)
  }

  datatype Field = BalloonCur | MemUnused

  function Column(rows: seq<Sample>, field: Field): seq<Option<int>> {
    if field == BalloonCur then Curs(rows) else Unused(rows)
  }

  function AvgCur(v: View): Option<real> {
    Average(Curs(v.rows))
  }

  /** StatAvg("balloon_cur") - StatAvg("mem_unused") */
  function Used(v: View): Option<real> {
    var c, u := Average(Curs(v.rows)), Average(Unused(v.rows));
    if c.Some? && u.Some? then Some(c.value - u.value) else None
  }

  /** float(used) / StatAvg("balloon_cur"); there may be nothing to divide by. */
  function UsedPercent(v: View): Option<real> {
    var used, c := Used(v), AvgCur(v);
    if used.Some? && c.Some? && c.value != 0.0 then Some(used.value / c.value) else None
  }

  // ----- the pieces the policies share -----

  /** What is left of the host's free memory once the guest has moved to the given size. */
  function Debited(v: View, free: real, size: real): real {
    free - (size - v.cur as real)
  }

  function Charge(v: View, free: real, size: real): Decision {
    Sets(size, Debited(v, free, size))
  }

  function ChargeIf(cond: bool, v: View, free: real, size: real): Decision {
    if cond then Charge(v, free, size) else Keeps
  }

  function ChargeIfLeft(v: View, free: real, size: real): Decision {
    ChargeIf(Debited(v, free, size) > 0.0, v, free, size)
  }

  function ChargeIfLess(v: View, free: real, size: real): Decision {
    ChargeIf(size < v.cur as real, v, free, size)
  }

  // ----- policies 1 to 7 -----

  function Grow1(v: View, free: real): Decision {
    if v.cur >= v.max then Keeps
    else
      match Used(v)
      case None => Fails
      case Some(used) =>
        var size := Max(v.cur as real * 21.0 / 20.0, used + v.cur as real / 5.0);
        ChargeIfLeft(v, free, Min(size, v.max as real))
  }

  function Shrink1(v: View, free: real): Decision {
    match Used(v)
    case None => Fails
    case Some(used) =>
      ChargeIfLess(v, free, Max(v.cur as real * 19.0 / 20.0, used + v.cur as real / 5.0))
  }

  function Grow2(v: View, free: real): Decision {
    if v.cur >= v.max then Keeps
    else
      match Used(v)
      case None => Fails
      case Some(used) => ChargeIfLeft(v, free, Min(v.cur as real + PAGES, used / 0.5))
  }

  function Shrink2(v: View, free: real): Decision {
    match Used(v)
    case None => Fails
    case Some(used) => ChargeIfLess(v, free, Max(v.cur as real - PAGES, used + v.cur as real / 5.0))
  }

  function Grow3(v: View, free: real): Decision {
    ChargeIfLeft(v, free, Min(v.cur as real * 21.0 / 20.0, v.max as real))
  }

  function Shrink3(v: View, free: real): Decision {
    ChargeIfLess(v, free, Max(v.cur as real * 19.0 / 20.0, v.min as real))
  }

  /** Clamped from below first, and from above last. */
  function Clamp(v: View, size: real): real {
    Min(Max(size, v.min as real), v.max as real)
  }

  /** Shrinking is always allowed, growing only if something stays free. */
  function ChargeEitherWay(v: View, free: real, size: real): Decision {
    if size < v.cur as real then Charge(v, free, size) else ChargeIfLeft(v, free, size)
  }

  /** Move towards four fifths in use. */
  function Proposed4(cur: real, used: real, percent: real): real {
    cur - used * (0.8 - percent) / 0.8
  }

  function Apply4(v: View, free: real): Decision {
    match (Used(v), UsedPercent(v))
    case (Some(used), Some(percent)) =>
      ChargeEitherWay(v, free, Clamp(v, Proposed4(v.cur as real, used, percent)))
    case _ => Fails
  }

  function Apply5(v: View, free: real): Decision {
    match Used(v)
    case None => Fails
    case Some(used) => ChargeEitherWay(v, free, Clamp(v, used / 0.7))
  }

  function Apply6(v: View, free: real): Decision {
    match (Used(v), UsedPercent(v))
    case (Some(used), Some(_)) =>
      var size := Clamp(v, used / 0.7);
      if size < v.cur as real then ChargeIf(free < 100.0, v, free, size)
      else ChargeIfLeft(v, free, v.cur as real + PAGES)
    case _ => Fails
  }

  function Apply7(v: View, free: real): Decision {
    match (Used(v), UsedPercent(v))
    case (Some(used), Some(percent)) =>
      var size := Clamp(v, used / 0.8);
      if size < v.cur as real then ChargeIf(free < 100.0, v, free, size)
      else ChargeIf(Debited(v, free, size) > 0.0 && percent > 0.9, v, free, size)
    case _ => Fails
  }

  // ----- policy 8, iBalloon: four passes -----

  datatype Pass = ShrinkNormal | GrowCritical | GrowWarn | ShrinkWarn

  /** Clamped from above first, and from below last. */
  function ClampUp(v: View, size: real): real {
    Max(Min(size, v.max as real), v.min as real)
  }

  /** Never below the present size, then clamped from above. */
  function NotBelowCur(v: View, size: real): real {
    Min(Max(size, v.cur as real), v.max as real)
  }

  function Decide8(p: Pass, v: View, free: real): Decision {
    match (Used(v), UsedPercent(v))
    case (Some(used), Some(percent)) =>
      (match p
       case ShrinkNormal => if percent > 0.3 then Keeps else ChargeIfLeft(v, free, ClampUp(v, used / 0.5))
       case GrowCritical => if percent < 0.9 then Keeps else ChargeIfLeft(v, free, ClampUp(v, used / 0.7))
       case GrowWarn =>
         var size := NotBelowCur(v, used / 0.7);
         if percent > 0.9 || percent < 0.3 || free < 0.0 then Keeps
         else ChargeIf(size > v.cur as real && Debited(v, free, size) > 0.0, v, free, size)
       case ShrinkWarn =>
         var size := NotBelowCur(v, used / 0.85);
         if percent > 0.9 || percent < 0.3 || free > 0.0 then Keeps
         else ChargeIfLess(v, free, size))
    case _ => Fails
  }

  // ----- the step and reference policies -----

  /** Take what is asked for; if that overdraws the host, the greatest 5 MiB multiple it has. */
  function TakeOrPart(v: View, free: real, target: real): Decision {
    if Debited(v, free, target) < 0.0
    then Charge(v, free, (v.cur + FloorTo(Trunc(free), MIB5)) as real)
    else Charge(v, free, target)
  }

  function GrowStep(v: View, free: real, step: real): Decision {
    var target := v.cur as real + step;
    TakeOrPart(v, free, if target > v.max as real then v.max as real else target)
  }

  function ShrinkStep(v: View, free: real, step: real): Decision {
    var target := v.cur as real - step;
    Charge(v, free, if target < v.min as real then v.min as real else target)
  }

  /** used / ref, rounded down to whole MiB after truncation */
  function RefTarget(used: real, ref: real): int
    requires ref != 0.0
  {
    FloorTo(Trunc(used / ref), MIB)
  }

  function GrowRef(v: View, free: real, used: real, ref: real): Decision {
    if ref == 0.0 then Fails
    else
      var target := RefTarget(used, ref);
      TakeOrPart(v, free, (if target > v.max then v.max else target) as real)
  }

  function ShrinkRef(v: View, free: real, used: real, ref: real): Decision {
    if ref == 0.0 then Fails
    else
      var target := RefTarget(used, ref);
      Charge(v, free, (if target < v.min then v.min else target) as real)
  }

  /** Thresholds on the used fraction, and a step or reference for either direction. */
  datatype Params = Params(growThreshold: real, shrinkThreshold: real, grow: real, shrink: real)

  function StepPolicy(v: View, free: real, p: Params): Decision {
    match UsedPercent(v)
    case None => Fails
    case Some(percent) =>
      if percent < p.shrinkThreshold then ShrinkStep(v, free, p.shrink)
      else if percent > p.growThreshold then GrowStep(v, free, p.grow)
      else Keeps
  }

  function RefPolicy(v: View, free: real, p: Params): Decision {
    match (Used(v), UsedPercent(v))
    case (Some(used), Some(percent)) =>
      if percent < p.shrinkThreshold then ShrinkRef(v, free, used, p.shrink)
      else if percent > p.growThreshold then GrowRef(v, free, used, p.grow)
      else Keeps
    case _ => Fails
  }

  // ----- one call -----

  /** A policy call as the rules files make it; the pressure is the number read when the
      evaluation started. */
  datatype Call =
    | Policy1(pressure: real) | Policy2(pressure: real) | Policy3(pressure: real)
    | Policy4 | Policy5 | Policy6 | Policy7
    | Policy8(pass: Pass)
    | Step(params: Params) | Ref(params: Params)

  function Decide(c: Call, v: View, free: real): Decision {
    match c
    case Policy1(pressure) => if pressure < 100.0 then Shrink1(v, free) else Grow1(v, free)
    case Policy2(pressure) => if pressure < 100.0 then Shrink2(v, free) else Grow2(v, free)
    case Policy3(pressure) => if pressure < 100.0 then Shrink3(v, free) else Grow3(v, free)
    case Policy4 => Apply4(v, free)
    case Policy5 => Apply5(v, free)
    case Policy6 => Apply6(v, free)
    case Policy7 => Apply7(v, free)
    case Policy8(pass) => Decide8(pass, v, free)
    case Step(p) => StepPolicy(v, free, p)
    case Ref(p) => RefPolicy(v, free, p)
  }

  // ----- what an average is -----

  function ValueIn(row: Sample, field: Field): Option<int> {
    match field
    case BalloonCur => row.balloonCur
    case MemUnused => row.memUnused
  }

  /** The values of a field added up; a row without a value adds nothing. */
  function TotalOf(rows: seq<Sample>, field: Field): int {
    if rows == [] then 0
    else
      match ValueIn(rows[0], field)
      case Some(x) => x + TotalOf(rows[1..], field)
      case None => TotalOf(rows[1..], field)
  }

  /** How many rows have a value of the field. */
  function Having(rows: seq<Sample>, field: Field): nat {
    if rows == [] then 0
    else
      match ValueIn(rows[0], field)
      case Some(_) => 1 + Having(rows[1..], field)
      case None => Having(rows[1..], field)
  }

  /** a is the integer quotient, rounded down, of the total and the number of values, and 0 if there
      are rows but no values. */
  ghost predicate IsAverage(rows: seq<Sample>, field: Field, a: real) {
    && rows != []
    && var n, total, q := Having(rows, field), TotalOf(rows, field), a.Floor;
       && a == q as real
       && if n == 0 then q == 0 else q * n <= total < q * n + n
  }

  lemma {:induction false} SumFromFront(x: int, xs: seq<int>)
    ensures Sum([x] + xs) == x + Sum(xs)
  {
    var ys := [x] + xs;
    if xs == [] {
      assert ys[..0] == [];
    } else {
      var n := |xs| - 1;
      assert ys[..n + 1] == [x] + xs[..n];
      SumFromFront(x, xs[..n]);
    }
  }

  lemma {:induction false} PresentAddsUp(rows: seq<Sample>, field: Field)
    ensures var xs := Present(Column(rows, field)); Sum(xs) == TotalOf(rows, field) && |xs| == Having(rows, field)
  {
    var vals := Column(rows, field);
    if rows != [] {
      PresentAddsUp(rows[1..], field);
      assert vals[1..] == Column(rows[1..], field) && vals[0] == ValueIn(rows[0], field);
      if vals[0].Some? {
        SumFromFront(vals[0].value, Present(vals[1..]));
      } else {
        assert [] + Present(vals[1..]) == Present(vals[1..]);
      }
    }
  }

  lemma {:induction false} QuotientIs(total: int, n: int, q: int)
    requires n > 0
    ensures q == total / n <==> q * n <= total < q * n + n
  {
    var r := total / n;
    assert r * n <= total < r * n + n;
    if q * n <= total < q * n + n {
      LessFactor(q, r + 1, n);
      LessFactor(r, q + 1, n);
    }
  }

  /** Whatever rows have been collected, StatAvg is the one average of their values. */
  lemma {:induction false} AverageIs(rows: seq<Sample>, field: Field)
    ensures rows == [] ==> Average(Column(rows, field)) == None
    ensures forall a: real :: IsAverage(rows, field, a) <==> Average(Column(rows, field)) == Some(a)
  {
    PresentAddsUp(rows, field);
    var n, total := Having(rows, field), TotalOf(rows, field);
    if rows != [] {
      forall a: real
        ensures IsAverage(rows, field, a) <==> Average(Column(rows, field)) == Some(a)
      {
        if n > 0 { QuotientIs(total, n, a.Floor); }
      }
    }
  }

  /** Used memory is the difference of the two averages, and the used fraction is its share
      of the average size; there is none over an average size of 0. */
  lemma {:induction false} UsedIsDifference(v: View, cur: real, unused: real)
    requires IsAverage(v.rows, BalloonCur, cur) && IsAverage(v.rows, MemUnused, unused)
    ensures Used(v) == Some(cur - unused)
    ensures UsedPercent(v) == if cur == 0.0 then None else Some((cur - unused) / cur)
  {
    AveragesAre(v, cur, unused);
    FractionIs(v, cur, unused);
  }

  lemma {:induction false} FractionIs(v: View, cur: real, unused: real)
    requires Average(Curs(v.rows)) == Some(cur) && Average(Unused(v.rows)) == Some(unused)
    ensures Used(v) == Some(cur - unused)
    ensures UsedPercent(v) == if cur == 0.0 then None else Some((cur - unused) / cur)
  {
  }

  lemma {:induction false} AveragesAre(v: View, cur: real, unused: real)
    requires IsAverage(v.rows, BalloonCur, cur) && IsAverage(v.rows, MemUnused, unused)
    ensures Average(Curs(v.rows)) == Some(cur) && Average(Unused(v.rows)) == Some(unused)
  {
    AverageIs(v.rows, BalloonCur);
    AverageIs(v.rows, MemUnused);
    assert Column(v.rows, BalloonCur) == Curs(v.rows) && Column(v.rows, MemUnused) == Unused(v.rows);
  }

  lemma {:induction false} QuotientTimes(a: real, b: real)
    requires b != 0.0
    ensures a / b * b == a
  {
  }

  // ----- what every call does to the ledger -----

  /** The number written back is the old one less exactly what the guest's target adds. */
  lemma {:induction false} TargetIsCharged(c: Call, v: View, free: real)
    ensures var d := Decide(c, v, free); d.Sets? ==> d.free + d.target == free + v.cur as real
  {
  }

  /** Policies 1 to 8 never leave the host overdrawn: they credit it, or keep something free. */
  lemma {:induction false} OldPoliciesKeepFree(c: Call, v: View, free: real)
    requires !c.Step? && !c.Ref?
    ensures var d := Decide(c, v, free); d.Sets? ==> d.free > 0.0 || d.free > free
  {
  }

  /** Averages of in-range values are in range. */
  lemma {:induction false} SumBetween(xs: seq<int>, lo: int, hi: int)
    requires forall i :: 0 <= i < |xs| ==> lo <= xs[i] <= hi
    ensures lo * |xs| <= Sum(xs) <= hi * |xs|
  {
    if xs != [] {
      SumBetween(xs[..|xs| - 1], lo, hi);
      assert lo * |xs| == lo * (|xs| - 1) + lo && hi * |xs| == hi * (|xs| - 1) + hi;
    }
  }

  lemma {:induction false} PresentBetween(vals: seq<Option<int>>, lo: int, hi: int)
    requires forall i :: 0 <= i < |vals| && vals[i].Some? ==> lo <= vals[i].value <= hi
    ensures forall i :: 0 <= i < |Present(vals)| ==> lo <= Present(vals)[i] <= hi
    ensures (exists i :: 0 <= i < |vals| && vals[i].Some?) ==> Present(vals) != []
  {
    if vals != [] {
      PresentBetween(vals[1..], lo, hi);
      if vals[0].None? && exists i :: 0 <= i < |vals| && vals[i].Some? {
        var i :| 0 <= i < |vals| && vals[i].Some?;
        assert vals[1..][i - 1].Some?;
      }
    }
  }

  lemma {:induction false} QuotientBetween(total: int, n: int, lo: int, hi: int)
    requires n > 0 && lo * n <= total <= hi * n
    ensures lo <= total / n <= hi
  {
    var q := total / n;
    assert q * n <= total < q * n + n;
    LessFactor(lo, q + 1, n);
    LessFactor(q, hi + 1, n);
  }

  lemma {:induction false} LessFactor(a: int, b: int, n: int)
    requires n > 0
    ensures a * n < b * n ==> a < b
  {
    if a >= b {
      assert a * n == b * n + (a - b) * n;
      assert (a - b) * n >= 0;
    }
  }

  /** StatAvg of a field with a value in some row lies between the least and the greatest value. */
  lemma {:induction false} AverageBetween(vals: seq<Option<int>>, lo: int, hi: int)
    requires forall i :: 0 <= i < |vals| && vals[i].Some? ==> lo <= vals[i].value <= hi
    requires exists i :: 0 <= i < |vals| && vals[i].Some?
    ensures Average(vals).Some? && lo as real <= Average(vals).value <= hi as real
  {
    PresentBetween(vals, lo, hi);
    var xs := Present(vals);
    SumBetween(xs, lo, hi);
    QuotientBetween(Sum(xs), |xs|, lo, hi);
  }
}
