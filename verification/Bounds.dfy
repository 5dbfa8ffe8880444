/** How far a single policy call can move a guest, and what it leaves the host. */
module Bounds {
  import opened Options
  import opened Policies

  ghost predicate InBounds(v: View) {
    v.min <= v.cur <= v.max
  }

  /** The target keeps the guest between its minimum and maximum. */
  ghost predicate TargetFits(v: View, d: Decision) {
    d.Sets? ==> v.min as real <= d.target <= v.max as real
  }

  lemma {:induction false} TruncBetween(x: real, lo: int, hi: int)
    requires lo as real <= x <= hi as real
    ensures lo <= Trunc(x) <= hi
  {
  }

  lemma {:induction false} FloorToFacts(n: int, unit: int)
    requires unit > 0
    ensures FloorTo(n, unit) <= n < FloorTo(n, unit) + unit
  {
    assert n == n / unit * unit + n % unit;
  }

  lemma {:induction false} FloorToGreatest(n: int, unit: int, m: int)
    requires unit > 0 && m * unit <= n
    ensures m * unit <= FloorTo(n, unit)
  {
    FloorToFacts(n, unit);
    LessFactor(m, n / unit + 1, unit);
    MoreFactor(m, n / unit, unit);
  }

  lemma {:induction false} MoreFactor(a: int, b: int, n: int)
    requires n > 0 && a <= b
    ensures a * n <= b * n
  {
    assert b * n == a * n + (b - a) * n;
  }

  // ----- growing with what is left -----

  /** A growth that would overdraw the host takes the greatest 5 MiB multiple that fits, short of
      what was asked for, and leaves less than 5 MiB. */
  lemma {:induction false} ShortGrowth(v: View, free: real, target: real)
    requires free >= 0.0 && Debited(v, free, target) < 0.0
    ensures var d := TakeOrPart(v, free, target);
            && v.cur as real <= d.target < target
            && 0.0 <= d.free < MIB5 as real
            && exists k :: d.target == (v.cur + k * MIB5) as real
    ensures forall m: int :: (m * MIB5) as real <= free ==>
              (v.cur + m * MIB5) as real <= TakeOrPart(v, free, target).target
  {
    var whole := Trunc(free);
    FloorToFacts(whole, MIB5);
    var k := whole / MIB5;
    assert TakeOrPart(v, free, target).target == (v.cur + k * MIB5) as real;
    forall m: int | (m * MIB5) as real <= free
      ensures (v.cur + m * MIB5) as real <= TakeOrPart(v, free, target).target
    {
      FloorToGreatest(whole, MIB5, m);
    }
  }

  lemma {:induction false} TakeOrPartFits(v: View, free: real, target: real)
    requires InBounds(v) && free >= 0.0 && v.min as real <= target <= v.max as real
    ensures var d := TakeOrPart(v, free, target); TargetFits(v, d) && d.free >= 0.0
  {
    if Debited(v, free, target) < 0.0 { ShortGrowth(v, free, target); }
  }

  // ----- the step policy -----

  lemma {:induction false} StepFits(v: View, free: real, p: Params)
    requires InBounds(v) && free >= 0.0 && p.grow >= 0.0 && p.shrink >= 0.0
    ensures var d := StepPolicy(v, free, p); TargetFits(v, d) && (d.Sets? ==> d.free >= 0.0)
  {
    var target := v.cur as real + p.grow;
    TakeOrPartFits(v, free, if target > v.max as real then v.max as real else target);
  }

  // ----- the reference policy -----

  /** What the reference policy needs besides bounds: references on the inner side of their
      thresholds, a minimum of whole MiB, and a history inside the bounds. */
  ghost predicate RefReady(v: View, p: Params) {
    RefTuned(p, v.min) && SamplesInBounds(v)
  }

  ghost predicate RefTuned(p: Params, min: int) {
    && p.shrink > 0.0 && p.grow > 0.0
    && p.shrink >= p.shrinkThreshold && p.grow <= p.growThreshold
    && 0 <= min && min % MIB == 0
  }

  ghost predicate SamplesInBounds(v: View) {
    forall i :: 0 <= i < |v.rows| && v.rows[i].balloonCur.Some? ==> v.min <= v.rows[i].balloonCur.value <= v.max
  }

  /** A used fraction exists only over a positive average, and that is in bounds like its samples. */
  lemma {:induction false} HistoryInBounds(v: View, p: Params)
    requires RefReady(v, p) && UsedPercent(v).Some?
    ensures AvgCur(v).value > 0.0 && v.min as real <= AvgCur(v).value <= v.max as real
  {
    var vals := Curs(v.rows);
    if exists i :: 0 <= i < |vals| && vals[i].Some? {
      AverageBetween(vals, v.min, v.max);
    } else {
      NothingPresent(vals);
    }
  }

  lemma {:induction false} NothingPresent(vals: seq<Option<int>>)
    requires forall i :: 0 <= i < |vals| ==> vals[i].None?
    ensures Present(vals) == []
  {
    if vals != [] { NothingPresent(vals[1..]); }
  }

  /** The history is not above the present size whenever the policy is about to shrink. */
  ghost predicate HistoryBelow(v: View, p: Params) {
    UsedPercent(v).Some? && UsedPercent(v).value < p.shrinkThreshold ==> AvgCur(v).value <= v.cur as real
  }

  lemma {:induction false} DivideBy(x: real, y: real, z: real)
    requires y > 0.0
    ensures x < y * z ==> x / y < z
    ensures x > y * z ==> x / y > z
  {
    var q := x / y;
    assert q * y == x;
    if q >= z { TimesMonotone(z, q, y); }
    if q <= z { TimesMonotone(q, z, y); }
    assert z * y == y * z;
  }

  lemma {:induction false} TimesMonotone(a: real, b: real, c: real)
    requires a <= b && c >= 0.0
    ensures a * c <= b * c
  {
    assert (b - a) * c >= 0.0;
  }

  lemma {:induction false} FractionBelow(used: real, avg: real, ref: real)
    requires avg > 0.0 && ref > 0.0 && used / avg < ref
    ensures used / ref < avg
  {
    var percent := used / avg;
    assert percent * avg == used;
    StrictTimes(percent, ref, avg);
    assert used < ref * avg;
    DivideBy(used, ref, avg);
  }

  lemma {:induction false} FractionAbove(used: real, avg: real, ref: real)
    requires avg > 0.0 && ref > 0.0 && used / avg > ref
    ensures used / ref > avg
  {
    var percent := used / avg;
    assert percent * avg == used;
    StrictTimes(ref, percent, avg);
    assert used > ref * avg;
    DivideBy(used, ref, avg);
  }

  /** A used fraction below a threshold means little used memory for the reference, and the
      other way round. */
  lemma {:induction false} UsedAgainstReference(v: View, threshold: real, ref: real)
    requires UsedPercent(v).Some? && AvgCur(v).value > 0.0 && ref > 0.0
    ensures UsedPercent(v).value < threshold <= ref ==> Used(v).value / ref < AvgCur(v).value
    ensures ref <= threshold < UsedPercent(v).value ==> Used(v).value / ref > AvgCur(v).value
  {
    var used, avg, percent := Used(v).value, AvgCur(v).value, UsedPercent(v).value;
    if percent < ref { FractionBelow(used, avg, ref); }
    if percent > ref { FractionAbove(used, avg, ref); }
  }

  lemma {:induction false} StrictTimes(a: real, b: real, c: real)
    requires a < b && c > 0.0
    ensures a * c < b * c
  {
    assert (b - a) * c > 0.0;
  }

  lemma {:induction false} RefTargetBelow(used: real, ref: real, bound: real)
    requires ref != 0.0 && used / ref < bound && bound >= 0.0
    ensures RefTarget(used, ref) as real <= bound
  {
    FloorToFacts(Trunc(used / ref), MIB);
    if used / ref < 0.0 { NegativeFloors(Trunc(used / ref)); }
  }

  lemma {:induction false} NegativeFloors(n: int)
    requires n <= 0
    ensures FloorTo(n, MIB) <= 0
  {
  }

  lemma {:induction false} RefTargetAbove(used: real, ref: real, bound: int)
    requires ref != 0.0 && used / ref > bound as real && bound % MIB == 0
    ensures RefTarget(used, ref) >= bound
  {
    var x := used / ref;
    assert Trunc(x) >= bound;
    FloorToGreatest(Trunc(x), MIB, bound / MIB);
  }

  /** Shrinking by reference, exactly: the host is not overdrawn if and only if the reference size
      is no more than the present size and the free number together, and the guest stays in bounds
      if and only if the reference size is not above its maximum. */
  lemma {:induction false} ShrinkRefFitsIff(v: View, free: real, p: Params)
    requires InBounds(v) && p.shrink != 0.0 && free >= 0.0
    requires UsedPercent(v).Some? && UsedPercent(v).value < p.shrinkThreshold
    ensures var d := RefPolicy(v, free, p); var size := RefTarget(Used(v).value, p.shrink);
            && d.Sets?
            && (d.free >= 0.0 <==> size as real <= v.cur as real + free)
            && (TargetFits(v, d) <==> size <= v.max)
  {
  }

  /** Growing by reference never overdraws the host; the guest stays in bounds if and only if the
      reference size is not below its minimum. */
  lemma {:induction false} GrowRefFitsIff(v: View, free: real, p: Params)
    requires InBounds(v) && p.grow != 0.0 && free >= 0.0
    requires UsedPercent(v).Some? && p.shrinkThreshold <= UsedPercent(v).value && UsedPercent(v).value > p.growThreshold
    ensures var d := RefPolicy(v, free, p);
            d.Sets? && d.free >= 0.0 && (TargetFits(v, d) <==> RefTarget(Used(v).value, p.grow) >= v.min)
  {
    var size := RefTarget(Used(v).value, p.grow);
    var target := (if size > v.max then v.max else size) as real;
    if Debited(v, free, target) < 0.0 { ShortGrowth(v, free, target); }
  }

  /** What the reference policy must find before a call for the guest to stay in bounds and the
      host not to be overdrawn. */
  ghost predicate RefAffordable(v: View, free: real, p: Params)
    requires p.shrink != 0.0 && p.grow != 0.0
  {
    UsedPercent(v).Some? ==>
      var used, percent := Used(v).value, UsedPercent(v).value;
      if percent < p.shrinkThreshold then
        RefTarget(used, p.shrink) <= v.max && RefTarget(used, p.shrink) as real <= v.cur as real + free
      else percent > p.growThreshold ==> RefTarget(used, p.grow) >= v.min
  }

  lemma {:induction false} RefFitsIff(v: View, free: real, p: Params)
    requires InBounds(v) && p.shrink != 0.0 && p.grow != 0.0 && free >= 0.0
    ensures var d := RefPolicy(v, free, p);
            TargetFits(v, d) && (d.Sets? ==> d.free >= 0.0) <==> RefAffordable(v, free, p)
  {
    if UsedPercent(v).Some? {
      if UsedPercent(v).value < p.shrinkThreshold {
        ShrinkRefFitsIff(v, free, p);
      } else if UsedPercent(v).value > p.growThreshold {
        GrowRefFitsIff(v, free, p);
      }
    }
  }

  /** Below its threshold the used fraction puts the reference size below the average size. */
  lemma {:induction false} ShrinkSizeBelowAverage(v: View, p: Params)
    requires RefReady(v, p) && UsedPercent(v).Some? && UsedPercent(v).value < p.shrinkThreshold
    ensures RefTarget(Used(v).value, p.shrink) as real <= AvgCur(v).value <= v.max as real
  {
    HistoryInBounds(v, p);
    UsedAgainstReference(v, p.shrinkThreshold, p.shrink);
    RefTargetBelow(Used(v).value, p.shrink, AvgCur(v).value);
  }

  lemma {:induction false} GrowSizeAboveMin(v: View, p: Params)
    requires RefReady(v, p) && UsedPercent(v).Some? && UsedPercent(v).value > p.growThreshold
    ensures RefTarget(Used(v).value, p.grow) >= v.min
  {
    HistoryInBounds(v, p);
    UsedAgainstReference(v, p.growThreshold, p.grow);
    RefTargetAbove(Used(v).value, p.grow, v.min);
  }

  /** Shrinking by reference can cost the host no more than the history exceeds the present size. */
  lemma {:induction false} ShrinkRefCost(v: View, free: real, p: Params)
    requires InBounds(v) && RefReady(v, p)
    requires UsedPercent(v).Some? && UsedPercent(v).value < p.shrinkThreshold
    ensures var d := RefPolicy(v, free, p);
            && d.Sets? && TargetFits(v, d)
            && d.free >= free - Max(0.0, AvgCur(v).value - v.cur as real)
  {
    ShrinkSizeBelowAverage(v, p);
    ShrinkRefFitsIff(v, Max(0.0, AvgCur(v).value - v.cur as real), p);
  }

  lemma {:induction false} RefFits(v: View, free: real, p: Params)
    requires InBounds(v) && RefReady(v, p) && HistoryBelow(v, p) && free >= 0.0
    ensures var d := RefPolicy(v, free, p); TargetFits(v, d) && (d.Sets? ==> d.free >= 0.0)
  {
    RefFitsIff(v, free, p);
    if UsedPercent(v).Some? {
      if UsedPercent(v).value < p.shrinkThreshold {
        ShrinkSizeBelowAverage(v, p);
      } else if UsedPercent(v).value > p.growThreshold {
        GrowSizeAboveMin(v, p);
      }
    }
  }

  /** The history is one sample, of the present size. */
  ghost predicate OneSample(v: View) {
    |v.rows| == 1 && v.rows[0].balloonCur == Some(v.cur)
  }

  /** With one sample the history is the present size. */
  lemma {:induction false} OneSampleHistory(v: View, p: Params)
    requires OneSample(v)
    ensures HistoryBelow(v, p)
  {
    var vals := Curs(v.rows);
    assert vals == [Some(v.cur)];
    assert Present(vals) == [v.cur] + Present([]);
    assert Sum([v.cur]) == Sum([]) + v.cur;
  }

  /** A guest that was large and is small now, with little used: "shrinking" to the reference
      makes it grow past what the host has. */
  lemma {:induction false} ShrinkCanOverdraw()
    ensures var rows := [Sample(Some(10 * MIB), Some(8 * MIB)), Sample(Some(2 * MIB), Some(MIB))];
            var v := View(2 * MIB, MIB, 20 * MIB, rows);
            var p := Params(0.9, 0.3, 0.9, 0.3);
            && InBounds(v) && RefReady(v, p) && !HistoryBelow(v, p)
            && RefPolicy(v, 0.0, p) == Sets((5 * MIB) as real, -((3 * MIB) as real))
  {
    var rows := [Sample(Some(10 * MIB), Some(8 * MIB)), Sample(Some(2 * MIB), Some(MIB))];
    var v := View(2 * MIB, MIB, 20 * MIB, rows);
    assert Curs(rows) == [Some(10 * MIB), Some(2 * MIB)] && Unused(rows) == [Some(8 * MIB), Some(MIB)];
    AverageOfTwo(10 * MIB, 2 * MIB);
    AverageOfTwo(8 * MIB, MIB);
    assert Used(v) == Some(1572864.0);
  }

  lemma {:induction false} AverageOfTwo(a: int, b: int)
    ensures Average([Some(a), Some(b)]) == Some(((a + b) / 2) as real)
  {
    assert [Some(a), Some(b)][1..] == [Some(b)] && [Some(b)][1..] == [];
    assert Present([Some(b)]) == [b];
    assert Present([Some(a), Some(b)]) == [a] + [b] == [a, b];
    assert [a, b][..1] == [a] && [a][..0] == [];
    assert Sum([a]) == a;
  }

  // ----- the other policies -----

  /** Growing by policy 1, and policies 3, 4, 5, 7 and 8, clamp to the guest's bounds. */
  lemma {:induction false} ClampedPoliciesFit(c: Call, v: View, free: real)
    requires InBounds(v) && 0 <= v.cur
    requires c.Policy3? || c.Policy4? || c.Policy5? || c.Policy7? || c.Policy8? || (c.Policy1? && c.pressure >= 100.0)
    ensures TargetFits(v, Decide(c, v, free))
  {
  }

  /** The others stay in bounds exactly when the one bound they forget happens to hold. */
  lemma {:induction false} UnclampedPoliciesFitIff(v: View, free: real)
    requires InBounds(v) && 0 <= v.cur
    ensures var d := Shrink1(v, free); d.Sets? ==>
              (TargetFits(v, d) <==>
                 v.cur as real * 19.0 / 20.0 >= v.min as real || Used(v).value + v.cur as real / 5.0 >= v.min as real)
    ensures var d := Shrink2(v, free); d.Sets? ==>
              (TargetFits(v, d) <==>
                 v.cur as real - PAGES >= v.min as real || Used(v).value + v.cur as real / 5.0 >= v.min as real)
    ensures var d := Grow2(v, free); d.Sets? ==>
              (TargetFits(v, d) <==>
                 && Used(v).value / 0.5 >= v.min as real
                 && (v.cur as real + PAGES <= v.max as real || Used(v).value / 0.5 <= v.max as real))
    ensures var d := Apply6(v, free); d.Sets? ==>
              (TargetFits(v, d) <==>
                 Clamp(v, Used(v).value / 0.7) < v.cur as real || v.cur as real + PAGES <= v.max as real)
  {
  }

  /** A guest whose only sample shows its present size, and so much memory unused. */
  function OneSampleView(cur: int, min: int, max: int, unused: int): View {
    View(cur, min, max, [Sample(Some(cur), Some(unused))])
  }

  lemma {:induction false} OneSampleUsed(cur: int, min: int, max: int, unused: int)
    ensures var v := OneSampleView(cur, min, max, unused);
            && Used(v) == Some((cur - unused) as real)
            && (cur != 0 ==> UsedPercent(v) == Some((cur - unused) as real / cur as real))
  {
    var rows := [Sample(Some(cur), Some(unused))];
    AverageOfOne(cur);
    AverageOfOne(unused);
    assert Curs(rows) == [Some(cur)] && Unused(rows) == [Some(unused)];
  }

  lemma {:induction false} AverageOfOne(a: int)
    ensures Average([Some(a)]) == Some(a as real)
  {
    assert [Some(a)][1..] == [];
    assert Present([Some(a)]) == [a];
    assert [a][..0] == [];
    assert Sum([a]) == a;
  }

  /** Each of the four calls takes some guest out of bounds. */
  lemma {:induction false} UnclampedPoliciesEscape()
    ensures var v := OneSampleView(1000, 990, 2000, 900);
            InBounds(v) && Shrink1(v, 0.0) == Sets(950.0, 50.0) && !TargetFits(v, Shrink1(v, 0.0))
    ensures var v := OneSampleView(5000000, 4900000, 6000000, 4900000);
            InBounds(v) && Shrink2(v, 0.0) == Sets(1100000.0, 3900000.0) && !TargetFits(v, Shrink2(v, 0.0))
    ensures var v := OneSampleView(1000, 500, 1500, 100);
            InBounds(v) && Grow2(v, 10000.0) == Sets(1800.0, 9200.0) && !TargetFits(v, Grow2(v, 10000.0))
    ensures var v := OneSampleView(1000, 500, 1500, 100);
            InBounds(v) && Apply6(v, 5000000.0) == Sets(4097000.0, 904000.0) && !TargetFits(v, Apply6(v, 5000000.0))
  {
    OneSampleUsed(1000, 990, 2000, 900);
    OneSampleUsed(5000000, 4900000, 6000000, 4900000);
    OneSampleUsed(1000, 500, 1500, 100);
  }
}
