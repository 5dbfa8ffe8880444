/** When each policy sets a target, and which: told mostly by the share of it that would be in use. */
module PolicyLaws {
  import opened Options
  import opened Policies
  import opened Bounds

  /** The guest is to go to that size, and the host pays for it. */
  function To(v: View, free: real, size: real): Decision {
    Sets(size, free + v.cur as real - size)
  }

  /** The size would leave the host something. */
  predicate Leaves(v: View, free: real, size: real) {
    size - v.cur as real < free
  }

  predicate Shrinks(v: View, size: real) {
    size < v.cur as real
  }

  predicate Larger(t: real, a: real, b: real) {
    t >= a && t >= b && (t == a || t == b)
  }

  predicate Smaller(t: real, a: real, b: real) {
    t <= a && t <= b && (t == a || t == b)
  }

  /** The size of which that share is in use; if there is none between the bounds, the bound on its side.
      Should the bounds cross, the upper one decides. */
  predicate InUse(t: real, share: real, used: real, lo: int, hi: int) {
    && t <= hi as real
    && (t < hi as real ==> t >= lo as real && t * share >= used)
    && (t > lo as real ==> t * share <= used)
  }

  /** The same, but should the bounds cross, the lower one decides. */
  predicate InUseFrom(t: real, share: real, used: real, lo: int, hi: int) {
    && t >= lo as real
    && (t > lo as real ==> t <= hi as real && t * share <= used)
    && (t < hi as real ==> t * share >= used)
  }

  // ----- policies 1 to 3 -----

  /** The larger of two sizes, up to the maximum. */
  predicate LargerUpTo(t: real, a: real, b: real, top: int) {
    && (t <= a || t <= b) && t <= top as real
    && (t == top as real || (t >= a && t >= b))
  }

  /** Policy 1, less than 100 being free: take off a twentieth, but leave the used memory and a fifth of
      the present size; never grow. */
  lemma {:induction false} Policy1Shrinks(v: View, free: real, pressure: real, used: real, t: real)
    requires pressure < 100.0 && Used(v) == Some(used)
    ensures var d := Decide(Policy1(pressure), v, free); var cur := v.cur as real;
            && (d.Sets? ==> Larger(d.target, cur - cur / 20.0, used + cur / 5.0))
            && (Larger(t, cur - cur / 20.0, used + cur / 5.0) ==> d == if Shrinks(v, t) then To(v, free, t) else Keeps)
  {
  }

  /** Policy 1 otherwise: add a twentieth, or what makes room for the used memory and a fifth of the present
      size, up to the maximum. */
  lemma {:induction false} Policy1Grows(v: View, free: real, pressure: real, used: real, t: real)
    requires pressure >= 100.0 && Used(v) == Some(used)
    ensures var d := Decide(Policy1(pressure), v, free); var cur := v.cur as real;
            && (d.Sets? ==> LargerUpTo(d.target, cur + cur / 20.0, used + cur / 5.0, v.max))
            && (LargerUpTo(t, cur + cur / 20.0, used + cur / 5.0, v.max) ==>
                  d == if v.cur < v.max && Leaves(v, free, t) then To(v, free, t) else Keeps)
  {
  }

  /** Policy 2 takes off 1000 pages, with the same regard for the used memory. */
  lemma {:induction false} Policy2Shrinks(v: View, free: real, pressure: real, used: real, t: real)
    requires pressure < 100.0 && Used(v) == Some(used)
    ensures var d := Decide(Policy2(pressure), v, free); var cur := v.cur as real;
            && (d.Sets? ==> Larger(d.target, cur - 4096000.0, used + cur / 5.0))
            && (Larger(t, cur - 4096000.0, used + cur / 5.0) ==> d == if Shrinks(v, t) then To(v, free, t) else Keeps)
  {
  }

  /** The size 1000 pages up, or that with half in use if it is smaller. */
  predicate PagesOrHalf(v: View, used: real, t: real) {
    var more := v.cur as real + 4096000.0;
    t <= more && t * 0.5 <= used && (t == more || t * 0.5 == used)
  }

  lemma {:induction false} Policy2Grows(v: View, free: real, pressure: real, used: real, t: real)
    requires pressure >= 100.0 && Used(v) == Some(used)
    ensures var d := Decide(Policy2(pressure), v, free);
            && (d.Sets? ==> PagesOrHalf(v, used, d.target))
            && (PagesOrHalf(v, used, t) ==>
                  d == if v.cur < v.max && Leaves(v, free, t) then To(v, free, t) else Keeps)
  {
  }

  /** Policy 3: a twentieth off or on, as far as the bounds. */
  lemma {:induction false} Policy3Shrinks(v: View, free: real, pressure: real, t: real)
    requires pressure < 100.0
    ensures var d := Decide(Policy3(pressure), v, free); var cur := v.cur as real;
            && (d.Sets? ==> Larger(d.target, cur - cur / 20.0, v.min as real))
            && (Larger(t, cur - cur / 20.0, v.min as real) ==> d == if Shrinks(v, t) then To(v, free, t) else Keeps)
  {
  }

  lemma {:induction false} Policy3Grows(v: View, free: real, pressure: real, t: real)
    requires pressure >= 100.0
    ensures var d := Decide(Policy3(pressure), v, free); var cur := v.cur as real;
            && (d.Sets? ==> Smaller(d.target, cur + cur / 20.0, v.max as real))
            && (Smaller(t, cur + cur / 20.0, v.max as real) ==>
                  d == if Leaves(v, free, t) then To(v, free, t) else Keeps)
  {
  }

  // ----- policies 4 to 7 -----

  /** Four fifths of the way to go is what the used memory misses to a share of 4/5; a bound cuts the way
      short. */
  predicate TowardsFourFifths(v: View, missing: real, t: real) {
    var way := v.cur as real - t;
    && t <= v.max as real
    && (t < v.max as real ==> t >= v.min as real && way * 4.0 / 5.0 <= missing)
    && (t > v.min as real ==> way * 4.0 / 5.0 >= missing)
  }

  lemma {:induction false} ProposedWay(cur: real, used: real, percent: real)
    ensures (cur - Proposed4(cur, used, percent)) * 4.0 / 5.0 == used * (4.0 / 5.0 - percent)
  {
    var missing := used * (4.0 / 5.0 - percent);
    assert used * (0.8 - percent) == missing;
    assert Proposed4(cur, used, percent) == cur - missing / 0.8;
  }

  lemma {:induction false} ClampedWay(v: View, size: real, missing: real, t: real)
    requires (v.cur as real - size) * 4.0 / 5.0 == missing
    ensures TowardsFourFifths(v, missing, t) <==> t == Clamp(v, size)
  {
  }

  lemma {:induction false} Policy4Moves(v: View, free: real, used: real, percent: real, t: real)
    requires Used(v) == Some(used) && UsedPercent(v) == Some(percent)
    ensures var d := Decide(Policy4, v, free); var missing := used * (4.0 / 5.0 - percent);
            && (d.Sets? ==> TowardsFourFifths(v, missing, d.target))
            && (TowardsFourFifths(v, missing, t) ==>
                  d == if Shrinks(v, t) || Leaves(v, free, t) then To(v, free, t) else Keeps)
  {
    var d, size := Decide(Policy4, v, free), Proposed4(v.cur as real, used, percent);
    ProposedWay(v.cur as real, used, percent);
    Decides4(v, free, used, percent);
    Moves4(v, free, d, size, used * (4.0 / 5.0 - percent), t);
  }

  lemma {:induction false} Decides4(v: View, free: real, used: real, percent: real)
    requires Used(v) == Some(used) && UsedPercent(v) == Some(percent)
    ensures Decide(Policy4, v, free) == ChargeEitherWay(v, free, Clamp(v, Proposed4(v.cur as real, used, percent)))
  {
  }

  lemma {:induction false} Moves4(v: View, free: real, d: Decision, size: real, missing: real, t: real)
    requires (v.cur as real - size) * 4.0 / 5.0 == missing
    requires d == ChargeEitherWay(v, free, Clamp(v, size))
    ensures d.Sets? ==> TowardsFourFifths(v, missing, d.target)
    ensures TowardsFourFifths(v, missing, t) ==>
              d == if Shrinks(v, t) || Leaves(v, free, t) then To(v, free, t) else Keeps
  {
    ClampedWay(v, size, missing, t);
    ClampedWay(v, size, missing, Clamp(v, size));
    EitherWayMoves(v, free, Clamp(v, size));
  }

  lemma {:induction false} EitherWayMoves(v: View, free: real, t: real)
    ensures ChargeEitherWay(v, free, t) == if Shrinks(v, t) || Leaves(v, free, t) then To(v, free, t) else Keeps
  {
  }

  lemma {:induction false} SignOfProduct(a: real, b: real)
    requires a > 0.0
    ensures b > 0.0 ==> a * b > 0.0
    ensures b < 0.0 ==> a * b < 0.0
    ensures b == 0.0 ==> a * b == 0.0
  {
  }

  /** Policy 4 shrinks a guest in bounds below four fifths in use, and grows it above; strictly inside the
      bounds the way to go is exact. */
  lemma {:induction false} Policy4Direction(v: View, free: real, used: real, percent: real)
    requires Used(v) == Some(used) && UsedPercent(v) == Some(percent) && InBounds(v) && used > 0.0
    ensures var d := Decide(Policy4, v, free); var cur := v.cur as real;
            d.Sets? ==>
              && (percent < 4.0 / 5.0 ==> d.target <= cur)
              && (percent > 4.0 / 5.0 ==> d.target >= cur)
              && (v.min as real < d.target < v.max as real ==>
                    (cur - d.target) * 4.0 / 5.0 == used * (4.0 / 5.0 - percent))
  {
    Policy4Moves(v, free, used, percent, 0.0);
    var d := Decide(Policy4, v, free);
    if d.Sets? { DirectionOf(v, used, percent, d.target); }
  }

  lemma {:induction false} DirectionOf(v: View, used: real, percent: real, t: real)
    requires InBounds(v) && used > 0.0 && TowardsFourFifths(v, used * (4.0 / 5.0 - percent), t)
    ensures percent < 4.0 / 5.0 ==> t <= v.cur as real
    ensures percent > 4.0 / 5.0 ==> t >= v.cur as real
    ensures v.min as real < t < v.max as real ==> (v.cur as real - t) * 4.0 / 5.0 == used * (4.0 / 5.0 - percent)
  {
    SignOfProduct(used, 4.0 / 5.0 - percent);
    WayAndSign(v, used * (4.0 / 5.0 - percent), t);
  }

  lemma {:induction false} WayAndSign(v: View, missing: real, t: real)
    requires InBounds(v) && TowardsFourFifths(v, missing, t)
    ensures missing > 0.0 ==> t <= v.cur as real
    ensures missing < 0.0 ==> t >= v.cur as real
    ensures v.min as real < t < v.max as real ==> (v.cur as real - t) * 4.0 / 5.0 == missing
  {
  }

  /** With share u of size cur in use, the size policy 4 is after has at most 4/5 in use if u is less, and at
      least 4/5 if u is more. */
  lemma {:induction false} NotPastFourFifths(cur: real, u: real, used: real)
    requires cur > 0.0 && 0.0 < u < 1.0 && u * cur == used
    ensures u <= 4.0 / 5.0 ==> 5.0 * used <= 4.0 * cur - 5.0 * (used * (4.0 / 5.0 - u))
    ensures u >= 4.0 / 5.0 ==> 5.0 * used >= 4.0 * cur - 5.0 * (used * (4.0 / 5.0 - u))
  {
    var both := (4.0 - 5.0 * u) * (1.0 - u);
    assert both == 4.0 - 9.0 * u + 5.0 * (u * u);
    assert used * u == (u * u) * cur;
    assert both * cur == 4.0 * cur - 9.0 * used + 5.0 * (used * u);
    TimesSign(4.0 - 5.0 * u, 1.0 - u);
    TimesSign(both, cur);
  }

  lemma {:induction false} TimesSign(a: real, b: real)
    requires b > 0.0
    ensures a >= 0.0 ==> a * b >= 0.0
    ensures a <= 0.0 ==> a * b <= 0.0
  {
  }

  /** Policy 4 never passes the four fifths it goes to, when the average size is the present one and some
      memory is used and some is not: it only shrinks a guest that has less in use, which still has no more
      than 4/5 in use then, and only grows one that has more, which still has no less. */
  lemma {:induction false} Policy4Approaches(v: View, free: real, used: real, percent: real)
    requires InBounds(v) && AvgCur(v) == Some(v.cur as real) && 0.0 < used < v.cur as real
    requires Used(v) == Some(used) && UsedPercent(v) == Some(percent)
    ensures var d := Decide(Policy4, v, free); var cur := v.cur as real;
            d.Sets? ==>
              && (percent <= 4.0 / 5.0 ==> used <= d.target * 4.0 / 5.0 && d.target <= cur)
              && (percent >= 4.0 / 5.0 ==> used >= d.target * 4.0 / 5.0 && d.target >= cur)
  {
    var d := Decide(Policy4, v, free);
    if d.Sets? {
      ApproachesAt(v, free, used, percent, d.target);
    }
  }

  lemma {:induction false} ShareBelowOne(used: real, cur: real, u: real)
    requires 0.0 < used < cur && u == used / cur
    ensures 0.0 < u < 1.0 && u * cur == used
  {
    DivideBy(used, cur, 1.0);
    DivideBy(used, cur, 0.0);
  }

  lemma {:induction false} ApproachesAt(v: View, free: real, used: real, percent: real, t: real)
    requires InBounds(v) && AvgCur(v) == Some(v.cur as real) && 0.0 < used < v.cur as real
    requires Used(v) == Some(used) && UsedPercent(v) == Some(percent)
    requires Decide(Policy4, v, free).Sets? && t == Decide(Policy4, v, free).target
    ensures percent <= 4.0 / 5.0 ==> used <= t * 4.0 / 5.0 && t <= v.cur as real
    ensures percent >= 4.0 / 5.0 ==> used >= t * 4.0 / 5.0 && t >= v.cur as real
  {
    Policy4Moves(v, free, used, percent, t);
    FractionOfCur(v, used, percent);
    ApproachesOnTheWay(v, used, percent, t);
  }

  lemma {:induction false} FractionOfCur(v: View, used: real, percent: real)
    requires AvgCur(v) == Some(v.cur as real) && Used(v) == Some(used) && UsedPercent(v) == Some(percent)
    ensures v.cur != 0 && percent == used / v.cur as real
  {
  }

  lemma {:induction false} ApproachesOnTheWay(v: View, used: real, percent: real, t: real)
    requires InBounds(v) && 0.0 < used < v.cur as real && percent == used / v.cur as real
    requires TowardsFourFifths(v, used * (4.0 / 5.0 - percent), t)
    ensures percent <= 4.0 / 5.0 ==> used <= t * 4.0 / 5.0 && t <= v.cur as real
    ensures percent >= 4.0 / 5.0 ==> used >= t * 4.0 / 5.0 && t >= v.cur as real
  {
    ShareBelowOne(used, v.cur as real, percent);
    NotPastFourFifths(v.cur as real, percent, used);
    SignOfProduct(used, 4.0 / 5.0 - percent);
    BoundsKeepBetween(v, used, used * (4.0 / 5.0 - percent), percent, t);
  }

  lemma {:induction false} BoundsKeepBetween(v: View, used: real, missing: real, percent: real, t: real)
    requires InBounds(v) && TowardsFourFifths(v, missing, t)
    requires percent < 4.0 / 5.0 ==> missing > 0.0
    requires percent > 4.0 / 5.0 ==> missing < 0.0
    requires percent == 4.0 / 5.0 ==> missing == 0.0
    requires percent <= 4.0 / 5.0 ==> 5.0 * used <= 4.0 * v.cur as real - 5.0 * missing
    requires percent >= 4.0 / 5.0 ==> 5.0 * used >= 4.0 * v.cur as real - 5.0 * missing
    ensures percent <= 4.0 / 5.0 ==> used <= t * 4.0 / 5.0 && t <= v.cur as real
    ensures percent >= 4.0 / 5.0 ==> used >= t * 4.0 / 5.0 && t >= v.cur as real
  {
  }

  /** Policy 5 goes to where seven tenths are in use. */
  lemma {:induction false} Policy5Moves(v: View, free: real, used: real, t: real)
    requires Used(v) == Some(used)
    ensures var d := Decide(Policy5, v, free);
            && (d.Sets? ==> InUse(d.target, 0.7, used, v.min, v.max))
            && (InUse(t, 0.7, used, v.min, v.max) ==>
                  d == if Shrinks(v, t) || Leaves(v, free, t) then To(v, free, t) else Keeps)
  {
  }

  /** Policy 6 shrinks to there while less than 100 is free, and else grows by 1000 pages. */
  lemma {:induction false} Policy6Moves(v: View, free: real, used: real, t: real)
    requires Used(v) == Some(used) && UsedPercent(v).Some?
    requires InUse(t, 0.7, used, v.min, v.max)
    ensures var more := v.cur as real + 4096000.0;
            Decide(Policy6, v, free) ==
            if Shrinks(v, t) then if free < 100.0 then To(v, free, t) else Keeps
            else if Leaves(v, free, more) then To(v, free, more)
            else Keeps
  {
    assert t == Clamp(v, used / 0.7);
    Decides6(v, free, used, t);
  }

  lemma {:induction false} Decides6(v: View, free: real, used: real, size: real)
    requires Used(v) == Some(used) && UsedPercent(v).Some? && size == Clamp(v, used / 0.7)
    ensures Decide(Policy6, v, free) ==
            if size < v.cur as real then ChargeIf(free < 100.0, v, free, size)
            else ChargeIfLeft(v, free, v.cur as real + 4096000.0)
  {
  }

  lemma {:induction false} InUseExists(share: real, used: real, lo: int, hi: int)
    requires share > 0.0 && lo <= hi
    ensures exists t :: InUse(t, share, used, lo, hi)
  {
    var t := used / share;
    assert t * share == used;
    if t < lo as real {
      assert lo as real * share >= used;
      assert InUse(lo as real, share, used, lo, hi);
    } else if t > hi as real {
      assert InUse(hi as real, share, used, lo, hi);
    } else {
      assert InUse(t, share, used, lo, hi);
    }
  }

  /** Policy 7 goes to where four fifths are in use: down while less than 100 is free, up while more than
      nine tenths are in use. */
  lemma {:induction false} Policy7Moves(v: View, free: real, used: real, percent: real, t: real)
    requires Used(v) == Some(used) && UsedPercent(v) == Some(percent)
    ensures var d := Decide(Policy7, v, free);
            && (d.Sets? ==> InUse(d.target, 0.8, used, v.min, v.max))
            && (InUse(t, 0.8, used, v.min, v.max) ==>
                  var go := if Shrinks(v, t) then free < 100.0 else percent > 0.9 && Leaves(v, free, t);
                  d == if go then To(v, free, t) else Keeps)
  {
    Decides7(v, free, used, percent);
    ClampedInUse(v, used, t);
    ClampedInUse(v, used, Clamp(v, used / 0.8));
  }

  lemma {:induction false} Decides7(v: View, free: real, used: real, percent: real)
    requires Used(v) == Some(used) && UsedPercent(v) == Some(percent)
    ensures var size := Clamp(v, used / 0.8);
            Decide(Policy7, v, free) ==
            if size < v.cur as real then ChargeIf(free < 100.0, v, free, size)
            else ChargeIf(Debited(v, free, size) > 0.0 && percent > 0.9, v, free, size)
  {
  }

  lemma {:induction false} ClampedInUse(v: View, used: real, t: real)
    ensures InUse(t, 0.8, used, v.min, v.max) <==> t == Clamp(v, used / 0.8)
  {
  }

  // ----- policy 8 -----

  lemma {:induction false} ShrinkNormalMoves(v: View, free: real, used: real, percent: real, t: real)
    requires Used(v) == Some(used) && UsedPercent(v) == Some(percent)
    ensures var d := Decide(Policy8(ShrinkNormal), v, free);
            && (d.Sets? ==> InUseFrom(d.target, 0.5, used, v.min, v.max))
            && (InUseFrom(t, 0.5, used, v.min, v.max) ==>
                  d == if percent <= 0.3 && Leaves(v, free, t) then To(v, free, t) else Keeps)
  {
  }

  lemma {:induction false} GrowCriticalMoves(v: View, free: real, used: real, percent: real, t: real)
    requires Used(v) == Some(used) && UsedPercent(v) == Some(percent)
    ensures var d := Decide(Policy8(GrowCritical), v, free);
            && (d.Sets? ==> InUseFrom(d.target, 0.7, used, v.min, v.max))
            && (InUseFrom(t, 0.7, used, v.min, v.max) ==>
                  d == if percent >= 0.9 && Leaves(v, free, t) then To(v, free, t) else Keeps)
  {
  }

  /** The third pass only grows, and not a guest above its maximum. */
  lemma {:induction false} GrowWarnMoves(v: View, free: real, used: real, percent: real, t: real)
    requires Used(v) == Some(used) && UsedPercent(v) == Some(percent)
    ensures var d := Decide(Policy8(GrowWarn), v, free);
            && (d.Sets? ==> v.cur < v.max && InUse(d.target, 0.7, used, v.cur, v.max))
            && (InUse(t, 0.7, used, v.cur, v.max) ==>
                  var go := 0.3 <= percent <= 0.9 && free >= 0.0 && t > v.cur as real && Leaves(v, free, t);
                  d == if go then To(v, free, t) else Keeps)
  {
  }

  /** The fourth pass only ever takes a guest above its maximum down to it. */
  lemma {:induction false} ShrinkWarnMoves(v: View, free: real, percent: real)
    requires UsedPercent(v) == Some(percent)
    ensures Decide(Policy8(ShrinkWarn), v, free) ==
            if 0.3 <= percent <= 0.9 && free <= 0.0 && v.cur > v.max then To(v, free, v.max as real) else Keeps
  {
  }

  // ----- the step and reference policies -----

  /** m is the greatest multiple that is not above n. */
  predicate Multiple(n: int, unit: int, m: int)
    requires unit > 0
  {
    m % unit == 0 && m <= n < m + unit
  }

  lemma {:induction false} MultipleIs(n: int, unit: int, m: int)
    requires unit > 0
    ensures Multiple(n, unit, m) <==> m == FloorTo(n, unit)
  {
    FloorToFacts(n, unit);
    MultipleOfUnit(n / unit, unit);
    if Multiple(n, unit, m) {
      assert m == m / unit * unit;
      LessFactor(m / unit, n / unit + 1, unit);
      LessFactor(n / unit, m / unit + 1, unit);
    }
  }

  lemma {:induction false} MultipleOfUnit(k: int, unit: int)
    requires unit > 0
    ensures (k * unit) % unit == 0
  {
    var r := (k * unit) % unit;
    var q := (k * unit) / unit;
    assert k * unit == q * unit + r;
    assert (k - q) * unit == r;
    if k - q >= 1 { MoreFactor(1, k - q, unit); }
    if k - q <= -1 { MoreFactor(k - q, -1, unit); }
  }

  /** The guest gets that size; or, if the host lacks the memory, the greatest multiple of 5 MiB that the
      host has. */
  ghost predicate Gets(v: View, free: real, size: real, d: Decision) {
    if size - v.cur as real <= free then d == To(v, free, size)
    else exists whole, part :: Whole(free, whole) && Multiple(whole, 5242880, part)
                               && d == To(v, free, (v.cur + part) as real)
  }

  lemma {:induction false} TakeOrPartGets(v: View, free: real, size: real)
    ensures Gets(v, free, size, TakeOrPart(v, free, size))
  {
    var whole := Trunc(free);
    var part := FloorTo(whole, 5242880);
    WholeIs(free, whole);
    MultipleIs(whole, 5242880, part);
    assert Whole(free, whole) && Multiple(whole, 5242880, part);
  }

  /** The step policy goes by its thresholds: a step down, not below the minimum, or a step up, not above
      the maximum. */
  lemma {:induction false} StepMoves(v: View, free: real, p: Params, percent: real, down: real, up: real)
    requires UsedPercent(v) == Some(percent)
    requires Larger(down, v.cur as real - p.shrink, v.min as real)
    requires Smaller(up, v.cur as real + p.grow, v.max as real)
    ensures var d := Decide(Step(p), v, free);
            if percent < p.shrinkThreshold then d == To(v, free, down)
            else if percent > p.growThreshold then Gets(v, free, up, d)
            else d == Keeps
  {
    TakeOrPartGets(v, free, up);
  }

  /** m is the size with that share in use, cut to whole MiB. */
  ghost predicate Reference(used: real, ref: real, m: int) {
    exists size, whole :: size * ref == used && Whole(size, whole) && Multiple(whole, 1048576, m)
  }

  lemma {:induction false} ReferenceIs(used: real, ref: real, m: int)
    requires ref != 0.0
    ensures Reference(used, ref, m) <==> m == RefTarget(used, ref)
  {
    var size := used / ref;
    QuotientTimes(used, ref);
    WholeIs(size, Trunc(size));
    MultipleIs(Trunc(size), 1048576, m);
    if Reference(used, ref, m) {
      var size', whole :| size' * ref == used && Whole(size', whole) && Multiple(whole, 1048576, m);
      QuotientIsOnly(used, ref, size');
      WholeIs(size, whole);
    }
  }

  lemma {:induction false} QuotientIsOnly(a: real, b: real, q: real)
    requires b != 0.0 && q * b == a
    ensures q == a / b
  {
  }

  /** The reference policy goes to the size with its reference share in use, in whole MiB: down to it but
      not below the minimum, or up to it but not above the maximum. */
  lemma {:induction false} RefMoves(v: View, free: real, p: Params, used: real, percent: real, m: int)
    requires Used(v) == Some(used) && UsedPercent(v) == Some(percent)
    ensures var d := Decide(Ref(p), v, free);
            if percent < p.shrinkThreshold then
              p.shrink != 0.0 && Reference(used, p.shrink, m) ==>
                d == To(v, free, (if m < v.min then v.min else m) as real)
            else if percent > p.growThreshold then
              p.grow != 0.0 && Reference(used, p.grow, m) ==>
                Gets(v, free, (if m > v.max then v.max else m) as real, d)
            else d == Keeps
  {
    if p.shrink != 0.0 { RefShrinks(v, free, used, p.shrink, m); }
    if p.grow != 0.0 { RefGrows(v, free, used, p.grow, m); }
  }

  lemma {:induction false} RefShrinks(v: View, free: real, used: real, ref: real, m: int)
    requires ref != 0.0
    ensures Reference(used, ref, m) ==>
              ShrinkRef(v, free, used, ref) == To(v, free, (if m < v.min then v.min else m) as real)
  {
    ReferenceIs(used, ref, m);
  }

  lemma {:induction false} RefGrows(v: View, free: real, used: real, ref: real, m: int)
    requires ref != 0.0
    ensures Reference(used, ref, m) ==>
              Gets(v, free, (if m > v.max then v.max else m) as real, GrowRef(v, free, used, ref))
  {
    ReferenceIs(used, ref, m);
    TakeOrPartGets(v, free, (if m > v.max then v.max else m) as real);
  }
}
