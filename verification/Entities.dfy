/** Guest entities, the host-free cell and the balloon controller, as they change in place. */
module Entities {
  import opened Options
  import opened Policies
  import opened Ledger

  /** The number behind get_hostpressure and set_hostpressure. */
  class HostCell {
    var free: real

    constructor (free: real)
      ensures this.free == free
    {
      this.free := free;
    }
  }

  /** The balloon sizes the hypervisor has been told to give, guest by guest. */
  class Hypervisor {
    var sizes: seq<int>

    constructor (sizes: seq<int>)
      ensures this.sizes == sizes
    {
      this.sizes := sizes;
    }

    method SetVmBalloonTarget(i: nat, size: int)
      requires i < |sizes|
      modifies this
      ensures sizes == old(sizes)[i := size]
    {
      sizes := sizes[i := size];
    }
  }

  const TARGET := "balloon_target"

  class Entity {
    const rows: seq<Sample>
    const balloonCur: int
    const balloonMin: int
    const balloonMax: int
    var controls: map<string, real>

    /** A snapshot starts without controls. */
    constructor (v: View)
      ensures Snapshot() == v && controls == map[]
    {
      rows, balloonCur, balloonMin, balloonMax := v.rows, v.cur, v.min, v.max;
      controls := map[];
    }

    function Snapshot(): View {
      View(balloonCur, balloonMin, balloonMax, rows)
    }

    method Control(name: string, val: real)
      modifies this`controls
      ensures controls == old(controls)[name := val]
    {
      controls := controls[name := val];
    }

    function GetControl(name: string): Option<real>
      reads this`controls
    {
      if name in controls then Some(controls[name]) else None
    }

    /** StatAvg: add up the values that are there, then divide. */
    method StatAvg(field: Field) returns (r: Option<real>)
      ensures r == Average(Column(rows, field))
      ensures r.None? <==> rows == []
      ensures r.Some? ==> IsAverage(rows, field, r.value)
    {
      AverageIs(rows, field);
      var vals := Column(rows, field);
      if vals == [] {
        return None;
      }
      var nonEmpty := Present(vals);
      var total := 0;
      var i := 0;
      while i < |nonEmpty|
        invariant i <= |nonEmpty| && total == Sum(nonEmpty[..i])
      {
        assert nonEmpty[..i + 1][..i] == nonEmpty[..i];
        total := total + nonEmpty[i];
        i := i + 1;
      }
      assert nonEmpty[..i] == nonEmpty;
      if |nonEmpty| == 0 {
        return Some(0.0);
      }
      return Some((total / |nonEmpty|) as real);
    }

    // StatAvg("balloon_cur") - StatAvg("mem_unused")
    method UsedMemory() returns (r: Option<real>)
      ensures r == Used(Snapshot())
    {
      var cur := StatAvg(BalloonCur);
      var unused := StatAvg(MemUnused);
      return if cur.Some? && unused.Some? then Some(cur.value - unused.value) else None;
    }

    /** The method did what the decision says; ok is false if it raised an exception. */
    ghost predicate Did(d: Decision, controls0: map<string, real>, free0: real, ok: bool, host: HostCell)
      reads this, host
    {
      match d
      case Fails => !ok && controls == controls0 && host.free == free0
      case Keeps => ok && controls == controls0 && host.free == free0
      case Sets(target, free) => ok && controls == controls0[TARGET := target] && host.free == free
    }

    // set the control and write the debited number back
    method Charge(host: HostCell, size: real, left: real)
      modifies this`controls, host
      ensures controls == old(controls)[TARGET := size] && host.free == left
    {
      Control(TARGET, size);
      host.free := left;
    }

    // policy 1, oVirt
    method DdPolicy1Grow(host: HostCell) returns (ok: bool)
      modifies this`controls, host
      ensures Did(Grow1(Snapshot(), old(host.free)), old(controls), old(host.free), ok, host)
    {
      var free := host.free;
      if balloonCur < balloonMax {
        var used := UsedMemory();
        if used.None? {
          return false;
        }
        var balloonMin' := used.value + balloonCur as real / 5.0;
        var size := balloonCur as real * 21.0 / 20.0;
        size := Max(size, balloonMin');
        size := Min(size, balloonMax as real);
        var left := free - (size - balloonCur as real);
        if left > 0.0 {
          Charge(host, size, left);
        }
      }
      return true;
    }

    method DdPolicy1Shrink(host: HostCell) returns (ok: bool)
      modifies this`controls, host
      ensures Did(Shrink1(Snapshot(), old(host.free)), old(controls), old(host.free), ok, host)
    {
      var free := host.free;
      var used := UsedMemory();
      if used.None? {
        return false;
      }
      var balloonMin' := used.value + balloonCur as real / 5.0;
      var size := balloonCur as real * 19.0 / 20.0;
      size := Max(size, balloonMin');
      if size < balloonCur as real {
        var left := free - (size - balloonCur as real);
        Charge(host, size, left);
      }
      return true;
    }

    // policy 2, KVM auto-ballooning
    method DdPolicy2Grow(host: HostCell) returns (ok: bool)
      modifies this`controls, host
      ensures Did(Grow2(Snapshot(), old(host.free)), old(controls), old(host.free), ok, host)
    {
      var free := host.free;
      if balloonCur < balloonMax {
        var used := UsedMemory();
        if used.None? {
          return false;
        }
        var size := balloonCur as real + 4096.0 * 1000.0;
        var balloonMax' := used.value / 0.5;
        size := Min(size, balloonMax');
        var left := free - (size - balloonCur as real);
        if left > 0.0 {
          Charge(host, size, left);
        }
      }
      return true;
    }

    method DdPolicy2Shrink(host: HostCell) returns (ok: bool)
      modifies this`controls, host
      ensures Did(Shrink2(Snapshot(), old(host.free)), old(controls), old(host.free), ok, host)
    {
      var free := host.free;
      var used := UsedMemory();
      if used.None? {
        return false;
      }
      var balloonMin' := used.value + balloonCur as real / 5.0;
      var size := balloonCur as real - 4096.0 * 1000.0;
      size := Max(size, balloonMin');
      if size < balloonCur as real {
        var left := free - (size - balloonCur as real);
        Charge(host, size, left);
      }
      return true;
    }

    // policy 3, XenServer dynamic memory control
    method DdPolicy3Grow(host: HostCell) returns (ok: bool)
      modifies this`controls, host
      ensures Did(Grow3(Snapshot(), old(host.free)), old(controls), old(host.free), ok, host)
    {
      var free := host.free;
      var size := balloonCur as real * 21.0 / 20.0;
      size := Min(size, balloonMax as real);
      var left := free - (size - balloonCur as real);
      if left > 0.0 {
        Charge(host, size, left);
      }
      return true;
    }

    method DdPolicy3Shrink(host: HostCell) returns (ok: bool)
      modifies this`controls, host
      ensures Did(Shrink3(Snapshot(), old(host.free)), old(controls), old(host.free), ok, host)
    {
      var free := host.free;
      var size := balloonCur as real * 19.0 / 20.0;
      size := Max(size, balloonMin as real);
      if size < balloonCur as real {
        var left := free - (size - balloonCur as real);
        Charge(host, size, left);
      }
      return true;
    }

    // policy 4, dynamic memory allocation controller
    method DdPolicy4Apply(host: HostCell) returns (ok: bool)
      modifies this`controls, host
      ensures Did(Apply4(Snapshot(), old(host.free)), old(controls), old(host.free), ok, host)
    {
      var free := host.free;
      var size := DdPolicy4Size();
      if size.None? {
        return false;
      }
      var left := free - (size.value - balloonCur as real);
      if size.value < balloonCur as real {
        Charge(host, size.value, left);
      } else {
        if left > 0.0 {
          Charge(host, size.value, left);
        }
      }
      return true;
    }

    // the proposed size, clamped
    method DdPolicy4Size() returns (r: Option<real>)
      ensures var v := Snapshot();
              match (Used(v), UsedPercent(v))
              case (Some(used), Some(percent)) => r == Some(Clamp(v, Proposed4(v.cur as real, used, percent)))
              case _ => r == None
    {
      var used := UsedMemory();
      var avg := StatAvg(BalloonCur);
      if used.None? || avg.None? || avg.value == 0.0 {
        return None;
      }
      var percent := used.value / avg.value;
      var size := Proposed4(balloonCur as real, used.value, percent);
      size := Max(size, balloonMin as real);
      size := Min(size, balloonMax as real);
      return Some(size);
    }

    // policy 5, self-scheduling with local feedback
    method DdPolicy5Apply(host: HostCell) returns (ok: bool)
      modifies this`controls, host
      ensures Did(Apply5(Snapshot(), old(host.free)), old(controls), old(host.free), ok, host)
    {
      var free := host.free;
      var used := UsedMemory();
      if used.None? {
        return false;
      }
      var size := used.value / 0.7;
      size := Max(size, balloonMin as real);
      size := Min(size, balloonMax as real);
      var left := free - (size - balloonCur as real);
      if size < balloonCur as real {
        Charge(host, size, left);
      } else {
        if left > 0.0 {
          Charge(host, size, left);
        }
      }
      return true;
    }

    // policy 6, Hyper-V dynamic memory
    method DdPolicy6Apply(host: HostCell) returns (ok: bool)
      modifies this`controls, host
      ensures Did(Apply6(Snapshot(), old(host.free)), old(controls), old(host.free), ok, host)
    {
      var free := host.free;
      var used := UsedMemory();
      var avg := StatAvg(BalloonCur);
      if used.None? || avg.None? || avg.value == 0.0 {
        return false;
      }
      var percent := used.value / avg.value;
      var size := used.value / 0.7;
      size := Max(size, balloonMin as real);
      size := Min(size, balloonMax as real);
      if size < balloonCur as real {
        if free < 100.0 {
          var left := free - (size - balloonCur as real);
          Charge(host, size, left);
        }
      } else {
        size := balloonCur as real + 4096.0 * 1000.0;
        var left := free - (size - balloonCur as real);
        if left > 0.0 {
          Charge(host, size, left);
        }
      }
      return true;
    }

    // policy 7, U-tube
    method DdPolicy7Apply(host: HostCell) returns (ok: bool)
      modifies this`controls, host
      ensures Did(Apply7(Snapshot(), old(host.free)), old(controls), old(host.free), ok, host)
    {
      var free := host.free;
      var used := UsedMemory();
      var avg := StatAvg(BalloonCur);
      if used.None? || avg.None? || avg.value == 0.0 {
        return false;
      }
      var percent := used.value / avg.value;
      var size := used.value / 0.8;
      size := Max(size, balloonMin as real);
      size := Min(size, balloonMax as real);
      var left := free - (size - balloonCur as real);
      if size < balloonCur as real {
        if free < 100.0 {
          Charge(host, size, left);
        }
      } else {
        if left > 0.0 && percent > 0.9 {
          Charge(host, size, left);
        }
      }
      return true;
    }

    // policy 8, iBalloon
    method DdPolicy8ShrinkNormal(host: HostCell) returns (ok: bool)
      modifies this`controls, host
      ensures Did(Decide8(ShrinkNormal, Snapshot(), old(host.free)), old(controls), old(host.free), ok, host)
    {
      var free := host.free;
      var used := UsedMemory();
      var avg := StatAvg(BalloonCur);
      if used.None? || avg.None? || avg.value == 0.0 {
        return false;
      }
      var percent := used.value / avg.value;
      if percent > 0.3 {
        return true;
      }
      var size := used.value / 0.5;
      size := Min(size, balloonMax as real);
      size := Max(size, balloonMin as real);
      var left := free - (size - balloonCur as real);
      if left > 0.0 {
        Charge(host, size, left);
      }
      return true;
    }

    method DdPolicy8GrowCritical(host: HostCell) returns (ok: bool)
      modifies this`controls, host
      ensures Did(Decide8(GrowCritical, Snapshot(), old(host.free)), old(controls), old(host.free), ok, host)
    {
      var free := host.free;
      var used := UsedMemory();
      var avg := StatAvg(BalloonCur);
      if used.None? || avg.None? || avg.value == 0.0 {
        return false;
      }
      var percent := used.value / avg.value;
      if percent < 0.9 {
        return true;
      }
      var size := used.value / 0.7;
      size := Min(size, balloonMax as real);
      size := Max(size, balloonMin as real);
      var left := free - (size - balloonCur as real);
      if left > 0.0 {
        Charge(host, size, left);
      }
      return true;
    }

    method DdPolicy8GrowWarn(host: HostCell) returns (ok: bool)
      modifies this`controls, host
      ensures Did(Decide8(GrowWarn, Snapshot(), old(host.free)), old(controls), old(host.free), ok, host)
    {
      var free := host.free;
      var used := UsedMemory();
      var avg := StatAvg(BalloonCur);
      if used.None? || avg.None? || avg.value == 0.0 {
        return false;
      }
      var percent := used.value / avg.value;
      if percent > 0.9 || percent < 0.3 || free < 0.0 {
        return true;
      }
      var size := used.value / 0.7;
      size := Max(size, balloonCur as real);
      size := Min(size, balloonMax as real);
      var left := free - (size - balloonCur as real);
      if size > balloonCur as real && left > 0.0 {
        Charge(host, size, left);
      }
      return true;
    }

    method DdPolicy8ShrinkWarn(host: HostCell) returns (ok: bool)
      modifies this`controls, host
      ensures Did(Decide8(ShrinkWarn, Snapshot(), old(host.free)), old(controls), old(host.free), ok, host)
    {
      var free := host.free;
      var used := UsedMemory();
      var avg := StatAvg(BalloonCur);
      if used.None? || avg.None? || avg.value == 0.0 {
        return false;
      }
      var percent := used.value / avg.value;
      if percent > 0.9 || percent < 0.3 || free > 0.0 {
        return true;
      }
      var size := used.value / 0.85;
      size := Max(size, balloonCur as real);
      size := Min(size, balloonMax as real);
      if size < balloonCur as real {
        var left := free - (size - balloonCur as real);
        Charge(host, size, left);
      }
      return true;
    }

    // the step policy
    method OptPolicyGrowStep(host: HostCell, step: real) returns (ok: bool)
      modifies this`controls, host
      ensures Did(GrowStep(Snapshot(), old(host.free), step), old(controls), old(host.free), ok, host)
    {
      var target := balloonCur as real + step;
      if target > balloonMax as real {
        target := balloonMax as real;
      }
      var free := host.free;
      var left := free - (target - balloonCur as real);
      if left < 0.0 {
        var newStep := Trunc(free) / MIB5;
        newStep := newStep * MIB5;
        target := (balloonCur + newStep) as real;
        left := free - (target - balloonCur as real);
      }
      Charge(host, target, left);
      return true;
    }

    method OptPolicyShrinkStep(host: HostCell, step: real) returns (ok: bool)
      modifies this`controls, host
      ensures Did(ShrinkStep(Snapshot(), old(host.free), step), old(controls), old(host.free), ok, host)
    {
      var target := balloonCur as real - step;
      if target < balloonMin as real {
        target := balloonMin as real;
      }
      var free := host.free;
      var left := free - (target - balloonCur as real);
      Charge(host, target, left);
      return true;
    }

    method OptPolicyStep(host: HostCell, p: Params) returns (ok: bool)
      modifies this`controls, host
      ensures Did(StepPolicy(Snapshot(), old(host.free), p), old(controls), old(host.free), ok, host)
    {
      var used := UsedMemory();
      var avg := StatAvg(BalloonCur);
      if used.None? || avg.None? || avg.value == 0.0 {
        return false;
      }
      var percent := used.value / avg.value;
      if percent < p.shrinkThreshold {
        ok := OptPolicyShrinkStep(host, p.shrink);
      } else if percent > p.growThreshold {
        ok := OptPolicyGrowStep(host, p.grow);
      } else {
        ok := true;
      }
    }

    // the reference policy
    method OptPolicyGrowRef(host: HostCell, used: real, ref: real) returns (ok: bool)
      modifies this`controls, host
      ensures Did(GrowRef(Snapshot(), old(host.free), used, ref), old(controls), old(host.free), ok, host)
    {
      if ref == 0.0 {
        return false;
      }
      var whole := Trunc(used / ref) / MIB;
      whole := whole * MIB;
      if whole > balloonMax {
        whole := balloonMax;
      }
      var target := whole as real;
      var free := host.free;
      var left := free - (target - balloonCur as real);
      if left < 0.0 {
        var newStep := Trunc(free) / MIB5;
        newStep := newStep * MIB5;
        target := (balloonCur + newStep) as real;
        left := free - (target - balloonCur as real);
      }
      Charge(host, target, left);
      return true;
    }

    method OptPolicyShrinkRef(host: HostCell, used: real, ref: real) returns (ok: bool)
      modifies this`controls, host
      ensures Did(ShrinkRef(Snapshot(), old(host.free), used, ref), old(controls), old(host.free), ok, host)
    {
      if ref == 0.0 {
        return false;
      }
      var whole := Trunc(used / ref) / MIB;
      whole := whole * MIB;
      if whole < balloonMin {
        whole := balloonMin;
      }
      var target := whole as real;
      var free := host.free;
      var left := free - (target - balloonCur as real);
      Charge(host, target, left);
      return true;
    }

    method OptPolicyRef(host: HostCell, p: Params) returns (ok: bool)
      modifies this`controls, host
      ensures Did(RefPolicy(Snapshot(), old(host.free), p), old(controls), old(host.free), ok, host)
    {
      var used := UsedMemory();
      var avg := StatAvg(BalloonCur);
      if used.None? || avg.None? || avg.value == 0.0 {
        return false;
      }
      var percent := used.value / avg.value;
      if percent < p.shrinkThreshold {
        ok := OptPolicyShrinkRef(host, used.value, p.shrink);
      } else if percent > p.growThreshold {
        ok := OptPolicyGrowRef(host, used.value, p.grow);
      } else {
        ok := true;
      }
    }

    /** One policy call, chosen by the rules file. It raises an exception exactly if the snapshot
        lacks what the policy asks of it, and then changes nothing. Otherwise it changes nothing
        either, or sets the one target and no other control, and the free number and the target
        together are the old free number and the present size. */
    method RunCall(host: HostCell, c: Call) returns (ok: bool)
      modifies this`controls, host
      ensures Did(Decide(c, Snapshot(), old(host.free)), old(controls), old(host.free), ok, host)
      ensures ok <==> !Unanswerable(c, Snapshot())
      ensures (controls == old(controls) && host.free == old(host.free)) ||
              (ok && TARGET in controls && controls == old(controls)[TARGET := controls[TARGET]] &&
               host.free + controls[TARGET] == old(host.free) + balloonCur as real)
    {
      TargetIsCharged(c, Snapshot(), host.free);
      FailsIffUnanswerable(c, Snapshot(), host.free);
      ok := Handle(host, c);
    }

    // the handler the call names
    method Handle(host: HostCell, c: Call) returns (ok: bool)
      modifies this`controls, host
      ensures Did(Decide(c, Snapshot(), old(host.free)), old(controls), old(host.free), ok, host)
    {
      match c {
        case Policy1(pressure) =>
          if pressure < 100.0 { ok := DdPolicy1Shrink(host); } else { ok := DdPolicy1Grow(host); }
        case Policy2(pressure) =>
          if pressure < 100.0 { ok := DdPolicy2Shrink(host); } else { ok := DdPolicy2Grow(host); }
        case Policy3(pressure) =>
          if pressure < 100.0 { ok := DdPolicy3Shrink(host); } else { ok := DdPolicy3Grow(host); }
        case Policy4 => ok := DdPolicy4Apply(host);
        case Policy5 => ok := DdPolicy5Apply(host);
        case Policy6 => ok := DdPolicy6Apply(host);
        case Policy7 => ok := DdPolicy7Apply(host);
        case Policy8(pass) =>
          match pass {
            case ShrinkNormal => ok := DdPolicy8ShrinkNormal(host);
            case GrowCritical => ok := DdPolicy8GrowCritical(host);
            case GrowWarn => ok := DdPolicy8GrowWarn(host);
            case ShrinkWarn => ok := DdPolicy8ShrinkWarn(host);
          }
        case Step(p) => ok := OptPolicyStep(host, p);
        case Ref(p) => ok := OptPolicyRef(host, p);
      }
    }
  }

  // ----- the controller and the round -----

  ghost function TargetsOf(guests: seq<Entity>): (ts: Targets)
    reads guests
    ensures |ts| == |guests|
  {
    seq(|guests|, i requires 0 <= i < |guests| reads guests => guests[i].GetControl(TARGET))
  }

  /** A guest with a target gets its whole part, and any other guest keeps its size. */
  ghost predicate WholeParts(sizes: seq<int>, targets: Targets, sizes': seq<int>) {
    && |sizes'| == |targets| == |sizes|
    && forall i :: 0 <= i < |sizes| ==>
         match targets[i]
         case Some(t) => Whole(t, sizes'[i])
         case None => sizes'[i] == sizes[i]
  }

  /** Apply every target that was set, truncated. */
  method Process(guests: seq<Entity>, hypervisor: Hypervisor)
    requires |guests| == |hypervisor.sizes|
    modifies hypervisor
    ensures hypervisor.sizes == ApplyTargets(old(hypervisor.sizes), TargetsOf(guests))
    ensures WholeParts(old(hypervisor.sizes), TargetsOf(guests), hypervisor.sizes)
  {
    ghost var wanted := ApplyTargets(hypervisor.sizes, TargetsOf(guests));
    ghost var sizes := hypervisor.sizes;
    var i := 0;
    while i < |guests|
      invariant i <= |guests| && |hypervisor.sizes| == |sizes|
      invariant forall j :: 0 <= j < i ==> hypervisor.sizes[j] == wanted[j]
      invariant forall j :: i <= j < |sizes| ==> hypervisor.sizes[j] == sizes[j]
    {
      var target := guests[i].GetControl(TARGET);
      assert target == TargetsOf(guests)[i];
      if target.Some? {
        hypervisor.SetVmBalloonTarget(i, Trunc(target.value));
      }
      i := i + 1;
    }
    assert hypervisor.sizes == wanted;
    WholePartsApplied(sizes, TargetsOf(guests));
  }

  lemma {:induction false} WholePartsApplied(sizes: seq<int>, targets: Targets)
    requires |sizes| == |targets|
    ensures WholeParts(sizes, targets, ApplyTargets(sizes, targets))
  {
    forall i | 0 <= i < |sizes| && targets[i].Some?
      ensures Whole(targets[i].value, Trunc(targets[i].value))
    {
      WholeIs(targets[i].value, Trunc(targets[i].value));
    }
  }

  ghost function PlanOf(guests: seq<Entity>, turns: seq<Turn>): (p: Plan)
    ensures |p.views| == |guests| && p.turns == turns
  {
    Plan(seq(|guests|, i requires 0 <= i < |guests| => guests[i].Snapshot()), turns)
  }

  ghost predicate Distinct(guests: seq<Entity>) {
    forall i, j :: 0 <= i < j < |guests| ==> guests[i] != guests[j]
  }

  ghost predicate Fresh(guests: seq<Entity>)
    reads guests
  {
    forall i :: 0 <= i < |guests| ==> guests[i].controls == map[]
  }

  /** The entities and the free number stand where the evaluation does. */
  ghost predicate Reached(guests: seq<Entity>, free: real, ok: bool, s: Progress)
    reads guests
  {
    s == Progress(free, TargetsOf(guests), ok)
  }

  // one call of the rules
  method RunTurn(guests: seq<Entity>, t: Turn, host: HostCell, ghost s: Progress) returns (ok: bool)
    requires Distinct(guests) && t.guest < |guests| && Reached(guests, host.free, true, s) && s.ok
    modifies guests, host
    ensures Reached(guests, host.free, ok, Take(t, guests[t.guest].Snapshot(), s))
  {
    ok := guests[t.guest].RunCall(host, t.call);
    forall i | 0 <= i < |guests| && i != t.guest
      ensures guests[i].GetControl(TARGET) == s.targets[i]
    {
      assert guests[i] != guests[t.guest] && s.targets[i] == old(TargetsOf(guests))[i];
    }
    assert s.targets[t.guest] == old(guests[t.guest].GetControl(TARGET));
    assert TargetsOf(guests) == Take(t, guests[t.guest].Snapshot(), s).targets;
  }

  lemma {:induction false} TurnAfter(guests: seq<Entity>, turns: seq<Turn>, free: real, n: nat)
    requires PlanOf(guests, turns).Valid() && n < |turns| && StateAfter(PlanOf(guests, turns), free, n).ok
    ensures var p := PlanOf(guests, turns);
            && turns[n].guest < |guests|
            && StateAfter(p, free, n + 1) ==
               Take(turns[n], guests[turns[n].guest].Snapshot(), StateAfter(p, free, n))
  {
    assert PlanOf(guests, turns).turns[n].guest < |guests|;
  }

  lemma {:induction false} FreshTargets(guests: seq<Entity>)
    requires Fresh(guests)
    ensures TargetsOf(guests) == NoTargets(|guests|)
  {
  }

  // the next call of the rules
  method NextTurn(guests: seq<Entity>, turns: seq<Turn>, n: nat, host: HostCell, ghost free: real) returns (ok: bool)
    requires PlanOf(guests, turns).Valid() && Distinct(guests) && n < |turns|
    requires Reached(guests, host.free, true, StateAfter(PlanOf(guests, turns), free, n))
    modifies guests, host
    ensures Reached(guests, host.free, ok, StateAfter(PlanOf(guests, turns), free, n + 1))
  {
    TurnAfter(guests, turns, free, n);
    ok := RunTurn(guests, turns[n], host, StateAfter(PlanOf(guests, turns), free, n));
  }

  // the policy evaluation: the calls of the rules, until one fails
  method EvaluateCalls(guests: seq<Entity>, turns: seq<Turn>, host: HostCell) returns (ok: bool)
    requires PlanOf(guests, turns).Valid() && Distinct(guests) && Fresh(guests)
    modifies guests, host
    ensures Reached(guests, host.free, ok, Evaluate(PlanOf(guests, turns), old(host.free)))
  {
    ghost var p, free := PlanOf(guests, turns), host.free;
    FreshTargets(guests);
    var n := 0;
    while n < |turns|
      invariant n <= |turns| && Reached(guests, host.free, true, StateAfter(p, free, n))
    {
      ok := NextTurn(guests, turns, n, host, free);
      n := n + 1;
      if !ok {
        EndsAt(p, free, n);
        return;
      }
    }
    EndsAt(p, free, n);
    return true;
  }

  lemma {:induction false} EndsAt(p: Plan, free: real, n: nat)
    requires p.Valid() && n <= |p.turns| && (n < |p.turns| ==> !StateAfter(p, free, n).ok)
    ensures Evaluate(p, free) == StateAfter(p, free, n)
  {
    if n < |p.turns| { StaysFailed(p, free, n, |p.turns|); }
  }

  lemma {:induction false} StaysFailed(p: Plan, free: real, m: nat, n: nat)
    requires p.Valid() && m <= n <= |p.turns| && !StateAfter(p, free, m).ok
    ensures StateAfter(p, free, n) == StateAfter(p, free, m)
  {
    if m < n { StaysFailed(p, free, m, n - 1); }
  }

  /** do_controls: evaluate, and hand over to the controller unless the evaluation failed. */
  method DoControls(guests: seq<Entity>, turns: seq<Turn>, host: HostCell, hypervisor: Hypervisor)
    requires PlanOf(guests, turns).Valid() && |guests| == |hypervisor.sizes| && Distinct(guests) && Fresh(guests)
    modifies guests, host, hypervisor
    ensures Host(host.free, hypervisor.sizes) ==
            Round(Host(old(host.free), old(hypervisor.sizes)), PlanOf(guests, turns))
  {
    var ok := EvaluateCalls(guests, turns, host);
    if !ok {
      return;
    }
    Process(guests, hypervisor);
  }
}
