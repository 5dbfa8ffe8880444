/** iBalloon runs four passes over one snapshot of all guests: when the free number agrees in the end. */
module IBalloon {
  import opened Options
  import opened Policies
  import opened Bounds
  import opened Ledger

  // ----- the four loops of the rules file, in its order -----

  function PassAt(q: nat): Pass {
    if q == 0 then ShrinkNormal else if q == 1 then GrowCritical else if q == 2 then GrowWarn else ShrinkWarn
  }

  function PassTurns(q: nat, n: nat): seq<Turn> {
    seq(n, i requires 0 <= i < n => Turn(i, Policy8(PassAt(q))))
  }

  /** The first q passes over n guests. */
  function Passes(q: nat, n: nat): seq<Turn> {
    if q == 0 then [] else Passes(q - 1, n) + PassTurns(q - 1, n)
  }

  /** All four passes over the given guests. */
  function FourPasses(views: seq<View>): Plan {
    Plan(views, Passes(4, |views|))
  }

  /** The index of guest i's turn in pass q. */
  function Position(q: nat, i: nat, n: nat): nat {
    if q == 0 then i else n + Position(q - 1, i, n)
  }

  lemma {:induction false} PassesAt(q: nat, n: nat)
    ensures |Passes(q, n)| == Position(q, 0, n)
    ensures forall k :: 0 <= k < |Passes(q, n)| ==> Passes(q, n)[k].guest < n
    ensures q > 0 ==> Passes(q, n)[Position(q - 1, 0, n)..] == PassTurns(q - 1, n)
  {
    if q > 0 { PassesAt(q - 1, n); }
  }

  lemma {:induction false} PassesGrow(q: nat, r: nat, n: nat)
    requires q <= r
    ensures Passes(q, n) <= Passes(r, n)
  {
    if q < r { PassesGrow(q, r - 1, n); }
  }

  lemma {:induction false} PositionAdds(q: nat, i: nat, n: nat)
    ensures Position(q, i, n) == Position(q, 0, n) + i
    ensures Position(q, n, n) == Position(q + 1, 0, n)
  {
    if q > 0 { PositionAdds(q - 1, i, n); PositionAdds(q - 1, n, n); }
  }

  lemma {:induction false} FourPassesValid(views: seq<View>)
    ensures FourPasses(views).Valid()
  {
    PassesAt(4, |views|);
  }

  /** The turn at a position is the one it should be. */
  lemma {:induction false} TurnAt(views: seq<View>, q: nat, i: nat)
    requires q < 4 && i < |views|
    ensures var p := FourPasses(views);
            && Position(q, i, |views|) < |p.turns|
            && p.turns[Position(q, i, |views|)] == Turn(i, Policy8(PassAt(q)))
  {
    TurnIn(q, i, |views|, 4);
  }

  lemma {:induction false} TurnIn(q: nat, i: nat, n: nat, r: nat)
    requires q < r && i < n
    ensures Position(q, i, n) < |Passes(r, n)| && Passes(r, n)[Position(q, i, n)] == Turn(i, Policy8(PassAt(q)))
  {
    PassesAt(q + 1, n);
    PassesGrow(q + 1, r, n);
    PositionAdds(q, i, n);
    var turns, start := Passes(q + 1, n), Position(q, 0, n);
    assert turns[start..][i] == turns[start + i];
  }

  // ----- the state before guest i's turn in pass q -----

  lemma {:induction false} WithinPlan(views: seq<View>, q: nat, i: nat)
    requires q < 4 && i <= |views|
    ensures FourPasses(views).Valid() && Position(q, i, |views|) <= |FourPasses(views).turns|
  {
    var n := |views|;
    FourPassesValid(views);
    PassesAt(4, n);
    PassesAt(q + 1, n);
    PassesGrow(q + 1, 4, n);
    PositionAdds(q, i, n);
    PositionAdds(q, n, n);
  }

  /** One turn of one pass. */
  function TakePass(q: nat, i: nat, v: View, s: Progress): (s': Progress)
    requires i < |s.targets|
    ensures |s'.targets| == |s.targets|
  {
    if !s.ok then s
    else
      match Decide8(PassAt(q), v, s.free)
      case Fails => s.(ok := false)
      case Keeps => s
      case Sets(target, free) => Progress(free, s.targets[i := Some(target)], true)
  }

  function At(views: seq<View>, free: real, q: nat, i: nat): (s: Progress)
    requires i <= |views|
    ensures |s.targets| == |views|
    decreases q, i
  {
    if i > 0 then TakePass(q, i - 1, views[i - 1], At(views, free, q, i - 1))
    else if q > 0 then At(views, free, q - 1, |views|)
    else Progress(free, NoTargets(|views|), true)
  }

  lemma {:induction false} PassTaken(q: nat, i: nat, v: View, s: Progress)
    requires i < |s.targets|
    ensures TakePass(q, i, v, s) == if s.ok then Take(Turn(i, Policy8(PassAt(q))), v, s) else s
  {
  }

  /** Going from guest to guest and pass to pass is evaluating the plan. */
  lemma {:induction false} AtIsStateAfter(views: seq<View>, free: real, q: nat, i: nat)
    requires q < 4 && i <= |views|
    ensures FourPasses(views).Valid() && Position(q, i, |views|) <= |FourPasses(views).turns|
    ensures At(views, free, q, i) == StateAfter(FourPasses(views), free, Position(q, i, |views|))
    decreases q, i
  {
    WithinPlan(views, q, i);
    PositionAdds(q, i, |views|);
    if i > 0 {
      AtIsStateAfter(views, free, q, i - 1);
      TurnAt(views, q, i - 1);
      PositionAdds(q, i - 1, |views|);
      PassTaken(q, i - 1, views[i - 1], At(views, free, q, i - 1));
    } else if q > 0 {
      AtIsStateAfter(views, free, q - 1, |views|);
      PositionAdds(q - 1, 0, |views|);
    }
  }

  /** The end of the evaluation. */
  lemma {:induction false} LastState(views: seq<View>, free: real)
    ensures FourPasses(views).Valid() && Evaluate(FourPasses(views), free) == At(views, free, 3, |views|)
  {
    AtIsStateAfter(views, free, 3, |views|);
    PassesAt(4, |views|);
    PositionAdds(3, 0, |views|);
  }

  // ----- growths thrown away -----

  /** The turn sets a target for a guest that has one already. */
  predicate Twice(q: nat, i: nat, v: View, s: Progress)
    requires i < |s.targets|
  {
    s.ok && s.targets[i].Some? && Decide8(PassAt(q), v, s.free).Sets?
  }

  predicate TwiceAt(views: seq<View>, free: real, q: nat, i: nat)
    requires i < |views|
  {
    Twice(q, i, views[i], At(views, free, q, i))
  }

  function ThrownBy(q: nat, i: nat, v: View, s: Progress): real
    requires i < |s.targets|
  {
    if Twice(q, i, v, s) then s.targets[i].value - v.cur as real else 0.0
  }

  /** What all turns before guest i's turn in pass q throw away. */
  function Thrown(views: seq<View>, free: real, q: nat, i: nat): real
    requires i <= |views|
    decreases q, i
  {
    if i > 0 then Thrown(views, free, q, i - 1) + ThrownBy(q, i - 1, views[i - 1], At(views, free, q, i - 1))
    else if q > 0 then Thrown(views, free, q - 1, |views|)
    else 0.0
  }

  lemma {:induction false} PassReplaces(q: nat, i: nat, v: View, s: Progress)
    requires i < |s.targets|
    ensures Replaces(Turn(i, Policy8(PassAt(q))), v, s) == ThrownBy(q, i, v, s)
  {
  }

  lemma {:induction false} ThrownIsReplaced(views: seq<View>, free: real, q: nat, i: nat)
    requires q < 4 && i <= |views|
    ensures FourPasses(views).Valid() && Position(q, i, |views|) <= |FourPasses(views).turns|
    ensures Replaced(FourPasses(views), free, Position(q, i, |views|)) == Thrown(views, free, q, i)
    decreases q, i
  {
    WithinPlan(views, q, i);
    if i > 0 {
      ThrownIsReplaced(views, free, q, i - 1);
      ReplacedNext(views, free, q, i - 1);
    } else if q > 0 {
      ThrownIsReplaced(views, free, q - 1, |views|);
      PositionAdds(q - 1, 0, |views|);
    }
  }

  lemma {:induction false} ReplacedNext(views: seq<View>, free: real, q: nat, i: nat)
    requires q < 4 && i < |views|
    ensures FourPasses(views).Valid()
    ensures Position(q, i, |views|) < Position(q, i + 1, |views|) <= |FourPasses(views).turns|
    ensures Replaced(FourPasses(views), free, Position(q, i + 1, |views|)) ==
            Replaced(FourPasses(views), free, Position(q, i, |views|)) + ThrownBy(q, i, views[i], At(views, free, q, i))
  {
    WithinPlan(views, q, i + 1);
    AtIsStateAfter(views, free, q, i);
    TurnAt(views, q, i);
    PositionAdds(q, i, |views|);
    PositionAdds(q, i + 1, |views|);
    PassReplaces(q, i, views[i], At(views, free, q, i));
  }

  lemma {:induction false} AllThrown(views: seq<View>, free: real)
    ensures FourPasses(views).Valid()
    ensures Replaced(FourPasses(views), free, |FourPasses(views).turns|) == Thrown(views, free, 3, |views|)
  {
    ThrownIsReplaced(views, free, 3, |views|);
    PassesAt(4, |views|);
    PositionAdds(3, 0, |views|);
  }

  /** No turn sets a target for a guest that has one. */
  ghost predicate NobodyChargedTwice(views: seq<View>, free: real) {
    forall q: nat, i: nat :: q < 4 && i < |views| ==> !TwiceAt(views, free, q, i)
  }

  lemma {:induction false} NothingThrown(views: seq<View>, free: real, q: nat, i: nat)
    requires NobodyChargedTwice(views, free) && q < 4 && i <= |views|
    ensures Thrown(views, free, q, i) == 0.0
    decreases q, i
  {
    if i > 0 {
      NothingThrown(views, free, q, i - 1);
      assert !TwiceAt(views, free, q, i - 1);
    } else if q > 0 {
      NothingThrown(views, free, q - 1, |views|);
    }
  }

  /** The first n guests all have a used fraction. */
  ghost predicate FractionsUpTo(views: seq<View>, n: nat)
    requires n <= |views|
  {
    forall j :: 0 <= j < n ==> !NoFraction(views[j])
  }

  /** Whose turns have come, before guest i's turn in pass q. */
  function Asked(views: seq<View>, q: nat, i: nat): nat {
    if q == 0 then i else |views|
  }

  /** A turn fails exactly if the guest has no used fraction. */
  lemma {:induction false} PassFails(q: nat, i: nat, v: View, s: Progress)
    requires i < |s.targets|
    ensures TakePass(q, i, v, s).ok <==> s.ok && !NoFraction(v)
  {
  }

  lemma {:induction false} OkIff(views: seq<View>, free: real, q: nat, i: nat)
    requires i <= |views|
    ensures At(views, free, q, i).ok <==> FractionsUpTo(views, Asked(views, q, i))
    decreases q, i
  {
    if i > 0 {
      OkIff(views, free, q, i - 1);
      OkNext(views, q, i - 1, At(views, free, q, i - 1));
    } else if q > 0 {
      OkIff(views, free, q - 1, |views|);
      assert Asked(views, q, 0) == Asked(views, q - 1, |views|);
    }
  }

  lemma {:induction false} OkNext(views: seq<View>, q: nat, i: nat, s: Progress)
    requires i < |views| == |s.targets| && (s.ok <==> FractionsUpTo(views, Asked(views, q, i)))
    ensures TakePass(q, i, views[i], s).ok <==> FractionsUpTo(views, Asked(views, q, i + 1))
  {
    PassFails(q, i, views[i], s);
  }

  // ----- which pass a guest belongs to -----

  predicate OnEdge(v: View) {
    UsedPercent(v) == Some(0.3) || UsedPercent(v) == Some(0.9)
  }

  /** The one pass that can set a guest's target, unless the used fraction is on an edge. */
  function Owner(v: View): nat {
    match UsedPercent(v)
    case None => 0
    case Some(x) => if x <= 0.3 then 0 else if x >= 0.9 then 1 else if v.cur <= v.max then 2 else 3
  }

  lemma {:induction false} OnlyOwnerSets(q: nat, v: View, free: real)
    requires q < 4 && !OnEdge(v)
    ensures Decide8(PassAt(q), v, free).Sets? ==> Owner(v) == q
  {
  }

  /** The last pass cannot do anything to a guest that is not above its maximum. */
  lemma {:induction false} ShrinkWarnNeverSets(v: View, free: real)
    requires v.cur <= v.max
    ensures !Decide8(ShrinkWarn, v, free).Sets?
  {
  }

  ghost predicate NoneOnEdge(views: seq<View>) {
    forall j :: 0 <= j < |views| ==> !OnEdge(views[j])
  }

  /** Before guest i's turn in pass q, every target was set by its owner, which has been there. */
  ghost predicate OwnersOnly(views: seq<View>, targets: Targets, q: nat, i: nat) {
    |targets| == |views| &&
    forall j :: 0 <= j < |views| && targets[j].Some? ==> Owner(views[j]) < q || (Owner(views[j]) == q && j < i)
  }

  lemma {:induction false} OwnersAt(views: seq<View>, free: real, q: nat, i: nat)
    requires q < 4 && i <= |views| && NoneOnEdge(views)
    ensures OwnersOnly(views, At(views, free, q, i).targets, q, i)
    decreases q, i
  {
    if i > 0 {
      OwnersAt(views, free, q, i - 1);
      OwnersTake(views, At(views, free, q, i - 1), q, i - 1);
    } else if q > 0 {
      OwnersAt(views, free, q - 1, |views|);
    }
  }

  lemma {:induction false} OwnersTake(views: seq<View>, s: Progress, q: nat, i: nat)
    requires q < 4 && i < |views| == |s.targets| && !OnEdge(views[i]) && OwnersOnly(views, s.targets, q, i)
    ensures OwnersOnly(views, TakePass(q, i, views[i], s).targets, q, i + 1)
  {
    OnlyOwnerSets(q, views[i], s.free);
  }

  lemma {:induction false} OwnerTurn(q: nat, v: View, s: Progress, i: nat)
    requires q < 4 && !OnEdge(v) && i < |s.targets| && (s.targets[i].Some? ==> Owner(v) < q)
    ensures !Twice(q, i, v, s)
  {
    OnlyOwnerSets(q, v, s.free);
  }

  /** Off the edges each guest is charged at most once, whatever the host has. */
  lemma {:induction false} FourPassesConserve(views: seq<View>)
    requires NoneOnEdge(views)
    ensures FourPasses(views).Valid() && ReplacesNothing(FourPasses(views))
  {
    FourPassesValid(views);
    forall free
      ensures Replaced(FourPasses(views), free, |FourPasses(views).turns|) == 0.0
    {
      forall q: nat, i: nat | q < 4 && i < |views|
        ensures !TwiceAt(views, free, q, i)
      {
        OwnersAt(views, free, q, i);
        OwnerTurn(q, views[i], At(views, free, q, i), i);
      }
      AllThrown(views, free);
      NothingThrown(views, free, 3, |views|);
    }
  }

  /** The ledger of whole runs of iBalloon, while the guests keep off the edges. */
  lemma {:induction false} IBalloonRunConserves(hosts: seq<Host>, plans: seq<Plan>, n: nat)
    requires Trace(hosts, plans) && SafeRun(plans) && n <= |plans| && hosts[0].free >= 0.0
    requires forall k :: 0 <= k < n ==> plans[k] == FourPasses(plans[k].views) && NoneOnEdge(plans[k].views)
    ensures hosts[n].free >= 0.0
    ensures AnswerableUpTo(plans, n) ==>
              var c := Controls(hosts, plans, n); var loss := Budget(hosts[0]) - Budget(hosts[n]);
              0.0 <= loss && if c == 0 then loss == 0.0 else loss < c as real
  {
    SafeRunConserves(hosts, plans, n);
    forall k | 0 <= k < n
      ensures plans[k].Valid() && ReplacesNothing(plans[k])
    {
      FourPassesConserve(plans[k].views);
    }
    NothingWasted(hosts, plans, n);
  }

  // ----- on the edges -----

  /** The size the first pass on either edge goes for, and the one grow_warn goes for. */
  function FirstSize(v: View, used: real, percent: real): real {
    ClampUp(v, if percent <= 0.3 then used / 0.5 else used / 0.7)
  }

  function SecondSize(v: View, used: real): real {
    NotBelowCur(v, used / 0.7)
  }

  ghost predicate Ordinary(v: View) {
    InBounds(v) && 0 <= v.cur
  }

  ghost predicate AllOrdinary(views: seq<View>) {
    forall j :: 0 <= j < |views| ==> Ordinary(views[j])
  }

  /** A guest on an edge that grow_warn would grow. */
  ghost predicate GrowsTwice(v: View) {
    OnEdge(v) && SecondSize(v, Used(v).value) > v.cur as real
  }

  lemma {:induction false} EarlyPassSets(q: nat, v: View, free: real)
    requires q < 2
    ensures var d := Decide8(PassAt(q), v, free);
            d.Sets? ==>
              && UsedPercent(v).Some? && d.target == FirstSize(v, Used(v).value, UsedPercent(v).value)
              && if q == 0 then UsedPercent(v).value <= 0.3 else UsedPercent(v).value >= 0.9
  {
  }

  lemma {:induction false} GrowWarnSets(v: View, free: real)
    ensures var d := Decide8(GrowWarn, v, free);
            d.Sets? ==>
              && UsedPercent(v).Some? && 0.3 <= UsedPercent(v).value <= 0.9
              && SecondSize(v, Used(v).value) > v.cur as real
  {
  }

  /** On an edge a second growth comes after a first one that is a growth too. */
  lemma {:induction false} FirstGrowth(v: View)
    requires Ordinary(v) && GrowsTwice(v)
    ensures FirstSize(v, Used(v).value, UsedPercent(v).value) > v.cur as real
  {
  }

  /** After q of the first two passes over the guest: a target that stands is what they go for. */
  ghost predicate EarlyTarget(v: View, target: Option<real>, q: nat) {
    target.Some? ==>
      && UsedPercent(v).Some? && target.value == FirstSize(v, Used(v).value, UsedPercent(v).value)
      && ((q > 0 && UsedPercent(v).value <= 0.3) || (q > 1 && UsedPercent(v).value >= 0.9))
  }

  /** Before guest i's turn in pass q; nothing is said of guests that grow_warn has come to. */
  ghost predicate EarlyTargets(views: seq<View>, targets: Targets, q: nat, i: nat) {
    && |targets| == |views|
    && (forall j :: i <= j < |views| ==> EarlyTarget(views[j], targets[j], q))
    && (q < 2 ==> forall j :: 0 <= j < i <= |views| ==> EarlyTarget(views[j], targets[j], q + 1))
  }

  lemma {:induction false} EarlyTurn(q: nat, v: View, s: Progress, i: nat)
    requires q < 2 && i < |s.targets| && EarlyTarget(v, s.targets[i], q)
    ensures EarlyTarget(v, TakePass(q, i, v, s).targets[i], q + 1)
  {
    EarlyPassSets(q, v, s.free);
  }

  lemma {:induction false} EarlyAt(views: seq<View>, free: real, q: nat, i: nat)
    requires q <= 2 && i <= |views|
    ensures EarlyTargets(views, At(views, free, q, i).targets, q, i)
    decreases q, i
  {
    if i > 0 {
      EarlyAt(views, free, q, i - 1);
      EarlyTake(views, At(views, free, q, i - 1), q, i - 1);
    } else if q > 0 {
      EarlyAt(views, free, q - 1, |views|);
    }
  }

  lemma {:induction false} EarlyTake(views: seq<View>, s: Progress, q: nat, i: nat)
    requires q <= 2 && i < |views| && EarlyTargets(views, s.targets, q, i)
    ensures EarlyTargets(views, TakePass(q, i, views[i], s).targets, q, i + 1)
  {
    if q < 2 { EarlyTurn(q, views[i], s, i); }
  }

  /** A guest is charged twice only in pass grow_warn and on an edge, and then a growth is thrown away. */
  lemma {:induction false} OnlyGrowthThrown(q: nat, v: View, s: Progress, i: nat)
    requires Ordinary(v) && q < 4 && i < |s.targets| && (q <= 2 ==> EarlyTarget(v, s.targets[i], q))
    ensures Twice(q, i, v, s) ==> q == 2 && GrowsTwice(v) && ThrownBy(q, i, v, s) > 0.0
  {
    if q < 2 {
      EarlyPassSets(q, v, s.free);
    } else if q == 2 {
      GrowWarnSets(v, s.free);
      if GrowsTwice(v) { FirstGrowth(v); }
    } else {
      ShrinkWarnNeverSets(v, s.free);
    }
  }

  lemma {:induction false} OnlyGrowthThrownAt(views: seq<View>, free: real, q: nat, i: nat)
    requires AllOrdinary(views) && q < 4 && i < |views|
    ensures TwiceAt(views, free, q, i) ==>
              GrowsTwice(views[i]) && ThrownBy(q, i, views[i], At(views, free, q, i)) > 0.0
  {
    if q <= 2 { EarlyAt(views, free, q, i); }
    assert Ordinary(views[i]);
    OnlyGrowthThrown(q, views[i], At(views, free, q, i), i);
  }

  lemma {:induction false} ThrownNotNegative(views: seq<View>, free: real, q: nat, i: nat)
    requires AllOrdinary(views) && q < 4 && i <= |views|
    ensures Thrown(views, free, q, i) >= 0.0
    decreases q, i
  {
    if i > 0 {
      ThrownNotNegative(views, free, q, i - 1);
      OnlyGrowthThrownAt(views, free, q, i - 1);
    } else if q > 0 {
      ThrownNotNegative(views, free, q - 1, |views|);
    }
  }

  /** What is thrown away adds up. */
  lemma {:induction false} ThrownGrows(views: seq<View>, free: real, q: nat, i: nat, r: nat, k: nat)
    requires AllOrdinary(views) && i <= |views| && k <= |views| && (q < r < 4 || (q == r < 4 && i <= k))
    ensures Thrown(views, free, q, i) <= Thrown(views, free, r, k)
    decreases r, k
  {
    if q == r && i == k {
    } else if k > 0 {
      ThrownGrows(views, free, q, i, r, k - 1);
      TurnThrows(views, free, r, k - 1);
    } else {
      ThrownGrows(views, free, q, i, r - 1, |views|);
    }
  }

  lemma {:induction false} TurnThrows(views: seq<View>, free: real, q: nat, i: nat)
    requires AllOrdinary(views) && q < 4 && i < |views|
    ensures Thrown(views, free, q, i + 1) >= Thrown(views, free, q, i)
    ensures TwiceAt(views, free, q, i) ==> Thrown(views, free, q, i + 1) > Thrown(views, free, q, i)
  {
    OnlyGrowthThrownAt(views, free, q, i);
  }

  lemma {:induction false} SomethingThrown(views: seq<View>, free: real, q: nat, i: nat)
    requires AllOrdinary(views) && q < 4 && i < |views| && TwiceAt(views, free, q, i)
    ensures Thrown(views, free, 3, |views|) > 0.0
  {
    ThrownNotNegative(views, free, q, i);
    TurnThrows(views, free, q, i);
    ThrownGrows(views, free, q, i + 1, 3, |views|);
  }

  /** The free number is the starting one less what the standing targets take. */
  ghost predicate Agrees(views: seq<View>, free: real) {
    FourPasses(views).Valid() &&
    var s := Evaluate(FourPasses(views), free);
    s.free == free - Demand(Sizes(views), s.targets)
  }

  /** Over any number of guests, on edges or not, the free number agrees with the targets in the
      end if and only if nobody was charged twice; otherwise too much was debited. */
  lemma {:induction false} AgreesIffNobodyChargedTwice(views: seq<View>, free: real)
    requires AllOrdinary(views)
    ensures FourPasses(views).Valid() && (Agrees(views, free) <==> NobodyChargedTwice(views, free))
    ensures var s := Evaluate(FourPasses(views), free); s.free <= free - Demand(Sizes(views), s.targets)
  {
    AllThrown(views, free);
    EvaluationDebits(FourPasses(views), free, |FourPasses(views).turns|);
    ThrownNotNegative(views, free, 3, |views|);
    if q: nat, i: nat :| q < 4 && i < |views| && TwiceAt(views, free, q, i) {
      SomethingThrown(views, free, q, i);
    } else {
      NothingThrown(views, free, 3, |views|);
    }
  }

  // ----- seen before the first call, on a host that can pay -----

  /** What a pass would take for a guest, at most. */
  function Want(q: nat, v: View): real {
    match Used(v)
    case None => 0.0
    case Some(used) =>
      var size := if q == 0 then ClampUp(v, used / 0.5)
                  else if q == 1 then ClampUp(v, used / 0.7) else SecondSize(v, used);
      Max(0.0, size - v.cur as real)
  }

  /** What guests from i on may want in pass q. */
  function Wants(views: seq<View>, q: nat, i: nat): real
    requires i <= |views|
    decreases |views| - i
  {
    if i == |views| then 0.0 else Want(q, views[i]) + Wants(views, q, i + 1)
  }

  function Appetite(views: seq<View>): real {
    Wants(views, 0, 0) + Wants(views, 1, 0) + Wants(views, 2, 0)
  }

  /** What may still be wanted before guest i's turn in pass q. */
  function Ahead(views: seq<View>, q: nat, i: nat): real
    requires q <= 2 && i <= |views|
  {
    Wants(views, q, i) + (if q < 1 then Wants(views, 1, 0) else 0.0) + if q < 2 then Wants(views, 2, 0) else 0.0
  }

  lemma {:induction false} WantsNotNegative(views: seq<View>, q: nat, i: nat)
    requires i <= |views|
    ensures Wants(views, q, i) >= 0.0
    decreases |views| - i
  {
    if i < |views| { WantsNotNegative(views, q, i + 1); }
  }

  lemma {:induction false} TakesNoMore(q: nat, i: nat, v: View, s: Progress)
    requires q <= 2 && i < |s.targets| && v.cur <= v.max
    ensures TakePass(q, i, v, s).free >= s.free - Want(q, v)
  {
  }

  lemma {:induction false} StaysRich(views: seq<View>, free: real, q: nat, i: nat)
    requires AllOrdinary(views) && q <= 2 && i <= |views| && free > Appetite(views)
    ensures At(views, free, q, i).free > Ahead(views, q, i)
    decreases q, i
  {
    if i > 0 {
      StaysRich(views, free, q, i - 1);
      assert Ordinary(views[i - 1]);
      TakesNoMore(q, i - 1, views[i - 1], At(views, free, q, i - 1));
    } else if q > 0 {
      StaysRich(views, free, q - 1, |views|);
    }
  }

  /** Rich enough for the wish, a pass grants it. */
  lemma {:induction false} FirstGranted(q: nat, i: nat, v: View, s: Progress)
    requires q < 2 && Ordinary(v) && OnEdge(v) && (q == 0 <==> UsedPercent(v) == Some(0.3)) && i < |s.targets|
    ensures s.ok && s.free > Want(q, v) ==> TakePass(q, i, v, s).targets[i].Some?
  {
  }

  lemma {:induction false} SecondGranted(v: View, free: real)
    requires GrowsTwice(v)
    ensures free > Want(2, v) ==> Decide8(GrowWarn, v, free).Sets?
  {
  }

  lemma {:induction false} RichAt(views: seq<View>, free: real, q: nat, i: nat)
    requires AllOrdinary(views) && q <= 2 && i < |views| && free > Appetite(views)
    ensures At(views, free, q, i).free > Want(q, views[i])
  {
    StaysRich(views, free, q, i);
    WantsNotNegative(views, q, i + 1);
    WantsNotNegative(views, 1, 0);
    WantsNotNegative(views, 2, 0);
  }

  /** A target, once set, stands until it is replaced. */
  lemma {:induction false} TargetStands(views: seq<View>, free: real, j: nat, q: nat, i: nat, r: nat, k: nat)
    requires i <= |views| && k <= |views| && j < |views| && (q < r || (q == r && i <= k))
    requires At(views, free, q, i).targets[j].Some?
    ensures At(views, free, r, k).targets[j].Some?
    decreases r, k
  {
    if q < r || i < k {
      if k > 0 {
        TargetStands(views, free, j, q, i, r, k - 1);
      } else if q == r - 1 && i == |views| {
      } else {
        TargetStands(views, free, j, q, i, r - 1, |views|);
      }
    }
  }

  /** A rich host pays the first growth of an edge guest, and then the second one too. */
  lemma {:induction false} RichHostPaysTwice(views: seq<View>, free: real, i: nat)
    requires AllOrdinary(views) && free > Appetite(views) && i < |views| && GrowsTwice(views[i])
    requires FractionsUpTo(views, |views|)
    ensures TwiceAt(views, free, 2, i)
  {
    var q: nat := if UsedPercent(views[i]) == Some(0.3) then 0 else 1;
    FirstPaid(views, free, i, q);
    TargetStands(views, free, i, q, i + 1, 2, i);
    SecondPaid(views, free, i);
  }

  lemma {:induction false} SecondPaid(views: seq<View>, free: real, i: nat)
    requires AllOrdinary(views) && free > Appetite(views) && i < |views| && GrowsTwice(views[i])
    requires FractionsUpTo(views, |views|) && At(views, free, 2, i).targets[i].Some?
    ensures TwiceAt(views, free, 2, i)
  {
    RichAt(views, free, 2, i);
    OkIff(views, free, 2, i);
    SecondGranted(views[i], At(views, free, 2, i).free);
  }

  lemma {:induction false} FirstPaid(views: seq<View>, free: real, i: nat, q: nat)
    requires AllOrdinary(views) && free > Appetite(views) && i < |views| && OnEdge(views[i])
    requires FractionsUpTo(views, |views|) && q < 2 && (q == 0 <==> UsedPercent(views[i]) == Some(0.3))
    ensures At(views, free, q, i + 1).targets[i].Some?
  {
    assert Ordinary(views[i]);
    RichAt(views, free, q, i);
    OkIff(views, free, q, i);
    FirstGranted(q, i, views[i], At(views, free, q, i));
  }

  /** If some guest has no used fraction, the first pass fails, and charges nobody twice. */
  lemma {:induction false} FailedPassThrowsNothing(views: seq<View>, free: real)
    requires !FractionsUpTo(views, |views|)
    ensures NobodyChargedTwice(views, free)
  {
    forall q: nat, i: nat | q < 4 && i < |views|
      ensures !TwiceAt(views, free, q, i)
    {
      if q == 0 { EarlyAt(views, free, q, i); } else { OkIff(views, free, q, i); }
    }
  }

  /** Some guest has no used fraction, or no guest on an edge would grow in grow_warn. */
  ghost predicate ChargedOnceAtMost(views: seq<View>) {
    || (exists i :: 0 <= i < |views| && NoFraction(views[i]))
    || (forall i :: 0 <= i < |views| ==> !GrowsTwice(views[i]))
  }

  lemma {:induction false} NeverChargedTwice(views: seq<View>, free: real)
    requires AllOrdinary(views) && ChargedOnceAtMost(views)
    ensures NobodyChargedTwice(views, free)
  {
    if !FractionsUpTo(views, |views|) {
      FailedPassThrowsNothing(views, free);
    } else {
      forall q: nat, i: nat | q < 4 && i < |views|
        ensures !TwiceAt(views, free, q, i)
      {
        OnlyGrowthThrownAt(views, free, q, i);
      }
    }
  }

  /** On a host that can pay for everything, that decides whether the ledger agrees in the end. */
  lemma {:induction false} RichHostAgreesIff(views: seq<View>, free: real)
    requires AllOrdinary(views) && free > Appetite(views)
    ensures Agrees(views, free) <==> ChargedOnceAtMost(views)
  {
    AgreesIffNobodyChargedTwice(views, free);
    if ChargedOnceAtMost(views) {
      NeverChargedTwice(views, free);
    } else {
      var i :| 0 <= i < |views| && GrowsTwice(views[i]);
      RichHostPaysTwice(views, free, i);
    }
  }

  /** And it decides whether the ledger agrees in the end on every host, however poor. */
  lemma {:induction false} AgreesOnEveryHostIff(views: seq<View>)
    requires AllOrdinary(views)
    ensures (forall free :: Agrees(views, free)) <==> ChargedOnceAtMost(views)
  {
    RichHostAgreesIff(views, Appetite(views) + 1.0);
    forall free | ChargedOnceAtMost(views)
      ensures Agrees(views, free)
    {
      AgreesIffNobodyChargedTwice(views, free);
      NeverChargedTwice(views, free);
    }
  }

  /** A guest using nine tenths, and a host that can pay twice: it does. */
  lemma {:induction false} NineTenthsChargedTwice()
    ensures var v := OneSampleView(7000, 1000, 10000, 700);
            && UsedPercent(v) == Some(0.9) && FourPasses([v]).Valid()
            && Evaluate(FourPasses([v]), 10000.0) == Progress(6000.0, [Some(9000.0)], true)
  {
    var v := OneSampleView(7000, 1000, 10000, 700);
    OneSampleUsed(7000, 1000, 10000, 700);
    LastState([v], 10000.0);
    OneGuestPass(v, 10000.0, 0, Progress(10000.0, [None], true), Keeps);
    OneGuestPass(v, 10000.0, 1, Progress(10000.0, [None], true), Sets(9000.0, 8000.0));
    OneGuestPass(v, 10000.0, 2, Progress(8000.0, [Some(9000.0)], true), Sets(9000.0, 6000.0));
    OneGuestPass(v, 10000.0, 3, Progress(6000.0, [Some(9000.0)], true), Keeps);
  }

  lemma {:induction false} OneGuestPass(v: View, free: real, q: nat, s: Progress, d: Decision)
    requires |s.targets| == 1 && s.ok && At([v], free, q, 0) == s
    requires Decide8(PassAt(q), v, s.free) == d && !d.Fails?
    ensures var s' := At([v], free, q, 1);
            s' == (if d.Sets? then Progress(d.free, [Some(d.target)], true) else s) && At([v], free, q + 1, 0) == s'
  {
  }
}
