/** Whole runs: rounds of policy calls on many guests, sharing one host-free number,
    each followed by the controller unless the evaluation failed. */
module Ledger {
  import opened Options
  import opened Policies
  import opened Bounds

  /** The free number and the balloon sizes the hypervisor has been given. */
  datatype Host = Host(free: real, sizes: seq<int>)

  /** One policy call on one of the guests. */
  datatype Turn = Turn(guest: nat, call: Call)

  /** What one evaluation works on: a snapshot of every guest, and the calls the rules make. */
  datatype Plan = Plan(views: seq<View>, turns: seq<Turn>) {
    ghost predicate Valid() {
      forall k :: 0 <= k < |turns| ==> turns[k].guest < |views|
    }
  }

  type Targets = seq<Option<real>>

  /** How far an evaluation has come: the free number, the targets that stand, and whether no call failed. */
  datatype Progress = Progress(free: real, targets: Targets, ok: bool)

  // ----- one round -----

  function NoTargets(n: nat): Targets {
    seq(n, _ => None)
  }

  /** One call. A later target replaces an earlier one; the free number is debited every time. */
  function Take(t: Turn, v: View, s: Progress): (s': Progress)
    requires t.guest < |s.targets|
    ensures |s'.targets| == |s.targets|
  {
    match Decide(t.call, v, s.free)
    case Fails => s.(ok := false)
    case Keeps => s
    case Sets(target, free) => Progress(free, s.targets[t.guest := Some(target)], s.ok)
  }

  /** After the first n calls; a failing call stops the evaluation there. */
  function StateAfter(p: Plan, free: real, n: nat): (s: Progress)
    requires p.Valid() && n <= |p.turns|
    ensures |s.targets| == |p.views|
  {
    if n == 0 then Progress(free, NoTargets(|p.views|), true)
    else
      var s := StateAfter(p, free, n - 1);
      var t := p.turns[n - 1];
      if s.ok then Take(t, p.views[t.guest], s) else s
  }

  function Evaluate(p: Plan, free: real): (s: Progress)
    requires p.Valid()
    ensures |s.targets| == |p.views|
  {
    StateAfter(p, free, |p.turns|)
  }

  /** The same, from the first call on. */
  function StateFrom(views: seq<View>, turns: seq<Turn>, s: Progress): (s': Progress)
    requires |s.targets| == |views| && Plan(views, turns).Valid()
    ensures |s'.targets| == |views|
  {
    if turns == [] || !s.ok then s
    else
      assert turns[0].guest < |views|;
      assert forall k :: 0 <= k < |turns[1..]| ==> turns[1..][k] == turns[k + 1];
      StateFrom(views, turns[1..], Take(turns[0], views[turns[0].guest], s))
  }

  lemma {:induction false} StateFromJoins(views: seq<View>, a: seq<Turn>, b: seq<Turn>, s: Progress)
    requires |s.targets| == |views| && Plan(views, a).Valid() && Plan(views, b).Valid()
    ensures Plan(views, a + b).Valid()
    ensures StateFrom(views, a + b, s) == StateFrom(views, b, StateFrom(views, a, s))
  {
    if a == [] {
      assert a + b == b;
    } else if s.ok {
      assert (a + b)[1..] == a[1..] + b && (a + b)[0] == a[0];
      assert forall k :: 0 <= k < |a[1..]| ==> a[1..][k] == a[k + 1];
      StateFromJoins(views, a[1..], b, Take(a[0], views[a[0].guest], s));
    }
  }

  lemma {:induction false} StateFromStops(views: seq<View>, turns: seq<Turn>, s: Progress)
    requires |s.targets| == |views| && Plan(views, turns).Valid() && !s.ok
    ensures StateFrom(views, turns, s) == s
  {
  }

  lemma {:induction false} StateFromIsStateAfter(p: Plan, free: real, n: nat)
    requires p.Valid() && n <= |p.turns|
    ensures Plan(p.views, p.turns[..n]).Valid()
    ensures StateFrom(p.views, p.turns[..n], Progress(free, NoTargets(|p.views|), true)) == StateAfter(p, free, n)
  {
    if n > 0 {
      StateFromIsStateAfter(p, free, n - 1);
      var t := p.turns[n - 1];
      assert p.turns[..n] == p.turns[..n - 1] + [t];
      StateFromJoins(p.views, p.turns[..n - 1], [t], Progress(free, NoTargets(|p.views|), true));
    }
  }

  /** The controller: every target that was set is truncated and applied. */
  function ApplyTargets(sizes: seq<int>, targets: Targets): (sizes': seq<int>)
    requires |sizes| == |targets|
    ensures |sizes'| == |sizes|
  {
    seq(|sizes|, i requires 0 <= i < |sizes| => if targets[i].Some? then Trunc(targets[i].value) else sizes[i])
  }

  /** do_controls */
  function Round(h: Host, p: Plan): Host
    requires p.Valid() && |p.views| == |h.sizes|
  {
    var s := Evaluate(p, h.free);
    Host(s.free, if s.ok then ApplyTargets(h.sizes, s.targets) else h.sizes)
  }

  function Sizes(views: seq<View>): (xs: seq<int>)
    ensures |xs| == |views|
  {
    seq(|views|, i requires 0 <= i < |views| => views[i].cur)
  }

  /** Every snapshot shows the size that was applied last. */
  ghost predicate Current(h: Host, p: Plan) {
    p.Valid() && h.sizes == Sizes(p.views)
  }

  // ----- sums -----

  function Total(xs: seq<int>): int {
    if xs == [] then 0 else xs[0] + Total(xs[1..])
  }

  function Budget(h: Host): real {
    h.free + Total(h.sizes) as real
  }

  /** What the targets take from the host. */
  function Demand(sizes: seq<int>, targets: Targets): real
    requires |sizes| == |targets|
  {
    if sizes == [] then 0.0
    else (if targets[0].Some? then targets[0].value - sizes[0] as real else 0.0) + Demand(sizes[1..], targets[1..])
  }

  /** What truncation loses. */
  function Leak(targets: Targets): real {
    if targets == [] then 0.0
    else (if targets[0].Some? then targets[0].value - Trunc(targets[0].value) as real else 0.0) + Leak(targets[1..])
  }

  function Count(targets: Targets): nat {
    if targets == [] then 0 else (if targets[0].Some? then 1 else 0) + Count(targets[1..])
  }

  /** The guests whose targets are counted. */
  lemma {:induction false} CountIs(targets: Targets) returns (ks: seq<nat>)
    ensures |ks| == Count(targets)
    ensures forall i, j :: 0 <= i < j < |ks| ==> ks[i] < ks[j]
    ensures forall k: nat :: k in ks <==> k < |targets| && targets[k].Some?
  {
    ks := [];
    if targets != [] {
      var later := CountIs(targets[1..]);
      ks := (if targets[0].Some? then [0] else []) + seq(|later|, i requires 0 <= i < |later| => later[i] + 1);
      forall k: nat | k < |targets| && targets[k].Some?
        ensures k in ks
      {
        if k > 0 {
          var i :| 0 <= i < |later| && later[i] == k - 1;
          assert ks[if targets[0].Some? then i + 1 else i] == k;
        } else {
          assert ks[0] == 0;
        }
      }
      forall k: nat | k in ks
        ensures k < |targets| && targets[k].Some?
      {
        if k > 0 { assert k - 1 in later; }
      }
    }
  }

  lemma {:induction false} NothingDemanded(sizes: seq<int>)
    ensures Demand(sizes, NoTargets(|sizes|)) == 0.0
  {
    if sizes != [] {
      assert NoTargets(|sizes|)[1..] == NoTargets(|sizes[1..]|);
      NothingDemanded(sizes[1..]);
    }
  }

  lemma {:induction false} DemandOfUpdate(sizes: seq<int>, targets: Targets, i: nat, t: real)
    requires i < |sizes| == |targets|
    ensures Demand(sizes, targets[i := Some(t)]) ==
            Demand(sizes, targets) + t - (if targets[i].Some? then targets[i].value else sizes[i] as real)
  {
    var targets' := targets[i := Some(t)];
    if i == 0 {
      assert targets'[1..] == targets[1..];
    } else {
      assert targets'[1..] == targets[1..][i - 1 := Some(t)];
      DemandOfUpdate(sizes[1..], targets[1..], i - 1, t);
    }
  }

  // ----- what an evaluation debits -----

  /** The call sets a target for a guest that has one already. */
  predicate Overwrites(t: Turn, v: View, s: Progress)
    requires t.guest < |s.targets|
  {
    s.ok && s.targets[t.guest].Some? && Decide(t.call, v, s.free).Sets?
  }

  /** The growth, already paid for, that the call throws away. */
  function Replaces(t: Turn, v: View, s: Progress): real
    requires t.guest < |s.targets|
  {
    if Overwrites(t, v, s) then s.targets[t.guest].value - v.cur as real else 0.0
  }

  /** The growths thrown away by the first n calls. */
  function Replaced(p: Plan, free: real, n: nat): real
    requires p.Valid() && n <= |p.turns|
  {
    if n == 0 then 0.0
    else
      var t := p.turns[n - 1];
      Replaced(p, free, n - 1) + Replaces(t, p.views[t.guest], StateAfter(p, free, n - 1))
  }

  /** One call debits what it adds to the demand, and what it throws away. */
  lemma {:induction false} TakeDebits(t: Turn, views: seq<View>, s: Progress)
    requires t.guest < |views| == |s.targets| && s.ok
    ensures var v := views[t.guest]; var s' := Take(t, v, s);
            s'.free + Demand(Sizes(views), s'.targets) == s.free + Demand(Sizes(views), s.targets) - Replaces(t, v, s)
  {
    var v := views[t.guest];
    TargetIsCharged(t.call, v, s.free);
    var d := Decide(t.call, v, s.free);
    if d.Sets? { DemandOfUpdate(Sizes(views), s.targets, t.guest, d.target); }
  }

  /** After any number of calls, failing or not, the free number is the first one less exactly what
      the standing targets take and what replaced targets had taken. */
  lemma {:induction false} EvaluationDebits(p: Plan, free: real, n: nat)
    requires p.Valid() && n <= |p.turns|
    ensures var s := StateAfter(p, free, n);
            s.free == free - Demand(Sizes(p.views), s.targets) - Replaced(p, free, n)
  {
    if n == 0 {
      NothingDemanded(Sizes(p.views));
    } else {
      EvaluationDebits(p, free, n - 1);
      var s := StateAfter(p, free, n - 1);
      if s.ok { TakeDebits(p.turns[n - 1], p.views, s); }
    }
  }

  /** No call sets a guest's target twice, whatever the host has. */
  ghost predicate ReplacesNothing(p: Plan)
    requires p.Valid()
  {
    forall free :: Replaced(p, free, |p.turns|) == 0.0
  }

  /** One call for each guest at most. */
  ghost predicate OnceEach(p: Plan) {
    forall j, k :: 0 <= j < k < |p.turns| ==> p.turns[j].guest != p.turns[k].guest
  }

  lemma {:induction false} OnceEachReplacesNothing(p: Plan)
    requires p.Valid() && OnceEach(p)
    ensures ReplacesNothing(p)
  {
    forall free
      ensures Replaced(p, free, |p.turns|) == 0.0
    {
      NothingReplacedUpTo(p, free, |p.turns|);
    }
  }

  lemma {:induction false} NothingReplacedUpTo(p: Plan, free: real, n: nat)
    requires p.Valid() && OnceEach(p) && n <= |p.turns|
    ensures Replaced(p, free, n) == 0.0
    ensures forall k :: n <= k < |p.turns| ==> StateAfter(p, free, n).targets[p.turns[k].guest].None?
  {
    if n > 0 { NothingReplacedUpTo(p, free, n - 1); }
  }

  lemma {:induction false} ApplyingMoves(sizes: seq<int>, targets: Targets)
    requires |sizes| == |targets|
    ensures Total(ApplyTargets(sizes, targets)) as real == Total(sizes) as real + Demand(sizes, targets) - Leak(targets)
  {
    if sizes != [] {
      assert ApplyTargets(sizes, targets)[1..] == ApplyTargets(sizes[1..], targets[1..]);
      ApplyingMoves(sizes[1..], targets[1..]);
    }
  }

  /** The budget lost in one round: what was replaced; and the truncations, or everything else that
      was debited if the evaluation failed. */
  function RoundLoss(h: Host, p: Plan): real
    requires p.Valid() && |p.views| == |h.sizes|
  {
    var s := Evaluate(p, h.free);
    Replaced(p, h.free, |p.turns|) + if s.ok then Leak(s.targets) else Demand(h.sizes, s.targets)
  }

  lemma {:induction false} RoundBudget(h: Host, p: Plan)
    requires Current(h, p)
    ensures Budget(Round(h, p)) == Budget(h) - RoundLoss(h, p)
  {
    EvaluationDebits(p, h.free, |p.turns|);
    ApplyingMoves(h.sizes, Evaluate(p, h.free).targets);
  }

  // ----- which evaluations fail -----

  /** There is no used fraction: no sample, or an average size of 0. */
  predicate NoFraction(v: View) {
    v.rows == [] || AvgCur(v) == Some(0.0)
  }

  /** The calls that fail, seen from the snapshot alone. */
  predicate Unanswerable(c: Call, v: View) {
    match c
    case Policy1(pressure) => v.rows == [] && (pressure < 100.0 || v.cur < v.max)
    case Policy2(pressure) => v.rows == [] && (pressure < 100.0 || v.cur < v.max)
    case Policy3(_) => false
    case Policy5 => v.rows == []
    case Ref(p) =>
      || NoFraction(v)
      || (p.shrink == 0.0 && UsedPercent(v).value < p.shrinkThreshold)
      || (p.grow == 0.0 && p.shrinkThreshold <= UsedPercent(v).value && UsedPercent(v).value > p.growThreshold)
    case _ => NoFraction(v)
  }

  lemma {:induction false} FailsIffUnanswerable(c: Call, v: View, free: real)
    ensures Decide(c, v, free).Fails? <==> Unanswerable(c, v)
  {
    if c.Ref? { RefFailsIff(c, v, free); }
  }

  lemma {:induction false} RefFailsIff(c: Call, v: View, free: real)
    requires c.Ref?
    ensures Decide(c, v, free).Fails? <==> Unanswerable(c, v)
  {
  }

  lemma {:induction false} TakeFailsIff(t: Turn, v: View, s: Progress)
    requires t.guest < |s.targets|
    ensures Take(t, v, s).ok <==> s.ok && !Unanswerable(t.call, v)
  {
    FailsIffUnanswerable(t.call, v, s.free);
  }

  predicate AnswerableAt(p: Plan, k: nat)
    requires p.Valid() && k < |p.turns|
  {
    !Unanswerable(p.turns[k].call, p.views[p.turns[k].guest])
  }

  predicate Answerable(p: Plan)
    requires p.Valid()
  {
    forall k :: 0 <= k < |p.turns| ==> AnswerableAt(p, k)
  }

  /** An evaluation succeeds if and only if every call finds the samples it needs; the free number
      has no part in it. */
  lemma {:induction false} SucceedsIffAnswerable(p: Plan, free: real, n: nat)
    requires p.Valid() && n <= |p.turns|
    ensures StateAfter(p, free, n).ok <==> forall k :: 0 <= k < n ==> AnswerableAt(p, k)
  {
    if n > 0 {
      SucceedsIffAnswerable(p, free, n - 1);
      var t := p.turns[n - 1];
      TakeFailsIff(t, p.views[t.guest], StateAfter(p, free, n - 1));
      assert AnswerableAt(p, n - 1) <==> !Unanswerable(t.call, p.views[t.guest]);
    }
  }

  /** The first call that cannot be answered. */
  ghost predicate FirstFailure(p: Plan, f: nat)
    requires p.Valid()
  {
    f < |p.turns| && !AnswerableAt(p, f) && forall k :: 0 <= k < f ==> AnswerableAt(p, k)
  }

  lemma {:induction false} StoppedAt(p: Plan, free: real, f: nat, n: nat)
    requires p.Valid() && FirstFailure(p, f) && f < n <= |p.turns|
    ensures StateAfter(p, free, n) == StateAfter(p, free, f).(ok := false)
  {
    if n > f + 1 {
      StoppedAt(p, free, f, n - 1);
    } else {
      SucceedsIffAnswerable(p, free, f);
      var t := p.turns[f];
      FailsIffUnanswerable(t.call, p.views[t.guest], StateAfter(p, free, f).free);
    }
  }

  /** A round applies its targets if and only if every call can be answered. Otherwise the sizes stay,
      the calls before the first unanswerable one are paid for all the same, and the budget survives
      if and only if those calls by themselves leave the free number as it was. */
  lemma {:induction false} FailureLosesDebits(h: Host, p: Plan)
    requires Current(h, p)
    ensures Evaluate(p, h.free).ok <==> Answerable(p)
    ensures forall f :: FirstFailure(p, f) ==>
              var paid := StateAfter(p, h.free, f).free;
              Round(h, p) == Host(paid, h.sizes) && (Budget(Round(h, p)) == Budget(h) <==> paid == h.free)
    ensures Answerable(p) || exists f :: FirstFailure(p, f)
  {
    SucceedsIffAnswerable(p, h.free, |p.turns|);
    forall f | FirstFailure(p, f)
      ensures Evaluate(p, h.free) == StateAfter(p, h.free, f).(ok := false)
    {
      StoppedAt(p, h.free, f, |p.turns|);
    }
    if !Answerable(p) { var f := LeastFailure(p, |p.turns|); }
  }

  lemma {:induction false} LeastFailure(p: Plan, n: nat) returns (f: nat)
    requires p.Valid() && n <= |p.turns| && exists k :: 0 <= k < n && !AnswerableAt(p, k)
    ensures FirstFailure(p, f)
  {
    f := n - 1;
    if exists k :: 0 <= k < n - 1 && !AnswerableAt(p, k) { f := LeastFailure(p, n - 1); }
  }

  /** Two guests: the first is granted 5 bytes, the second has samples without values. The round
      fails, and the 5 bytes are gone. */
  lemma {:induction false} FailureLosesFive()
    ensures var v := View(100, 50, 200, [Sample(None, None)]);
            var h := Host(1000.0, [100, 100]);
            var p := Plan([v, v], [Turn(0, Policy3(100.0)), Turn(1, Policy4)]);
            && Current(h, p) && FirstFailure(p, 1)
            && Round(h, p) == Host(995.0, [100, 100]) && Budget(Round(h, p)) == Budget(h) - 5.0
  {
    var rows := [Sample(None, None)];
    var v := View(100, 50, 200, rows);
    var h := Host(1000.0, [100, 100]);
    var p := Plan([v, v], [Turn(0, Policy3(100.0)), Turn(1, Policy4)]);
    var vals: seq<Option<int>> := [None];
    assert Curs(rows) == vals && vals[1..] == [] && Present(vals) == [];
    assert AvgCur(v) == Some(0.0);
    assert AnswerableAt(p, 0) && !AnswerableAt(p, 1);
    assert Decide(Policy3(100.0), v, 1000.0) == Sets(105.0, 995.0);
    assert StateAfter(p, 1000.0, 0).ok && StateAfter(p, 1000.0, 1).free == 995.0;
    StoppedAt(p, 1000.0, 1, 2);
  }

  // ----- runs -----

  /** hosts[k] is the host after k rounds, each taken on current snapshots. */
  ghost predicate Trace(hosts: seq<Host>, plans: seq<Plan>) {
    && |hosts| == |plans| + 1
    && forall k :: 0 <= k < |plans| ==> Moves(hosts[k], plans[k], hosts[k + 1])
  }

  ghost predicate Moves(h: Host, p: Plan, h': Host) {
    Current(h, p) && h' == Round(h, p)
  }

  /** What every round of a run keeps holds after n plans, if it holds to begin with. */
  lemma {:induction false} Invariant(hosts: seq<Host>, plans: seq<Plan>, inv: Host -> bool, n: nat)
    requires |hosts| == |plans| + 1 && n <= |plans| && inv(hosts[0])
    requires forall k :: 0 <= k < |plans| && inv(hosts[k]) ==> inv(hosts[k + 1])
    ensures inv(hosts[n])
  {
    if n > 0 { Invariant(hosts, plans, inv, n - 1); }
  }

  /** Every call of the first n rounds finds the samples it needs. */
  ghost predicate AnswerableUpTo(plans: seq<Plan>, n: nat)
    requires n <= |plans|
  {
    forall k :: 0 <= k < n ==> plans[k].Valid() && Answerable(plans[k])
  }

  /** The budget lost in the first n rounds. */
  ghost function Loss(hosts: seq<Host>, plans: seq<Plan>, n: nat): real
    requires Trace(hosts, plans) && n <= |plans|
  {
    if n == 0 then 0.0
    else
      assert Moves(hosts[n - 1], plans[n - 1], hosts[n]);
      Loss(hosts, plans, n - 1) + RoundLoss(hosts[n - 1], plans[n - 1])
  }

  /** What a round pays for targets it replaces. */
  function RoundWaste(h: Host, p: Plan): real
    requires p.Valid()
  {
    Replaced(p, h.free, |p.turns|)
  }

  /** The number of controls a round applies. */
  function RoundControls(h: Host, p: Plan): nat
    requires p.Valid()
  {
    var s := Evaluate(p, h.free);
    if s.ok then Count(s.targets) else 0
  }

  function AddReals(xs: seq<real>): real {
    if xs == [] then 0.0 else AddReals(xs[..|xs| - 1]) + xs[|xs| - 1]
  }

  function AddNats(xs: seq<nat>): nat {
    if xs == [] then 0 else AddNats(xs[..|xs| - 1]) + xs[|xs| - 1]
  }

  /** The part of the budget that was paid for targets replaced within their round, in n rounds. */
  ghost function Wasted(hosts: seq<Host>, plans: seq<Plan>, n: nat): real
    requires Trace(hosts, plans) && n <= |plans|
  {
    AddReals(Wastes(hosts, plans, n))
  }

  ghost function Wastes(hosts: seq<Host>, plans: seq<Plan>, n: nat): (xs: seq<real>)
    requires Trace(hosts, plans) && n <= |plans|
    ensures |xs| == n
  {
    seq(n, k requires 0 <= k < n => assert Moves(hosts[k], plans[k], hosts[k + 1]); RoundWaste(hosts[k], plans[k]))
  }

  /** The number of controls applied in the first n rounds. */
  ghost function Controls(hosts: seq<Host>, plans: seq<Plan>, n: nat): nat
    requires Trace(hosts, plans) && n <= |plans|
  {
    AddNats(Applied(hosts, plans, n))
  }

  ghost function Applied(hosts: seq<Host>, plans: seq<Plan>, n: nat): (xs: seq<nat>)
    requires Trace(hosts, plans) && n <= |plans|
    ensures |xs| == n
  {
    seq(n, k requires 0 <= k < n => assert Moves(hosts[k], plans[k], hosts[k + 1]); RoundControls(hosts[k], plans[k]))
  }

  /** Any calls over any histories of samples make a run, once the snapshots are taken. */
  lemma {:induction false} EveryPlanRuns(h: Host, wishes: seq<Plan>) returns (hosts: seq<Host>, plans: seq<Plan>)
    requires forall k :: 0 <= k < |wishes| ==> wishes[k].Valid() && |wishes[k].views| == |h.sizes|
    ensures Trace(hosts, plans) && hosts[0] == h && |plans| == |wishes|
    ensures |hosts[|wishes|].sizes| == |h.sizes|
    ensures forall k :: 0 <= k < |wishes| ==> SamePlan(plans[k], wishes[k])
  {
    if wishes == [] {
      return [h], [];
    }
    var n := |wishes| - 1;
    hosts, plans := EveryPlanRuns(h, wishes[..n]);
    var p := Refreshed(hosts[n], wishes[n]);
    var hosts', plans' := hosts + [Round(hosts[n], p)], plans + [p];
    forall k | 0 <= k < |plans'|
      ensures Moves(hosts'[k], plans'[k], hosts'[k + 1])
    {
      if k < n { assert Moves(hosts[k], plans[k], hosts[k + 1]); }
    }
    return hosts', plans';
  }

  ghost predicate SamePlan(p: Plan, wish: Plan) {
    && p.turns == wish.turns && |p.views| == |wish.views|
    && forall i :: 0 <= i < |wish.views| ==> p.views[i] == wish.views[i].(cur := p.views[i].cur)
  }

  ghost function Refreshed(h: Host, wish: Plan): (p: Plan)
    requires wish.Valid() && |wish.views| == |h.sizes|
    ensures Current(h, p) && SamePlan(p, wish)
  {
    Plan(seq(|wish.views|, i requires 0 <= i < |wish.views| => wish.views[i].(cur := h.sizes[i])), wish.turns)
  }

  /** Exact conservation: over any run the budget changes by replaced growths, truncations of
      applied targets and the debits of failed evaluations, and by nothing else. */
  lemma {:induction false} BudgetOfRun(hosts: seq<Host>, plans: seq<Plan>, n: nat)
    requires Trace(hosts, plans) && n <= |plans|
    ensures Budget(hosts[n]) == Budget(hosts[0]) - Loss(hosts, plans, n)
  {
    if n > 0 {
      BudgetOfRun(hosts, plans, n - 1);
      assert Moves(hosts[n - 1], plans[n - 1], hosts[n]);
      RoundBudget(hosts[n - 1], plans[n - 1]);
    }
  }

  lemma {:induction false} LeakBetween(targets: Targets)
    ensures targets == [] || Count(targets) == 0 ==> Leak(targets) == 0.0
    ensures Count(targets) > 0 ==> -(Count(targets) as real) < Leak(targets) < Count(targets) as real
    ensures (forall i :: 0 <= i < |targets| && targets[i].Some? ==> targets[i].value >= 0.0) ==> Leak(targets) >= 0.0
  {
    if targets != [] { LeakBetween(targets[1..]); }
  }

  /** Less than c away from nothing, either way; and nothing at all if c is 0. */
  predicate Near(x: real, c: nat) {
    if c == 0 then x == 0.0 else -(c as real) < x < c as real
  }

  /** Rounds that each lose little lose little together. */
  lemma {:induction false} NearAddsUp(budgets: seq<real>, wastes: seq<real>, controls: seq<nat>)
    requires |budgets| == |wastes| + 1 == |controls| + 1
    requires forall k :: 0 <= k < |wastes| ==> Near(budgets[k] - budgets[k + 1] - wastes[k], controls[k])
    ensures Near(budgets[0] - budgets[|wastes|] - AddReals(wastes), AddNats(controls))
  {
    if wastes != [] {
      var n := |wastes| - 1;
      NearAddsUp(budgets[..n + 1], wastes[..n], controls[..n]);
      assert Near(budgets[n] - budgets[n + 1] - wastes[n], controls[n]);
    }
  }

  lemma {:induction false} NothingGivenAddsUp(budgets: seq<real>, wastes: seq<real>)
    requires |budgets| == |wastes| + 1
    requires forall k :: 0 <= k < |wastes| ==> budgets[k + 1] + wastes[k] <= budgets[k]
    ensures budgets[|wastes|] + AddReals(wastes) <= budgets[0]
  {
    if wastes != [] {
      var n := |wastes| - 1;
      NothingGivenAddsUp(budgets[..n + 1], wastes[..n]);
      assert budgets[n + 1] + wastes[n] <= budgets[n];
    }
  }

  lemma {:induction false} ZerosAddUp(xs: seq<real>)
    requires forall k :: 0 <= k < |xs| ==> xs[k] == 0.0
    ensures AddReals(xs) == 0.0
  {
    if xs != [] { ZerosAddUp(xs[..|xs| - 1]); }
  }

  ghost function Budgets(hosts: seq<Host>, n: nat): (xs: seq<real>)
    requires n <= |hosts|
    ensures |xs| == n
  {
    seq(n, k requires 0 <= k < n => Budget(hosts[k]))
  }

  /** As long as the calls can be answered, each applied control loses less than one byte, either
      way, beside what was wasted on replaced targets. */
  lemma {:induction false} LossBelowControls(hosts: seq<Host>, plans: seq<Plan>, n: nat)
    requires Trace(hosts, plans) && n <= |plans| && AnswerableUpTo(plans, n)
    ensures Near(Budget(hosts[0]) - Budget(hosts[n]) - Wasted(hosts, plans, n), Controls(hosts, plans, n))
  {
    var budgets, wastes, controls := Budgets(hosts, n + 1), Wastes(hosts, plans, n), Applied(hosts, plans, n);
    forall k | 0 <= k < n
      ensures Near(budgets[k] - budgets[k + 1] - wastes[k], controls[k])
    {
      assert Moves(hosts[k], plans[k], hosts[k + 1]) && Answerable(plans[k]);
      RoundLossBelow(hosts[k], plans[k]);
    }
    NearAddsUp(budgets, wastes, controls);
  }

  lemma {:induction false} RoundLossBelow(h: Host, p: Plan)
    requires Current(h, p) && Answerable(p)
    ensures Near(Budget(h) - Budget(Round(h, p)) - RoundWaste(h, p), RoundControls(h, p))
  {
    SucceedsIffAnswerable(p, h.free, |p.turns|);
    RoundBudget(h, p);
    LeakBetween(Evaluate(p, h.free).targets);
  }

  /** Nothing is wasted if no target is ever replaced. */
  lemma {:induction false} NothingWasted(hosts: seq<Host>, plans: seq<Plan>, n: nat)
    requires Trace(hosts, plans) && n <= |plans|
    requires forall k :: 0 <= k < n ==> plans[k].Valid() && ReplacesNothing(plans[k])
    ensures Wasted(hosts, plans, n) == 0.0
  {
    var wastes := Wastes(hosts, plans, n);
    forall k | 0 <= k < n
      ensures wastes[k] == 0.0
    {
      assert ReplacesNothing(plans[k]);
    }
    ZerosAddUp(wastes);
  }

  // ----- what a run keeps -----

  /** A call that never overdraws the host, and never asks for a negative size: sane memory
      figures, and for the step and reference policies their own conditions. */
  ghost predicate SafeCall(c: Call, v: View) {
    && 0 <= v.min <= v.max && 0 <= v.cur
    && (Used(v).Some? ==> Used(v).value >= 0.0)
    && (c.Step? ==> InBounds(v) && c.params.grow >= 0.0 && c.params.shrink >= 0.0)
    && (c.Ref? ==> InBounds(v) && RefReady(v, c.params) && HistoryBelow(v, c.params))
  }

  lemma {:induction false} SafeDecision(c: Call, v: View, free: real)
    requires SafeCall(c, v) && free >= 0.0
    ensures var d := Decide(c, v, free); d.Sets? ==> d.free >= 0.0 && d.target >= 0.0
  {
    match c
    case Step(p) => StepFits(v, free, p);
    case Ref(p) => RefFits(v, free, p);
    case _ =>
      OldPoliciesKeepFree(c, v, free);
      SafeTarget(c, v, free);
  }

  lemma {:induction false} SafeTarget(c: Call, v: View, free: real)
    requires 0 <= v.min <= v.max && 0 <= v.cur && !c.Step? && !c.Ref?
    ensures var d := Decide(c, v, free);
            (Used(v).Some? ==> Used(v).value >= 0.0) && d.Sets? ==> d.target >= 0.0
  {
    if c.Policy4? || c.Policy5? || c.Policy6? || c.Policy7? {
      SafeClamped(c, v, free);
    } else if c.Policy8? {
      SafePass(c.pass, v, free);
    }
  }

  lemma {:induction false} SafeClamped(c: Call, v: View, free: real)
    requires 0 <= v.min <= v.max && 0 <= v.cur
    requires c.Policy4? || c.Policy5? || c.Policy6? || c.Policy7?
    ensures var d := Decide(c, v, free); d.Sets? ==> d.target >= 0.0
  {
  }

  lemma {:induction false} SafePass(p: Pass, v: View, free: real)
    requires 0 <= v.min <= v.max && 0 <= v.cur
    ensures var d := Decide8(p, v, free); d.Sets? ==> d.target >= 0.0
  {
  }

  ghost predicate SafePlan(p: Plan) {
    p.Valid() && forall k :: 0 <= k < |p.turns| ==> SafeTurn(p.turns[k], p.views)
  }

  ghost predicate SafeTurn(t: Turn, views: seq<View>) {
    t.guest < |views| && SafeCall(t.call, views[t.guest])
  }

  ghost predicate SafeRun(plans: seq<Plan>) {
    forall k :: 0 <= k < |plans| ==> SafePlan(plans[k])
  }

  ghost predicate Solvent(s: Progress) {
    s.free >= 0.0 && forall i :: 0 <= i < |s.targets| && s.targets[i].Some? ==> s.targets[i].value >= 0.0
  }

  lemma {:induction false} SafeTake(t: Turn, views: seq<View>, s: Progress)
    requires SafeTurn(t, views) && t.guest < |s.targets| && Solvent(s)
    ensures Solvent(Take(t, views[t.guest], s))
  {
    SafeDecision(t.call, views[t.guest], s.free);
  }

  lemma {:induction false} SafeEvaluation(p: Plan, free: real, n: nat)
    requires free >= 0.0 && SafePlan(p) && n <= |p.turns|
    ensures Solvent(StateAfter(p, free, n))
  {
    if n > 0 {
      SafeEvaluation(p, free, n - 1);
      assert SafeTurn(p.turns[n - 1], p.views);
      SafeTake(p.turns[n - 1], p.views, StateAfter(p, free, n - 1));
    }
  }

  /** A safe round keeps the host from being overdrawn, and, if its calls can be answered, gives no
      budget away but what it wastes. */
  lemma {:induction false} SafeRound(h: Host, p: Plan)
    requires Current(h, p) && SafePlan(p) && h.free >= 0.0
    ensures Round(h, p).free >= 0.0
    ensures Answerable(p) ==> Budget(Round(h, p)) + RoundWaste(h, p) <= Budget(h)
  {
    SafeEvaluation(p, h.free, |p.turns|);
    SucceedsIffAnswerable(p, h.free, |p.turns|);
    RoundBudget(h, p);
    LeakBetween(Evaluate(p, h.free).targets);
  }

  lemma {:induction false} SafeRunKeepsFree(hosts: seq<Host>, plans: seq<Plan>, n: nat)
    requires Trace(hosts, plans) && SafeRun(plans) && n <= |plans| && hosts[0].free >= 0.0
    ensures hosts[n].free >= 0.0
  {
    var inv := (h: Host) => h.free >= 0.0;
    forall k | 0 <= k < |plans| && inv(hosts[k])
      ensures inv(hosts[k + 1])
    {
      assert Moves(hosts[k], plans[k], hosts[k + 1]) && SafePlan(plans[k]);
      SafeRound(hosts[k], plans[k]);
    }
    Invariant(hosts, plans, inv, n);
  }

  lemma {:induction false} SafeRunGivesNothing(hosts: seq<Host>, plans: seq<Plan>, n: nat)
    requires Trace(hosts, plans) && SafeRun(plans) && n <= |plans| && hosts[0].free >= 0.0
    requires AnswerableUpTo(plans, n)
    ensures Budget(hosts[n]) + Wasted(hosts, plans, n) <= Budget(hosts[0])
  {
    var budgets, wastes := Budgets(hosts, n + 1), Wastes(hosts, plans, n);
    forall k | 0 <= k < n
      ensures budgets[k + 1] + wastes[k] <= budgets[k]
    {
      SafeRunKeepsFree(hosts, plans, k);
      assert Moves(hosts[k], plans[k], hosts[k + 1]) && SafePlan(plans[k]) && Answerable(plans[k]);
      SafeRound(hosts[k], plans[k]);
    }
    NothingGivenAddsUp(budgets, wastes);
  }

  /** In a safe run, with any mix of policies, the host is never overdrawn; and as long as the calls
      can be answered the budget only shrinks: by what was wasted on replaced targets, and by less
      than one byte a control beside it. */
  lemma {:induction false} SafeRunConserves(hosts: seq<Host>, plans: seq<Plan>, n: nat)
    requires Trace(hosts, plans) && SafeRun(plans) && n <= |plans| && hosts[0].free >= 0.0
    ensures hosts[n].free >= 0.0
    ensures AnswerableUpTo(plans, n) ==>
              var c := Controls(hosts, plans, n);
              var loss := Budget(hosts[0]) - Budget(hosts[n]) - Wasted(hosts, plans, n);
              0.0 <= loss && if c == 0 then loss == 0.0 else loss < c as real
  {
    SafeRunKeepsFree(hosts, plans, n);
    if AnswerableUpTo(plans, n) {
      LossBelowControls(hosts, plans, n);
      SafeRunGivesNothing(hosts, plans, n);
    }
  }

  /** With one call for each guest and round, as in all rules files but iBalloon's, nothing is wasted. */
  lemma {:induction false} SafeRunOfSingleCalls(hosts: seq<Host>, plans: seq<Plan>, n: nat)
    requires Trace(hosts, plans) && SafeRun(plans) && n <= |plans| && hosts[0].free >= 0.0
    requires AnswerableUpTo(plans, n) && forall k :: 0 <= k < n ==> OnceEach(plans[k])
    ensures var c := Controls(hosts, plans, n); var loss := Budget(hosts[0]) - Budget(hosts[n]);
            0.0 <= loss && if c == 0 then loss == 0.0 else loss < c as real
  {
    SafeRunConserves(hosts, plans, n);
    forall k | 0 <= k < n
      ensures plans[k].Valid() && ReplacesNothing(plans[k])
    {
      assert SafePlan(plans[k]) && OnceEach(plans[k]);
      OnceEachReplacesNothing(plans[k]);
    }
    NothingWasted(hosts, plans, n);
  }

  // ----- guests stay within their bounds -----

  datatype Limits = Limits(min: int, max: int)

  ghost predicate Within(sizes: seq<int>, limits: seq<Limits>) {
    |sizes| == |limits| && forall i :: 0 <= i < |sizes| ==> limits[i].min <= sizes[i] <= limits[i].max
  }

  /** A call of the step or reference policy, with the parameters the policy needs. */
  ghost predicate BoundedCall(c: Call, v: View) {
    && (c.Step? || c.Ref?)
    && (c.Step? ==> c.params.grow >= 0.0 && c.params.shrink >= 0.0)
    && (c.Ref? ==> RefTuned(c.params, v.min) && HistoryBelow(v, c.params))
  }

  ghost predicate BoundedTurn(t: Turn, p: Plan) {
    t.guest < |p.views| && BoundedCall(t.call, p.views[t.guest])
  }

  /** Such calls on guests with the given limits. */
  ghost predicate BoundedPlan(p: Plan, limits: seq<Limits>) {
    && p.Valid() && |p.views| == |limits|
    && (forall i :: 0 <= i < |limits| ==> p.views[i].min == limits[i].min && p.views[i].max == limits[i].max)
    && (forall k :: 0 <= k < |p.turns| ==> BoundedTurn(p.turns[k], p))
  }

  ghost predicate SampledInBounds(p: Plan) {
    forall i :: 0 <= i < |p.views| ==> SamplesInBounds(p.views[i])
  }

  ghost predicate TargetsWithin(targets: Targets, limits: seq<Limits>) {
    |targets| == |limits| &&
    forall i :: 0 <= i < |limits| && targets[i].Some? ==>
      limits[i].min as real <= targets[i].value <= limits[i].max as real
  }

  lemma {:induction false} BoundedDecision(c: Call, v: View, free: real)
    requires BoundedCall(c, v) && InBounds(v) && SamplesInBounds(v) && free >= 0.0
    ensures var d := Decide(c, v, free); TargetFits(v, d) && (d.Sets? ==> d.free >= 0.0)
  {
    match c {
      case Step(p) => StepFits(v, free, p);
      case Ref(p) => RefFits(v, free, p);
      case _ =>
    }
  }

  lemma {:induction false} BoundedEvaluation(p: Plan, limits: seq<Limits>, free: real, n: nat)
    requires BoundedPlan(p, limits) && Within(Sizes(p.views), limits) && SampledInBounds(p)
    requires free >= 0.0 && n <= |p.turns|
    ensures StateAfter(p, free, n).free >= 0.0 && TargetsWithin(StateAfter(p, free, n).targets, limits)
  {
    if n > 0 {
      BoundedEvaluation(p, limits, free, n - 1);
      var t, s := p.turns[n - 1], StateAfter(p, free, n - 1);
      assert BoundedTurn(t, p) && SamplesInBounds(p.views[t.guest]) && Sizes(p.views)[t.guest] == p.views[t.guest].cur;
      BoundedDecision(t.call, p.views[t.guest], s.free);
    }
  }

  lemma {:induction false} RoundStaysInBounds(h: Host, p: Plan, limits: seq<Limits>)
    requires Current(h, p) && BoundedPlan(p, limits) && SampledInBounds(p)
    requires Within(h.sizes, limits) && h.free >= 0.0
    ensures var h' := Round(h, p); Within(h'.sizes, limits) && h'.free >= 0.0
  {
    BoundedEvaluation(p, limits, h.free, |p.turns|);
    var s := Evaluate(p, h.free);
    var h' := Round(h, p);
    forall i | 0 <= i < |h'.sizes|
      ensures limits[i].min <= h'.sizes[i] <= limits[i].max
    {
      if s.ok && s.targets[i].Some? { TruncBetween(s.targets[i].value, limits[i].min, limits[i].max); }
    }
  }

  /** The size a sample shows is one the guest has had since the run began. */
  ghost predicate Witnessed(hosts: seq<Host>, k: nat, i: nat, size: Option<int>) {
    size.Some? ==> exists m :: 0 <= m <= k < |hosts| && i < |hosts[m].sizes| && hosts[m].sizes[i] == size.value
  }

  ghost predicate SampledFrom(hosts: seq<Host>, k: nat, views: seq<View>) {
    forall i, j :: 0 <= i < |views| && 0 <= j < |views[i].rows| ==> Witnessed(hosts, k, i, views[i].rows[j].balloonCur)
  }

  ghost predicate BoundedRun(hosts: seq<Host>, plans: seq<Plan>, limits: seq<Limits>) {
    forall k :: 0 <= k < |plans| ==> BoundedPlan(plans[k], limits) && SampledFrom(hosts, k, plans[k].views)
  }

  lemma {:induction false} SamplesStayInBounds(hosts: seq<Host>, k: nat, p: Plan, limits: seq<Limits>)
    requires k < |hosts| && BoundedPlan(p, limits) && SampledFrom(hosts, k, p.views)
    requires forall m :: 0 <= m <= k ==> Within(hosts[m].sizes, limits)
    ensures SampledInBounds(p)
  {
    forall i, j | 0 <= i < |p.views| && 0 <= j < |p.views[i].rows| && p.views[i].rows[j].balloonCur.Some?
      ensures p.views[i].min <= p.views[i].rows[j].balloonCur.value <= p.views[i].max
    {
      assert Witnessed(hosts, k, i, p.views[i].rows[j].balloonCur);
    }
  }

  /** In every reachable state, whether or not evaluations failed on the way, each guest is
      between its minimum and maximum and the host is not overdrawn. The samples the policies
      average are sizes the guests had earlier in the run. */
  lemma {:induction false} RunStaysInBounds(hosts: seq<Host>, plans: seq<Plan>, limits: seq<Limits>, n: nat)
    requires Trace(hosts, plans) && BoundedRun(hosts, plans, limits) && n <= |plans|
    requires Within(hosts[0].sizes, limits) && hosts[0].free >= 0.0
    ensures forall m :: 0 <= m <= n ==> Within(hosts[m].sizes, limits) && hosts[m].free >= 0.0
  {
    if n > 0 {
      RunStaysInBounds(hosts, plans, limits, n - 1);
      KeepsWithin(hosts, plans, limits, n - 1);
    }
  }

  lemma {:induction false} KeepsWithin(hosts: seq<Host>, plans: seq<Plan>, limits: seq<Limits>, k: nat)
    requires Trace(hosts, plans) && BoundedRun(hosts, plans, limits) && k < |plans| && hosts[k].free >= 0.0
    requires forall m :: 0 <= m <= k ==> Within(hosts[m].sizes, limits)
    ensures Within(hosts[k + 1].sizes, limits) && hosts[k + 1].free >= 0.0
  {
    assert Moves(hosts[k], plans[k], hosts[k + 1]);
    SamplesStayInBounds(hosts, k, plans[k], limits);
    RoundStaysInBounds(hosts[k], plans[k], limits);
  }

  /** Calls of the step and reference policies where every history is one sample, of the present size. */
  ghost predicate OneSamplePlan(p: Plan, limits: seq<Limits>) {
    && p.Valid() && |p.views| == |limits|
    && (forall i :: 0 <= i < |limits| ==>
          p.views[i].min == limits[i].min && p.views[i].max == limits[i].max && OneSample(p.views[i]))
    && (forall k :: 0 <= k < |p.turns| ==> TunedTurn(p.turns[k], p))
  }

  ghost predicate TunedTurn(t: Turn, p: Plan) {
    && t.guest < |p.views|
    && (t.call.Step? || t.call.Ref?)
    && (t.call.Step? ==> t.call.params.grow >= 0.0 && t.call.params.shrink >= 0.0)
    && (t.call.Ref? ==> RefTuned(t.call.params, p.views[t.guest].min))
  }

  lemma {:induction false} OneSampleIsBounded(hosts: seq<Host>, k: nat, p: Plan, limits: seq<Limits>)
    requires k < |hosts| && Current(hosts[k], p) && OneSamplePlan(p, limits)
    ensures BoundedPlan(p, limits) && SampledFrom(hosts, k, p.views)
  {
    forall j | 0 <= j < |p.turns|
      ensures BoundedTurn(p.turns[j], p)
    {
      var t := p.turns[j];
      assert TunedTurn(t, p);
      if t.call.Ref? { OneSampleHistory(p.views[t.guest], t.call.params); }
    }
    forall i, j | 0 <= i < |p.views| && 0 <= j < |p.views[i].rows|
      ensures Witnessed(hosts, k, i, p.views[i].rows[j].balloonCur)
    {
      assert OneSample(p.views[i]) && hosts[k].sizes[i] == p.views[i].cur;
    }
  }

  /** With histories of one sample nothing need be assumed of the samples at all. */
  lemma {:induction false} OneSampleRunStaysInBounds(hosts: seq<Host>, plans: seq<Plan>, limits: seq<Limits>, n: nat)
    requires Trace(hosts, plans) && n <= |plans|
    requires forall k :: 0 <= k < |plans| ==> OneSamplePlan(plans[k], limits)
    requires Within(hosts[0].sizes, limits) && hosts[0].free >= 0.0
    ensures forall m :: 0 <= m <= n ==> Within(hosts[m].sizes, limits) && hosts[m].free >= 0.0
  {
    forall k | 0 <= k < |plans|
      ensures BoundedPlan(plans[k], limits) && SampledFrom(hosts, k, plans[k].views)
    {
      assert Moves(hosts[k], plans[k], hosts[k + 1]);
      OneSampleIsBounded(hosts, k, plans[k], limits);
    }
    RunStaysInBounds(hosts, plans, limits, n);
  }
}
