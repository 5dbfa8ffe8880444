/** What the recogniser of spark.py makes of its tokens, as functions: turns, passes and charts. */
module Recognition {
  import opened Grammars
  import opened Charts

  // ----- what working off a state comes to -----

  /** The variables of one pass over a state. */
  datatype Work = Work(states: States, predicted: set<Symbol>, needs: map<Symbol, Located>)

  /** State i after every waiting item has been advanced into it. */
  function AdvanceAll(states: States, i: nat, waiting: seq<Item>, lhs: Symbol): (states': States)
    requires i < |states|
    ensures |states'| == |states|
  {
    if waiting == [] then states
    else
      var last := waiting[|waiting| - 1];
      var states' := AdvanceAll(states, i, waiting[..|waiting| - 1], lhs);
      if NextIs(last, lhs) then Insert(states', i, Advance(last)) else states'
  }

  /** The items the completer looks at; in the state itself only those before the item at index k. */
  function Waiting(states: States, i: nat, k: nat): seq<Item>
    requires i < |states| && k < |states[i]| && states[i][k].parent < |states|
  {
    var item := states[i][k];
    if item.parent == i then states[i][..k] else states[item.parent]
  }

  /** What the item at index k of state i does to the pass. */
  function TurnOf(g: Grammar, token: Token, i: nat, k: nat, w: Work): Work
    requires i + 1 < |w.states| && k < |w.states[i]| && w.states[i][k].parent < |w.states|
  {
    var states, item := w.states, w.states[i][k];
    if item.pos >= |item.rule.rhs| then
      Work(AdvanceAll(states, i, Waiting(states, i, k), item.rule.lhs), w.predicted,
           if item.rule.rhs == [] then w.needs[item.rule.lhs := (item, i)] else w.needs)
    else
      var next := item.rule.rhs[item.pos];
      if g.Nonterminal(next) then
        var over := if next in w.needs then Insert(states, i, Advance(item)) else states;
        Work(if next in w.predicted then over else over[i := over[i] + PredictAll(g, token, i, g.rules[next])],
             w.predicted + {next}, w.needs)
      else if token.kind == next then
        w.(states := states[i + 1 := states[i + 1] + [Advance(item)]])
      else w
  }

  /** From w to w' by the turn of the item at index k. */
  ghost predicate TurnStep(g: Grammar, token: Token, i: nat, k: nat, w: Work, w': Work) {
    && i + 1 < |w.states| && k < |w.states[i]| && w.states[i][k].parent < |w.states|
    && w' == TurnOf(g, token, i, k, w)
  }

  ghost predicate StepAt(g: Grammar, token: Token, i: nat, trace: seq<Work>, k: int) {
    0 <= k < |trace| - 1 && TurnStep(g, token, i, k, trace[k], trace[k + 1])
  }

  /** A pass over state i: the turns of its items in order, until there are no more. */
  ghost predicate Runs(g: Grammar, token: Token, i: nat, trace: seq<Work>) {
    && trace != []
    && forall k {:trigger StepAt(g, token, i, trace, k)} :: 0 <= k < |trace| - 1 ==> StepAt(g, token, i, trace, k)
  }

  lemma {:induction false} TraceGrows(g: Grammar, token: Token, i: nat, trace: seq<Work>, w: Work)
    requires Runs(g, token, i, trace) && TurnStep(g, token, i, |trace| - 1, trace[|trace| - 1], w)
    ensures Runs(g, token, i, trace + [w])
  {
    var trace' := trace + [w];
    forall k | 0 <= k < |trace'| - 1
      ensures StepAt(g, token, i, trace', k)
    {
      if k < |trace| - 1 { assert StepAt(g, token, i, trace, k); }
    }
  }

  /** A pass from one chart to another that leaves no item of state i without its turn. */
  ghost predicate Pass(g: Grammar, token: Token, i: nat, before: States, after: States, trace: seq<Work>) {
    && Runs(g, token, i, trace) && trace[0] == Work(before, {}, map[]) && trace[|trace| - 1].states == after
    && i < |after| && |trace| - 1 == |after[i]|
  }

  /** How state m begins. */
  function FirstItems(g: Grammar, toks: seq<Token>, states: States, m: nat): seq<Item>
    requires m <= |toks| && m <= |states|
  {
    if m == 0 then [Item(g.StartRule(), 0, 0)] else ScanAll(g, toks[m - 1], states[m - 1])
  }

  /** State m is what a pass over it makes of its first items, and it passes on what it scans. */
  ghost predicate Processed(g: Grammar, toks: seq<Token>, states: States, m: nat) {
    && m < |toks| && m < |states|
    && exists trace :: Pass(g, toks[m], m, Before(g, toks, states, m), After(g, toks, states, m), trace)
  }

  function Before(g: Grammar, toks: seq<Token>, states: States, m: nat): States
    requires m < |toks| && m < |states|
  {
    states[..m] + [FirstItems(g, toks, states, m), []]
  }

  function After(g: Grammar, toks: seq<Token>, states: States, m: nat): States
    requires m < |toks| && m < |states|
  {
    states[..m] + [states[m], ScanAll(g, toks[m], states[m])]
  }

  /** The chart that the passes make, up to state i, where it stopped. */
  ghost predicate IsChart(g: Grammar, tokens: seq<Token>, states: States, i: nat) {
    && i <= |tokens| && |states| == i + 2
    && (forall m :: 0 <= m <= i ==> Processed(g, tokens + [EOF_TOKEN], states, m))
    && (i < |tokens| ==> states[i] == [])
    && states[i + 1] == ScanAll(g, (tokens + [EOF_TOKEN])[i], states[i])
  }

  ghost predicate Accepts(g: Grammar, tokens: seq<Token>, states: States, i: nat)
    requires i + 1 < |states|
  {
    i == |tokens| && states[i + 1] == [Item(g.StartRule(), 2, 0)]
  }

  // ----- items, whatever the tokens -----

  ghost predicate Plain(g: Grammar, it: Item, m: nat) {
    && g.HasRule(it.rule) && it.pos <= |it.rule.rhs| && it.parent <= m
    && (it.rule.rhs == [] ==> it.parent == m) && (it.rule.lhs == Start ==> it.parent == 0)
  }

  ghost predicate AllPlain(g: Grammar, states: States) {
    forall m: nat, it {:trigger Plain(g, it, m)} :: Has(states, it, m) ==> Plain(g, it, m)
  }

  lemma {:induction false} SoundIsPlain(g: Grammar, toks: seq<Token>, states: States, tree: TreeMap)
    requires ItemsOk(g, toks, states, tree)
    ensures AllPlain(g, states)
  {
    forall m: nat, it | Has(states, it, m)
      ensures Plain(g, it, m)
    {
      assert ItemOk(g, toks, states, tree, it, m);
      if it.rule.rhs == [] { OriginOfPrediction(g, toks, it, m); }
    }
  }

  lemma {:induction false} PlainKept(g: Grammar, states: States, states': States, i: nat)
    requires AllPlain(g, states) && Grown(states, states', i)
    requires forall it :: it in states'[i] && it !in states[i] ==> Plain(g, it, i)
    ensures AllPlain(g, states')
  {
    forall m: nat, it | Has(states', it, m)
      ensures Plain(g, it, m)
    {
      if Has(states, it, m) { assert Plain(g, it, m); }
    }
  }

  /** Every item state i could ever hold. */
  ghost function Universe(g: Grammar, i: nat): set<Item> {
    set s, r, p: nat, j: nat | s in g.rules && r in g.rules[s] && p <= |r.rhs| && j <= i :: Item(r, p, j)
  }

  /** The items of state i still to be found. */
  ghost function Missing(g: Grammar, states: States, i: nat): set<Item>
    requires i < |states|
  {
    Universe(g, i) - (set it | it in states[i])
  }

  /** A state that gains an item leaves strictly fewer to be found. */
  lemma {:induction false} MissingShrinks(g: Grammar, states: States, states': States, i: nat)
    requires Grown(states, states', i) && AllPlain(g, states')
    ensures Missing(g, states', i) <= Missing(g, states, i)
    ensures (exists it :: it in states'[i] && it !in states[i]) ==> Missing(g, states', i) < Missing(g, states, i)
  {
    if it :| it in states'[i] && it !in states[i] {
      assert Has(states', it, i) && Plain(g, it, i);
      assert it in Missing(g, states, i) && it !in Missing(g, states', i);
    }
  }

  lemma {:induction false} AdvanceNext(states: States, i: nat, waiting: seq<Item>, idx: nat, lhs: Symbol)
    requires i < |states| && idx < |waiting|
    ensures var states' := AdvanceAll(states, i, waiting[..idx], lhs);
            AdvanceAll(states, i, waiting[..idx + 1], lhs) ==
            if NextIs(waiting[idx], lhs) then Insert(states', i, Advance(waiting[idx])) else states'
  {
    assert waiting[..idx + 1][..idx] == waiting[..idx];
  }

  /** Every waiting item before the left-hand side is in state i, advanced; nothing is lost from it,
      and no other state changes. */
  lemma {:induction false} AllAdvanced(states: States, i: nat, waiting: seq<Item>, lhs: Symbol)
    requires i < |states|
    ensures forall it :: it in states[i] ==> it in AdvanceAll(states, i, waiting, lhs)[i]
    ensures forall p :: p in waiting && NextIs(p, lhs) ==> Advance(p) in AdvanceAll(states, i, waiting, lhs)[i]
    ensures forall m :: 0 <= m < |states| && m != i ==> AdvanceAll(states, i, waiting, lhs)[m] == states[m]
  {
    if waiting != [] {
      var n := |waiting| - 1;
      AllAdvanced(states, i, waiting[..n], lhs);
      assert waiting == waiting[..n] + [waiting[n]];
    }
  }

  lemma {:induction false} AdvanceAllGrown(states: States, i: nat, waiting: seq<Item>, lhs: Symbol)
    requires i < |states|
    ensures Grown(states, AdvanceAll(states, i, waiting, lhs), i)
  {
    if waiting != [] { AdvanceAllGrown(states, i, waiting[..|waiting| - 1], lhs); }
  }

  // ----- progress through one state -----

  ghost predicate Handled(g: Grammar, states: States, i: nat, predicted: set<Symbol>, it: Item)
    requires i < |states|
  {
    && (Complete(it) && it.parent < i ==> Completed(states, it, i))
    && (it.pos < |it.rule.rhs| && g.Nonterminal(it.rule.rhs[it.pos]) ==> it.rule.rhs[it.pos] in predicted)
  }

  /** The first k items of state i have been worked off. */
  ghost predicate Done(g: Grammar, token: Token, states: States, i: nat, k: nat, predicted: set<Symbol>) {
    && i + 1 < |states| && k <= |states[i]|
    && (forall it :: it in states[i][..k] ==> Handled(g, states, i, predicted, it))
    && (forall it, c :: it in states[i][..k] && c in states[i][..k] ==> Skips(states[i], it, c))
    && (forall b :: b in predicted ==> Predicted(g, token, states[i], i, b))
    && states[i + 1] == ScanAll(g, token, states[i][..k])
  }

  lemma {:induction false} DoneGrown(g: Grammar, token: Token, states: States, i: nat, k: nat, predicted: set<Symbol>,
      states': States)
    requires Done(g, token, states, i, k, predicted) && Grown(states, states', i)
    ensures Done(g, token, states', i, k, predicted)
  {
    assert states'[i][..k] == states[i][..k];
    forall it | it in states'[i][..k]
      ensures Handled(g, states', i, predicted, it)
    {
      assert Handled(g, states, i, predicted, it);
    }
    forall it, c | it in states'[i][..k] && c in states'[i][..k]
      ensures Skips(states'[i], it, c)
    {
      assert Skips(states[i], it, c);
    }
  }

  /** One more item is worked off; it leaves its advanced copy in the next state if it scans. */
  lemma {:induction false} DoneNext(g: Grammar, token: Token, states: States, i: nat, k: nat, predicted: set<Symbol>,
      states': States)
    requires Done(g, token, states, i, k, predicted) && k < |states[i]|
    requires states' == if Scans(g, token, states[i][k])
                        then states[i + 1 := states[i + 1] + [Advance(states[i][k])]] else states
    requires Handled(g, states, i, predicted, states[i][k])
    requires forall p :: p in states[i][..k] ==> Skips(states[i], p, states[i][k]) && Skips(states[i], states[i][k], p)
    ensures Done(g, token, states', i, k + 1, predicted)
  {
    var front := states[i][..k + 1];
    assert front[..k] == states[i][..k] && front == states[i][..k] + [states[i][k]];
    assert states'[i] == states[i];
    forall it | it in front
      ensures Handled(g, states', i, predicted, it)
    {
      assert Handled(g, states, i, predicted, it);
    }
    forall it, c | it in front && c in front
      ensures Skips(states'[i], it, c)
    {
    }
  }

  lemma {:induction false} DoneClosed(g: Grammar, toks: seq<Token>, states: States, i: nat, predicted: set<Symbol>)
    requires i < |toks| && i + 1 < |states|
    requires Done(g, toks[i], states, i, |states[i]|, predicted)
    ensures states[i + 1] == ScanAll(g, toks[i], states[i])
    ensures Closed(g, toks, states, i)
  {
    assert states[i][..|states[i]|] == states[i];
    forall it | it in states[i]
      ensures Settled(g, toks[i], states, i, it)
    {
      assert Handled(g, states, i, predicted, it);
      assert forall c :: c in states[i] ==> Skips(states[i], it, c);
    }
  }

  /** An item that does not wait for a nonterminal is not advanced over anything. */
  lemma {:induction false} NoSkip(g: Grammar, state: seq<Item>, it: Item, c: Item)
    requires g.HasRule(c.rule) && (it.pos < |it.rule.rhs| ==> !g.Nonterminal(it.rule.rhs[it.pos]))
    ensures Skips(state, it, c)
  {
  }

  ghost predicate EmptyDone(states: States, i: nat, s: Symbol, c: Located) {
    && c.1 == i && Has(states, c.0, i) && Complete(c.0) && c.0.parent == i
    && c.0.rule.lhs == s && c.0.rule.rhs == []
  }

  /** A completed empty rule is known to the predictor. */
  predicate Noted(c: Item, needsCompletion: map<Symbol, Located>) {
    c.rule.rhs == [] ==> c.rule.lhs in needsCompletion
  }

  /** What a pass knows after k items of state i. */
  ghost predicate Worked(g: Grammar, token: Token, states: States, i: nat, k: nat, predicted: set<Symbol>,
      needs: map<Symbol, Located>) {
    && Done(g, token, states, i, k, predicted) && predicted <= g.rules.Keys
    && (forall s :: s in needs ==> EmptyDone(states, i, s, needs[s]))
    && (forall c :: c in states[i][..k] ==> Noted(c, needs))
  }

  lemma {:induction false} WorkedGrown(g: Grammar, token: Token, states: States, i: nat, k: nat,
      predicted: set<Symbol>, needs: map<Symbol, Located>, states': States)
    requires Worked(g, token, states, i, k, predicted, needs) && Grown(states, states', i)
    ensures Worked(g, token, states', i, k, predicted, needs)
  {
    DoneGrown(g, token, states, i, k, predicted, states');
    GrownHas(states, states', i);
    assert states'[i][..k] == states[i][..k];
    forall s | s in needs
      ensures EmptyDone(states', i, s, needs[s])
    {
      assert EmptyDone(states, i, s, needs[s]);
    }
  }

  /** Between the reserved names and the recogniser: Start is never predicted. */
  lemma {:induction false} NeverPredictsStart(g: Grammar, it: Item)
    requires g.Valid() && g.HasRule(it.rule) && it.pos < |it.rule.rhs|
    ensures it.rule.rhs[it.pos] != Start
  {
  }

  /** The completer's turn works the item off. */
  lemma {:induction false} CompletionDone(g: Grammar, token: Token, before: States, after: States, i: nat, k: nat,
      predicted: set<Symbol>, needs: map<Symbol, Located>)
    requires Worked(g, token, before, i, k, predicted, needs) && Grown(before, after, i) && k < |before[i]|
    requires Complete(before[i][k]) && before[i][k].parent <= i
    requires before[i][k].rule.rhs == [] ==> before[i][k].parent == i
    requires forall p :: p in Waiting(before, i, k) && NextIs(p, before[i][k].rule.lhs) ==> Advance(p) in after[i]
    ensures var item := before[i][k];
            Worked(g, token, after, i, k + 1, predicted,
                   if item.rule.rhs == [] then needs[item.rule.lhs := (item, i)] else needs)
  {
    WorkedGrown(g, token, before, i, k, predicted, needs, after);
    var item := before[i][k];
    if item.parent < i { assert Completed(after, item, i); }
    assert after[i][k] == item && after[i][..k] == before[i][..k];
    forall p | p in after[i][..k]
      ensures Skips(after[i], p, item) && Skips(after[i], item, p)
    {
      if item.rule.rhs == [] { assert p in Waiting(before, i, k); }
    }
    DoneNext(g, token, after, i, k, predicted, after);
    NeedsKept(after, i, k, needs);
  }

  /** The predictor's turn works the item off. */
  lemma {:induction false} PredictionDone(g: Grammar, token: Token, states: States, i: nat, k: nat,
      predicted: set<Symbol>, needs: map<Symbol, Located>)
    requires Worked(g, token, states, i, k, predicted, needs) && k < |states[i]|
    requires var it := states[i][k];
             && it.pos < |it.rule.rhs| && g.Nonterminal(it.rule.rhs[it.pos]) && it.rule.rhs[it.pos] in predicted
             && (it.rule.rhs[it.pos] in needs ==> Advance(it) in states[i])
    ensures Worked(g, token, states, i, k + 1, predicted, needs)
  {
    forall p | p in states[i][..k]
      ensures Skips(states[i], p, states[i][k]) && Skips(states[i], states[i][k], p)
    {
      assert Noted(p, needs);
    }
    DoneNext(g, token, states, i, k, predicted, states);
    NeedsKept(states, i, k, needs);
  }

  /** An item before a terminal is worked off by scanning it, if it scans. */
  lemma {:induction false} TerminalDone(g: Grammar, token: Token, states: States, i: nat, k: nat,
      predicted: set<Symbol>, needs: map<Symbol, Located>)
    requires Worked(g, token, states, i, k, predicted, needs) && AllPlain(g, states) && k < |states[i]|
    requires var it := states[i][k]; it.pos < |it.rule.rhs| && !g.Nonterminal(it.rule.rhs[it.pos])
    ensures var it := states[i][k];
            Worked(g, token, if Scans(g, token, it) then states[i + 1 := states[i + 1] + [Advance(it)]] else states,
                   i, k + 1, predicted, needs)
  {
    assert Has(states, states[i][k], i) && Plain(g, states[i][k], i);
    forall p | p in states[i][..k]
      ensures Skips(states[i], p, states[i][k]) && Skips(states[i], states[i][k], p)
    {
      assert Has(states, p, i) && Plain(g, p, i);
      NoSkip(g, states[i], states[i][k], p);
    }
    var it := states[i][k];
    var states' := if Scans(g, token, it) then states[i + 1 := states[i + 1] + [Advance(it)]] else states;
    DoneNext(g, token, states, i, k, predicted, states');
    assert states'[i] == states[i];
    NeedsKept(states', i, k, needs);
  }

  /** The empty rules noted stay noted, with the one just completed. */
  lemma {:induction false} NeedsKept(states: States, i: nat, k: nat, needs: map<Symbol, Located>)
    requires i < |states| && k < |states[i]|
    requires forall s :: s in needs ==> EmptyDone(states, i, s, needs[s])
    requires forall c :: c in states[i][..k] ==> Noted(c, needs)
    requires states[i][k].rule.rhs == [] ==> Complete(states[i][k]) && states[i][k].parent == i
    ensures var it := states[i][k]; var needs' := if it.rule.rhs == [] then needs[it.rule.lhs := (it, i)] else needs;
            && (forall s :: s in needs' ==> EmptyDone(states, i, s, needs'[s]))
            && (forall c :: c in states[i][..k + 1] ==> Noted(c, needs'))
  {
    var it := states[i][k];
    var needs' := if it.rule.rhs == [] then needs[it.rule.lhs := (it, i)] else needs;
    assert states[i][..k + 1] == states[i][..k] + [it];
    forall s | s in needs'
      ensures EmptyDone(states, i, s, needs'[s])
    {
      if s in needs { assert EmptyDone(states, i, s, needs[s]); }
    }
    forall c | c in states[i][..k]
      ensures Noted(c, needs')
    {
      assert Noted(c, needs);
    }
  }

  // ----- a turn and a pass -----

  /** A pass after k turns. */
  ghost predicate Underway(g: Grammar, token: Token, i: nat, k: nat, w: Work) {
    |w.states| == i + 2 && AllPlain(g, w.states) && Worked(g, token, w.states, i, k, w.predicted, w.needs)
  }

  lemma {:induction false} UnderwayAtStart(g: Grammar, token: Token, i: nat, states: States)
    requires |states| == i + 2 && states[i + 1] == [] && AllPlain(g, states)
    ensures Underway(g, token, i, 0, Work(states, {}, map[]))
  {
  }

  /** states' came from states by work on state i and the state after it. */
  ghost predicate Later(states: States, states': States, i: nat) {
    i < |states| == |states'| && states[..i] == states'[..i] && states[i] <= states'[i]
  }

  /** The pass comes nearer to its end. */
  ghost predicate Nearer(g: Grammar, i: nat, w: Work, w': Work) {
    && Later(w.states, w'.states, i)
    && (w.predicted < w'.predicted || (w.predicted == w'.predicted &&
          (w'.states[i] == w.states[i] || Missing(g, w'.states, i) < Missing(g, w.states, i))))
  }

  lemma {:induction false} InsertKeeps(g: Grammar, states: States, i: nat, it: Item)
    requires AllPlain(g, states) && i < |states| && Plain(g, it, i)
    ensures var states' := Insert(states, i, it);
            && Grown(states, states', i) && AllPlain(g, states') && it in states'[i]
            && (states'[i] == states[i] || Missing(g, states', i) < Missing(g, states, i))
  {
    var states' := Insert(states, i, it);
    PlainKept(g, states, states', i);
    MissingShrinks(g, states, states', i);
    assert it !in states[i] ==> it in states'[i];
  }

  lemma {:induction false} AdvanceAllKeeps(g: Grammar, states: States, i: nat, waiting: seq<Item>, lhs: Symbol,
      j: nat)
    requires AllPlain(g, states) && j <= i < |states|
    requires forall p :: p in waiting ==> Plain(g, p, j)
    ensures var states' := AdvanceAll(states, i, waiting, lhs);
            && Grown(states, states', i) && AllPlain(g, states')
            && (states'[i] == states[i] || Missing(g, states', i) < Missing(g, states, i))
  {
    if waiting != [] {
      var n := |waiting| - 1;
      var last := waiting[n];
      assert last in waiting && forall p :: p in waiting[..n] ==> p in waiting;
      AdvanceAllKeeps(g, states, i, waiting[..n], lhs, j);
      var states' := AdvanceAll(states, i, waiting[..n], lhs);
      if NextIs(last, lhs) {
        assert Plain(g, last, j);
        InsertKeeps(g, states', i, Advance(last));
      }
    }
  }

  lemma {:induction false} CompleterKeeps(g: Grammar, token: Token, i: nat, k: nat, w: Work)
    requires Underway(g, token, i, k, w) && k < |w.states[i]| && Complete(w.states[i][k])
    ensures w.states[i][k].parent <= i
    ensures Underway(g, token, i, k + 1, TurnOf(g, token, i, k, w)) && Nearer(g, i, w, TurnOf(g, token, i, k, w))
  {
    var item := w.states[i][k];
    assert Has(w.states, item, i) && Plain(g, item, i);
    var waiting := Waiting(w.states, i, k);
    forall p | p in waiting
      ensures Plain(g, p, item.parent)
    {
      assert Has(w.states, p, item.parent);
    }
    AdvanceAllKeeps(g, w.states, i, waiting, item.rule.lhs, item.parent);
    AllAdvanced(w.states, i, waiting, item.rule.lhs);
    CompletionDone(g, token, w.states, AdvanceAll(w.states, i, waiting, item.rule.lhs), i, k, w.predicted, w.needs);
  }

  /** Predicting a symbol keeps a pass going. */
  lemma {:induction false} PredictKeeps(g: Grammar, token: Token, i: nat, k: nat, w: Work, b: Symbol)
    requires g.Valid() && Underway(g, token, i, k, w) && g.Nonterminal(b) && b != Start
    ensures var states' := w.states[i := w.states[i] + PredictAll(g, token, i, g.rules[b])];
            && Grown(w.states, states', i)
            && Underway(g, token, i, k, Work(states', w.predicted + {b}, w.needs))
  {
    var its := PredictAll(g, token, i, g.rules[b]);
    var states' := w.states[i := w.states[i] + its];
    PlainKept(g, w.states, states', i);
    WorkedGrown(g, token, w.states, i, k, w.predicted, w.needs, states');
  }

  lemma {:induction false} PredictorKeeps(g: Grammar, token: Token, i: nat, k: nat, w: Work)
    requires g.Valid() && Underway(g, token, i, k, w) && k < |w.states[i]|
    requires var it := w.states[i][k]; it.pos < |it.rule.rhs| && g.Nonterminal(it.rule.rhs[it.pos])
    ensures w.states[i][k].parent <= i
    ensures Underway(g, token, i, k + 1, TurnOf(g, token, i, k, w)) && Nearer(g, i, w, TurnOf(g, token, i, k, w))
  {
    var item := w.states[i][k];
    var next := item.rule.rhs[item.pos];
    assert Has(w.states, item, i) && Plain(g, item, i);
    NeverPredictsStart(g, item);
    var over := w;
    if next in w.needs {
      InsertKeeps(g, w.states, i, Advance(item));
      over := w.(states := Insert(w.states, i, Advance(item)));
      WorkedGrown(g, token, w.states, i, k, w.predicted, w.needs, over.states);
    }
    var w' := over;
    if next !in w.predicted {
      PredictKeeps(g, token, i, k, over, next);
      w' := Work(over.states[i := over.states[i] + PredictAll(g, token, i, g.rules[next])],
                 w.predicted + {next}, w.needs);
    } else {
      assert w.predicted + {next} == w.predicted;
    }
    assert w' == TurnOf(g, token, i, k, w);
    PredictionDone(g, token, w'.states, i, k, w'.predicted, w'.needs);
  }

  lemma {:induction false} TurnKeeps(g: Grammar, token: Token, i: nat, k: nat, w: Work)
    requires g.Valid() && Underway(g, token, i, k, w) && k < |w.states[i]|
    ensures w.states[i][k].parent <= i
    ensures Underway(g, token, i, k + 1, TurnOf(g, token, i, k, w)) && Nearer(g, i, w, TurnOf(g, token, i, k, w))
  {
    var item := w.states[i][k];
    assert Has(w.states, item, i) && Plain(g, item, i);
    if Complete(item) {
      CompleterKeeps(g, token, i, k, w);
    } else if g.Nonterminal(item.rule.rhs[item.pos]) {
      PredictorKeeps(g, token, i, k, w);
    } else {
      TerminalDone(g, token, w.states, i, k, w.predicted, w.needs);
      if Scans(g, token, item) {
        PlainKept(g, w.states, TurnOf(g, token, i, k, w).states, i + 1);
      }
    }
  }

  lemma {:induction false} PassUnderway(g: Grammar, token: Token, i: nat, trace: seq<Work>, k: nat)
    requires g.Valid() && Runs(g, token, i, trace) && Underway(g, token, i, 0, trace[0]) && k < |trace|
    ensures Underway(g, token, i, k, trace[k]) && Later(trace[0].states, trace[k].states, i)
  {
    if k > 0 {
      PassUnderway(g, token, i, trace, k - 1);
      assert StepAt(g, token, i, trace, k - 1);
      TurnKeeps(g, token, i, k - 1, trace[k - 1]);
    }
  }

  /** Any pass can be carried on to its end. */
  lemma {:induction false} PassFrom(g: Grammar, token: Token, i: nat, trace: seq<Work>) returns (trace': seq<Work>)
    requires g.Valid() && Runs(g, token, i, trace) && Underway(g, token, i, |trace| - 1, trace[|trace| - 1])
    ensures Runs(g, token, i, trace') && trace'[0] == trace[0] && i < |trace'[|trace'| - 1].states|
    ensures |trace'| - 1 == |trace'[|trace'| - 1].states[i]|
    decreases g.rules.Keys - trace[|trace| - 1].predicted, Missing(g, trace[|trace| - 1].states, i),
              |trace[|trace| - 1].states[i]| - |trace|
  {
    var k, w := |trace| - 1, trace[|trace| - 1];
    if k == |w.states[i]| {
      trace' := trace;
    } else {
      TurnKeeps(g, token, i, k, w);
      TraceGrows(g, token, i, trace, TurnOf(g, token, i, k, w));
      trace' := PassFrom(g, token, i, trace + [TurnOf(g, token, i, k, w)]);
    }
  }

  // ----- from one state to the next -----

  lemma {:induction false} ProcessedKept(g: Grammar, toks: seq<Token>, states: States, states': States, i: nat)
    requires i < |states| <= |states'| && i <= |toks| && states[..i] == states'[..i]
    requires forall m :: 0 <= m < i ==> Processed(g, toks, states, m)
    ensures forall m :: 0 <= m < i ==> Processed(g, toks, states', m)
    ensures FirstItems(g, toks, states, i) == FirstItems(g, toks, states', i)
  {
    assert forall m :: 0 <= m < i ==> states[m] == states[..i][m] == states'[..i][m] == states'[m];
    forall m | 0 <= m < i
      ensures Processed(g, toks, states', m)
    {
      assert Processed(g, toks, states, m);
      assert states[..m] == states[..i][..m] == states'[..i][..m] == states'[..m];
      assert Before(g, toks, states', m) == Before(g, toks, states, m);
      assert After(g, toks, states', m) == After(g, toks, states, m);
    }
  }

  lemma {:induction false} JustProcessed(g: Grammar, toks: seq<Token>, states: States, states': States, i: nat,
      trace: seq<Work>)
    requires i < |toks| && |states| == |states'| == i + 2 && states[..i] == states'[..i]
    requires states == states[..i] + [FirstItems(g, toks, states, i), []]
    requires Pass(g, toks[i], i, states, states', trace)
    requires states'[i + 1] == ScanAll(g, toks[i], states'[i])
    ensures Processed(g, toks, states', i)
  {
    assert i > 0 ==> states[i - 1] == states[..i][i - 1] == states'[..i][i - 1] == states'[i - 1];
    assert states' == states'[..i] + [states'[i], states'[i + 1]] == After(g, toks, states', i);
    assert Before(g, toks, states', i) == states;
  }

  /** A state with no items is processed as it is. */
  lemma {:induction false} EmptyProcessed(g: Grammar, toks: seq<Token>, states: States, i: nat)
    requires i < |toks| && |states| == i + 2 && states[i] == [] && states[i + 1] == []
    requires FirstItems(g, toks, states, i) == []
    ensures Processed(g, toks, states, i)
  {
    var chart := states[..i] + [[], []];
    assert Before(g, toks, states, i) == chart == After(g, toks, states, i);
    assert Pass(g, toks[i], i, chart, chart, [Work(chart, {}, map[])]);
  }

  /** The item waiting for the end marker never comes from a scan. */
  lemma {:induction false} ScannedOnce(g: Grammar, token: Token, its: seq<Item>)
    requires g.Valid()
    ensures Item(g.StartRule(), 1, 0) !in ScanAll(g, token, its)
  {
    if its != [] {
      ScannedOnce(g, token, its[..|its| - 1]);
    }
  }

  /** The item waiting for the end marker is never duplicated. */
  ghost predicate Once(g: Grammar, items: seq<Item>) {
    multiset(items)[Item(g.StartRule(), 1, 0)] <= 1
  }

  lemma {:induction false} OnceInserted(g: Grammar, states: States, i: nat, waiting: seq<Item>, lhs: Symbol)
    requires i < |states| && Once(g, states[i])
    ensures Once(g, AdvanceAll(states, i, waiting, lhs)[i])
  {
    if waiting != [] { OnceInserted(g, states, i, waiting[..|waiting| - 1], lhs); }
  }

  lemma {:induction false} TurnOnce(g: Grammar, token: Token, i: nat, k: nat, w: Work)
    requires i + 1 < |w.states| && k < |w.states[i]| && w.states[i][k].parent < |w.states| && Once(g, w.states[i])
    ensures Once(g, TurnOf(g, token, i, k, w).states[i])
  {
    var item := w.states[i][k];
    if item.pos >= |item.rule.rhs| {
      OnceInserted(g, w.states, i, Waiting(w.states, i, k), item.rule.lhs);
    }
  }

  lemma {:induction false} PassOnce(g: Grammar, token: Token, i: nat, trace: seq<Work>, k: nat)
    requires Runs(g, token, i, trace) && i < |trace[0].states| && Once(g, trace[0].states[i]) && k < |trace|
    ensures i < |trace[k].states| && Once(g, trace[k].states[i])
  {
    if k > 0 {
      PassOnce(g, token, i, trace, k - 1);
      assert StepAt(g, token, i, trace, k - 1);
      TurnOnce(g, token, i, k - 1, trace[k - 1]);
    }
  }

  /** The first m states have been processed. */
  ghost predicate ProcessedUpTo(g: Grammar, toks: seq<Token>, states: States, m: nat) {
    forall j :: 0 <= j < m ==> Processed(g, toks, states, j)
  }

  /** Where the pass over state m starts, everything is in order. */
  lemma {:induction false} StartInOrder(g: Grammar, toks: seq<Token>, states: States, m: nat)
    requires g.Valid() && m < |toks| && m < |states| && ProcessedUpTo(g, toks, states, m)
    ensures AllPlain(g, Before(g, toks, states, m)) && Once(g, FirstItems(g, toks, states, m))
    decreases m, 0
  {
    if m == 0 {
      FirstPlain(g);
      assert Before(g, toks, states, 0) == [[Item(g.StartRule(), 0, 0)], []];
    } else {
      PassInOrder(g, toks, states, m - 1);
      ScannedOnce(g, toks[m - 1], states[m - 1]);
      EmptyStatePlain(g, After(g, toks, states, m - 1));
      BeforeIsAfter(g, toks, states, m);
    }
  }

  lemma {:induction false} BeforeIsAfter(g: Grammar, toks: seq<Token>, states: States, m: nat)
    requires 0 < m < |toks| && m < |states|
    ensures Before(g, toks, states, m) == After(g, toks, states, m - 1) + [[]]
  {
    assert states[..m] == states[..m - 1] + [states[m - 1]];
  }

  lemma {:induction false} FirstPlain(g: Grammar)
    requires g.Valid()
    ensures AllPlain(g, [[Item(g.StartRule(), 0, 0)], []])
  {
    forall n: nat, it | Has([[Item(g.StartRule(), 0, 0)], []], it, n)
      ensures Plain(g, it, n)
    {
      assert it == Item(g.StartRule(), 0, 0);
    }
  }

  lemma {:induction false} EmptyStatePlain(g: Grammar, states: States)
    requires AllPlain(g, states)
    ensures AllPlain(g, states + [[]])
  {
    forall n: nat, it | Has(states + [[]], it, n)
      ensures Plain(g, it, n)
    {
      assert Has(states, it, n);
    }
  }

  /** A pass leaves everything in order, and nothing undone. */
  lemma {:induction false} PassInOrder(g: Grammar, toks: seq<Token>, states: States, m: nat)
    requires g.Valid() && ProcessedUpTo(g, toks, states, m + 1) && m < |toks| && m < |states|
    ensures AllPlain(g, After(g, toks, states, m)) && Once(g, states[m])
    ensures FirstItems(g, toks, states, m) <= states[m]
    ensures Closed(g, toks, After(g, toks, states, m), m)
    decreases m, 1
  {
    StartInOrder(g, toks, states, m);
    assert Processed(g, toks, states, m);
    var before, after := Before(g, toks, states, m), After(g, toks, states, m);
    var trace: seq<Work> :| Pass(g, toks[m], m, before, after, trace);
    UnderwayAtStart(g, toks[m], m, before);
    PassUnderway(g, toks[m], m, trace, |trace| - 1);
    PassOnce(g, toks[m], m, trace, |trace| - 1);
    DoneClosed(g, toks, after, m, trace[|trace| - 1].predicted);
  }

  /** What a chart has been asked for is there. */
  lemma {:induction false} ChartInOrder(g: Grammar, tokens: seq<Token>, states: States, i: nat)
    requires g.Valid() && IsChart(g, tokens, states, i)
    ensures forall m :: 0 <= m <= i ==> Closed(g, tokens + [EOF_TOKEN], states, m)
    ensures Has(states, Item(g.StartRule(), 0, 0), 0)
    ensures Once(g, states[i]) && forall it :: it in states[i] ==> Plain(g, it, i)
  {
    var toks := tokens + [EOF_TOKEN];
    forall m | 0 <= m <= i
      ensures Closed(g, toks, states, m)
    {
      PassInOrder(g, toks, states, m);
      if m < i { PassInOrder(g, toks, states, m + 1); }
      var after := After(g, toks, states, m);
      assert after[m + 1] <= states[m + 1];
      forall it | it in states[m]
        ensures Settled(g, toks[m], states, m, it)
      {
        assert Settled(g, toks[m], after, m, it);
      }
    }
    PassInOrder(g, toks, states, 0);
    assert states[0][0] == FirstItems(g, toks, states, 0)[0];
    PassInOrder(g, toks, states, i);
    forall it | it in states[i]
      ensures Plain(g, it, i)
    {
      assert Has(After(g, toks, states, i), it, i);
    }
  }

  // ----- what a chart decides -----

  /** If nonterminals vanish by empty rules of their own, the chart of a sentence accepts it. */
  lemma {:induction false} SentenceIsAccepted(g: Grammar, tokens: seq<Token>, states: States, i: nat)
    requires g.Valid() && g.OwnEmpties() && IsChart(g, tokens, states, i)
    requires InLanguage(g, tokens)
    ensures Accepts(g, tokens, states, i)
  {
    var toks := tokens + [EOF_TOKEN];
    ChartInOrder(g, tokens, states, i);
    PaddedClosed(g, toks, states, i);
    AcceptanceIsComplete(g, tokens, Padded(states, |toks| - i - 1));
    LastState(g, states[i]);
  }

  /** And a chart that ends early condemns the tokens read so far. */
  lemma {:induction false} StoppedEarlyIsDead(g: Grammar, tokens: seq<Token>, states: States, i: nat)
    requires g.Valid() && g.OwnEmpties() && IsChart(g, tokens, states, i) && i < |tokens|
    ensures i > 0 && DeadPrefix(g, tokens, i)
  {
    var toks := tokens + [EOF_TOKEN];
    ChartInOrder(g, tokens, states, i);
    PaddedClosed(g, toks, states, i);
    EmptyStateIsDead(g, tokens, Padded(states, |toks| - i - 1), i);
  }

  // ----- every input has a chart -----

  /** A chart under construction: the states before the last are processed, and the last has its
      first items. */
  ghost predicate BuiltUpTo(g: Grammar, toks: seq<Token>, states: States, n: nat) {
    && n <= |toks| && n < |states| && ProcessedUpTo(g, toks, states, n)
    && states[n] == FirstItems(g, toks, states, n)
  }

  lemma {:induction false} ChartFrom(g: Grammar, tokens: seq<Token>, states: States, i: nat)
      returns (states': States, i': nat)
    requires g.Valid() && |states| == i + 1 && i <= |tokens| && BuiltUpTo(g, tokens + [EOF_TOKEN], states, i)
    ensures IsChart(g, tokens, states', i')
    decreases |tokens| - i
  {
    var toks := tokens + [EOF_TOKEN];
    states', i' := states + [[]], i;
    ProcessedKept(g, toks, states, states', i);
    if states[i] == [] {
      EmptyProcessed(g, toks, states', i);
    } else {
      var before := states';
      states' := StateFrom(g, toks, before, i);
      ProcessedKept(g, toks, before, states', i);
      if i < |tokens| {
        states', i' := ChartFrom(g, tokens, states', i + 1);
      }
    }
  }

  lemma {:induction false} StateFrom(g: Grammar, toks: seq<Token>, before: States, i: nat) returns (after: States)
    requires g.Valid() && i < |toks| && |before| == i + 2 && before[i + 1] == []
    requires BuiltUpTo(g, toks, before, i)
    ensures |after| == i + 2 && after[..i] == before[..i] && Processed(g, toks, after, i)
    ensures after[i + 1] == ScanAll(g, toks[i], after[i])
  {
    assert before == before[..i] + [FirstItems(g, toks, before, i), []];
    StartInOrder(g, toks, before, i);
    assert Before(g, toks, before, i) == before;
    UnderwayAtStart(g, toks[i], i, before);
    var start := [Work(before, {}, map[])];
    var trace := PassFrom(g, toks[i], i, start);
    PassUnderway(g, toks[i], i, trace, |trace| - 1);
    after := trace[|trace| - 1].states;
    DoneClosed(g, toks, after, i, trace[|trace| - 1].predicted);
    JustProcessed(g, toks, before, after, i, trace);
  }

  lemma {:induction false} ChartExists(g: Grammar, tokens: seq<Token>) returns (states: States, i: nat)
    requires g.Valid()
    ensures IsChart(g, tokens, states, i)
  {
    states, i := ChartFrom(g, tokens, [[Item(g.StartRule(), 0, 0)]], 0);
  }
}
