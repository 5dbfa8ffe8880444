/** The generic parser of spark.py: the Earley recogniser with its growing state lists,
    and the reconstruction of a parse tree from the back-pointers. */
module Spark {
  import opened Options
  import opened Grammars
  import opened Charts
  import opened Recognition
  import Strings

  lemma {:induction false} WaitingPointer(g: Grammar, states: States, i: nat, item: Item, p: Item)
    requires Has(states, item, i) && Complete(item) && g.Nonterminal(item.rule.lhs)
    requires Has(states, p, item.parent) && NextIs(p, item.rule.lhs)
    ensures PointerOk(g, states, (Advance(p), i), (item, i))
  {
    assert Retreat(Advance(p)) == p;
  }

  // ----- the steps -----

  /** The items the completer looks at stay where they are while the state grows. */
  lemma {:induction false} WaitingStays(before: States, states: States, i: nat, k: nat, idx: nat)
    requires Grown(before, states, i) && k < |before[i]| && before[i][k].parent <= i
    requires idx < |Waiting(before, i, k)|
    ensures var parent := before[i][k].parent;
            && idx < |states[parent]| && states[parent][idx] == Waiting(before, i, k)[idx]
            && Has(states, states[parent][idx], parent) && Has(states, before[i][k], i)
  {
  }

  /** A prediction is justified by any item with the dot before its left-hand side. */
  lemma {:induction false} PredictionOk(g: Grammar, toks: seq<Token>, states: States, tree: TreeMap, i: nat, r: Rule)
    requires i <= |toks| && g.HasRule(r) && r.lhs != Start && Wanted(g, toks, r.lhs, i)
    ensures ItemOk(g, toks, states, tree, Item(r, 0, i), i)
  {
    RecognisedStart(g, toks, r, i);
  }

  lemma {:induction false} ScanOk(g: Grammar, toks: seq<Token>, states: States, tree: TreeMap, i: nat, it: Item)
    requires ItemsOk(g, toks, states, tree) && i < |toks|
    requires Has(states, it, i) && Scans(g, toks[i], it)
    ensures ItemOk(g, toks, states, tree, Advance(it), i + 1)
  {
    assert ItemOk(g, toks, states, tree, it, i);
    RecognisedOver(g, toks, it, i, Leaf(toks[i]), i + 1);
    assert Retreat(Advance(it)) == it;
  }

  lemma {:induction false} PredictStep(g: Grammar, token: Token, i: nat, rs: seq<Rule>, idx: nat, state: seq<Item>)
    requires idx < |rs|
    ensures state + PredictAll(g, token, i, rs[idx..]) ==
            (if Passes(g, token, rs[idx]) then state + [Item(rs[idx], 0, i)] else state)
            + PredictAll(g, token, i, rs[idx + 1..])
  {
    assert rs[idx..][1..] == rs[idx + 1..];
  }

  // ----- adding a state at the end -----

  lemma {:induction false} ExtendChart(g: Grammar, toks: seq<Token>, states: States, tree: TreeMap)
    requires ChartOk(g, toks, states, tree) && |states| <= |toks|
    ensures ChartOk(g, toks, states + [[]], tree)
  {
    var states' := states + [[]];
    forall m: nat, it | Has(states', it, m)
      ensures ItemOk(g, toks, states', tree, it, m)
    {
      assert ItemOk(g, toks, states, tree, it, m);
    }
    forall f | f in tree
      ensures LinksOk(g, states', tree, f)
    {
      assert LinksOk(g, states, tree, f);
    }
  }

  /** The first n states hold items. */
  ghost predicate Filled(states: States, n: nat) {
    n <= |states| && forall m :: 0 <= m < n ==> states[m] != []
  }

  lemma {:induction false} AcceptedIsSentence(g: Grammar, tokens: seq<Token>, states: States, tree: TreeMap, i: nat)
    requires g.Valid() && ChartOk(g, tokens + [EOF_TOKEN], states, tree)
    requires i + 1 < |states| && Accepts(g, tokens, states, i)
    ensures InLanguage(g, tokens)
  {
    assert Has(states, Item(g.StartRule(), 2, 0), |tokens| + 1);
    AcceptanceIsSound(g, tokens, states, tree);
  }

  lemma {:induction false} FilledIsViable(g: Grammar, tokens: seq<Token>, states: States, tree: TreeMap, i: nat)
    requires g.Valid() && Productive(g) && ChartOk(g, tokens + [EOF_TOKEN], states, tree)
    requires 0 < i <= |tokens| && i < |states| && Filled(states, i)
    ensures Viable(g, tokens, i - 1)
  {
    var it := states[i - 1][0];
    assert Has(states, it, i - 1) && ItemOk(g, tokens + [EOF_TOKEN], states, tree, it, i - 1);
    ItemIsViable(g, tokens, states, tree, it, i - 1);
  }

  lemma {:induction false} StillFilled(states: States, states': States, i: nat)
    requires Later(states, states', i) && forall m :: 0 <= m <= i ==> states[m] != []
    ensures forall m :: 0 <= m <= i ==> states'[m] != []
    ensures forall it :: Has(states, it, 0) ==> Has(states', it, 0)
  {
    assert forall m :: 0 <= m < i ==> states[m] == states[..i][m] == states'[..i][m] == states'[m];
  }

  /** What the predictor may rely on. */
  lemma {:induction false} PredictsWanted(g: Grammar, toks: seq<Token>, states: States, tree: TreeMap, i: nat, k: nat)
    requires g.Valid() && ItemsOk(g, toks, states, tree) && i < |states| && k < |states[i]|
    requires states[i][k].pos < |states[i][k].rule.rhs|
    ensures var it := states[i][k]; var next := it.rule.rhs[it.pos];
            next != Start && Wanted(g, toks, next, i) && it.parent <= i
  {
    var it := states[i][k];
    assert Has(states, it, i) && ItemOk(g, toks, states, tree, it, i);
    NeverPredictsStart(g, it);
    NextWanted(g, toks, it, i);
  }

  class GenericParser<V> {
    const g: Grammar
    const inj: Token -> V
    const act: (Rule, seq<V>) -> V
    const ruleName: map<Rule, string>

    var states: States
    var tree: TreeMap
    var stack: seq<V>

    constructor (g: Grammar, inj: Token -> V, act: (Rule, seq<V>) -> V, ruleName: map<Rule, string>)
      ensures this.g == g && this.inj == inj && this.act == act && this.ruleName == ruleName
    {
      this.g, this.inj, this.act, this.ruleName := g, inj, act, ruleName;
      states, tree, stack := [], map[], [];
    }

    ghost predicate Ok(toks: seq<Token>)
      reads this
    {
      ChartOk(g, toks, states, tree)
    }

    // A -> a . : advance every item of the parent state that waits for A.
    method Completer(i: nat, k: nat, ghost toks: seq<Token>)
      requires g.Valid() && Ok(toks)
      requires i < |states| && k < |states[i]| && Complete(states[i][k])
      modifies this`states, this`tree
      ensures Ok(toks) && Grown(old(states), states, i)
      ensures old(states[i][k]).parent <= i
      ensures states == AdvanceAll(old(states), i, Waiting(old(states), i, k), old(states[i][k]).rule.lhs)
    {
      var item := states[i][k];
      var lhs := item.rule.lhs;
      assert Has(states, item, i) && ItemOk(g, toks, states, tree, item, i);
      // when the parent is this very state, the loop stops at the item itself
      var limit := if item.parent == i then k else |states[item.parent]|;
      ghost var waiting := Waiting(states, i, k);
      assert waiting == states[item.parent][..limit];
      AdvanceAllGrown(states, i, [], lhs);
      var idx := 0;
      while idx < limit
        invariant Ok(toks) && idx <= limit && Grown(old(states), states, i)
        invariant states == AdvanceAll(old(states), i, waiting[..idx], lhs)
      {
        WaitingStays(old(states), states, i, k, idx);
        var pitem := states[item.parent][idx];
        AdvanceNext(old(states), i, waiting, idx, lhs);
        AdvanceAllGrown(old(states), i, waiting[..idx + 1], lhs);
        if NextIs(pitem, lhs) {
          WaitingPointer(g, states, i, item, pitem);
          AddLinked(i, Advance(pitem), (item, i), toks);
        }
        idx := idx + 1;
      }
      assert waiting[..idx] == waiting;
    }

    // Append an item unless it is there already, and record how it was reached.
    method AddLinked(i: nat, it: Item, child: Located, ghost toks: seq<Token>)
      requires g.Valid() && Ok(toks)
      requires i < |states| && PointerOk(g, states, (it, i), child)
      modifies this`states, this`tree
      ensures states == Insert(old(states), i, it)
      ensures tree == Link(old(tree), (it, i), child)
      ensures Ok(toks)
    {
      TrackedIffPresent(g, toks, states, tree, i, it, child);
      LinkKeeps(g, toks, states, tree, i, it, child);
      if it !in states[i] {
        states := states[i := states[i] + [it]];
        assert [] + [child] == [child];
        tree := tree[(it, i) := [child]];
      } else {
        tree := tree[(it, i) := tree[(it, i)] + [child]];
      }
    }

    method AppendPrediction(r: Rule, i: nat, ghost toks: seq<Token>)
      requires g.Valid() && Ok(toks) && i < |states| && i <= |toks|
      requires g.HasRule(r) && r.lhs != Start && Wanted(g, toks, r.lhs, i)
      modifies this`states
      ensures states == old(states)[i := old(states[i]) + [Item(r, 0, i)]]
      ensures Ok(toks)
    {
      PredictionOk(g, toks, states, tree, i, r);
      AppendKeeps(g, toks, states, tree, i, [Item(r, 0, i)]);
      states := states[i := states[i] + [Item(r, 0, i)]];
    }

    // A -> a . B : predict the rules of B that the next token does not exclude.
    method Predictor(b: Symbol, token: Token, i: nat, ghost toks: seq<Token>)
      requires g.Valid() && Ok(toks) && i < |states| && i <= |toks|
      requires g.Nonterminal(b) && b != Start && Wanted(g, toks, b, i)
      modifies this`states
      ensures states == old(states)[i := old(states[i]) + PredictAll(g, token, i, g.rules[b])]
      ensures Ok(toks)
    {
      var rs := g.rules[b];
      ghost var before := states[i];
      var idx := 0;
      while idx < |rs|
        invariant idx <= |rs| && |states| == |old(states)|
        invariant states == old(states)[i := states[i]]
        invariant states[i] + PredictAll(g, token, i, rs[idx..]) == before + PredictAll(g, token, i, rs)
        invariant Ok(toks)
      {
        PredictStep(g, token, i, rs, idx, states[i]);
        if Passes(g, token, rs[idx]) {
          AppendPrediction(rs[idx], i, toks);
        }
        idx := idx + 1;
      }
      assert states[i] + [] == states[i];
    }

    // An empty rule completed earlier in this state is not forgotten.
    method CompleteOverEmpty(i: nat, k: nat, needsCompletion: map<Symbol, Located>, ghost toks: seq<Token>)
      requires g.Valid() && Ok(toks) && i < |states|
      requires k < |states[i]| && states[i][k].pos < |states[i][k].rule.rhs|
      requires g.Nonterminal(states[i][k].rule.rhs[states[i][k].pos])
      requires forall s :: s in needsCompletion ==> EmptyDone(states, i, s, needsCompletion[s])
      modifies this`states, this`tree
      ensures Ok(toks)
      ensures var item := old(states[i][k]);
              states == if item.rule.rhs[item.pos] in needsCompletion
                        then Insert(old(states), i, Advance(item)) else old(states)
    {
      var item := states[i][k];
      var nextSym := item.rule.rhs[item.pos];
      if nextSym in needsCompletion {
        var child := needsCompletion[nextSym];
        assert EmptyDone(states, i, nextSym, child);
        WaitingPointer(g, states, i, child.0, item);
        AddLinked(i, Advance(item), child, toks);
      }
    }

    // A -> a . c : carry the item over into the next state.
    method ScannerTurn(token: Token, i: nat, k: nat, ghost toks: seq<Token>)
      requires Ok(toks) && i < |toks| && toks[i] == token
      requires i + 1 < |states| && k < |states[i]| && Scans(g, token, states[i][k])
      modifies this`states
      ensures Ok(toks)
      ensures states == old(states)[i + 1 := old(states[i + 1]) + [Advance(old(states[i][k]))]]
    {
      var item := states[i][k];
      ScanOk(g, toks, states, tree, i, item);
      AppendKeeps(g, toks, states, tree, i + 1, [Advance(item)]);
      states := states[i + 1 := states[i + 1] + [Advance(item)]];
    }

    // What one item of the state asks for.
    method Turn(token: Token, i: nat, k: nat, predicted: set<Symbol>, needsCompletion: map<Symbol, Located>,
        ghost toks: seq<Token>) returns (predicted': set<Symbol>, needsCompletion': map<Symbol, Located>)
      requires g.Valid() && Ok(toks) && i < |toks| && toks[i] == token && |states| == i + 2 && k < |states[i]|
      requires forall s :: s in needsCompletion ==> EmptyDone(states, i, s, needsCompletion[s])
      modifies this`states, this`tree
      ensures Ok(toks)
      ensures TurnStep(g, token, i, k, Work(old(states), predicted, needsCompletion),
                       Work(states, predicted', needsCompletion'))
    {
      var item := states[i][k];
      assert Has(states, item, i) && ItemOk(g, toks, states, tree, item, i);
      predicted', needsCompletion' := predicted, needsCompletion;
      if Complete(item) {
        if item.rule.rhs == [] {
          needsCompletion' := needsCompletion[item.rule.lhs := (item, i)];
        }
        Completer(i, k, toks);
      } else if g.Nonterminal(item.rule.rhs[item.pos]) {
        var nextSym := item.rule.rhs[item.pos];
        PredictsWanted(g, toks, states, tree, i, k);
        CompleteOverEmpty(i, k, needsCompletion, toks);
        if nextSym !in predicted {
          Predictor(nextSym, token, i, toks);
        }
        predicted' := predicted + {nextSym};
      } else if token.kind == item.rule.rhs[item.pos] {
        ScannerTurn(token, i, k, toks);
      }
    }

    /** Process state i: the list grows while it is being read. It becomes what the turns of its
        items, in order, make of it, until there are no more. */
    method BuildState(token: Token, i: nat, ghost toks: seq<Token>) returns (ghost trace: seq<Work>)
      requires i < |toks| && toks[i] == token && |states| == i + 2 && states[i + 1] == []
      requires g.Valid() && Ok(toks)
      modifies this`states, this`tree
      ensures |states| == i + 2 && Later(old(states), states, i) && Ok(toks)
      ensures Closed(g, toks, states, i)
      ensures states[i + 1] == ScanAll(g, token, states[i])
      ensures Pass(g, token, i, old(states), states, trace)
    {
      var needsCompletion: map<Symbol, Located> := map[];
      var predicted: set<Symbol> := {};
      SoundIsPlain(g, toks, states, tree);
      UnderwayAtStart(g, token, i, states);
      trace := [Work(states, {}, map[])];
      var k := 0;
      while k < |states[i]|
        invariant Runs(g, token, i, trace) && |trace| == k + 1 && trace[0] == Work(old(states), {}, map[])
        invariant Ok(toks) && Underway(g, token, i, k, trace[k]) && Later(old(states), states, i)
        invariant trace[k] == Work(states, predicted, needsCompletion)
        decreases g.rules.Keys - predicted, Missing(g, states, i), |states[i]| - k
      {
        TurnKeeps(g, token, i, k, trace[k]);
        predicted, needsCompletion := Turn(token, i, k, predicted, needsCompletion, toks);
        TraceGrows(g, token, i, trace, Work(states, predicted, needsCompletion));
        trace := trace + [Work(states, predicted, needsCompletion)];
        k := k + 1;
      }
      DoneClosed(g, toks, states, i, predicted);
    }

    method StartChart(ghost toks: seq<Token>)
      requires g.Valid()
      modifies this`states, this`tree
      ensures states == [[Item(g.StartRule(), 0, 0)]] && Ok(toks)
    {
      var first := Item(g.StartRule(), 0, 0);
      states, tree := [[first]], map[];
      RecognisedStart(g, toks, first.rule, 0);
      StartWanted(g, toks);
    }

    // states[i+1] = []
    method AddState(i: nat, ghost toks: seq<Token>)
      requires Ok(toks) && |states| == i + 1 <= |toks| && BuiltUpTo(g, toks, states, i) && Filled(states, i)
      modifies this`states
      ensures states == old(states) + [[]] && Ok(toks) && BuiltUpTo(g, toks, states, i) && Filled(states, i)
    {
      ghost var before := states;
      ExtendChart(g, toks, states, tree);
      states := states + [[]];
      ProcessedKept(g, toks, before, states, i);
    }

    // the pass over state i, seen in the chart
    method ProcessState(i: nat, toks: seq<Token>)
      requires g.Valid() && i < |toks| && Ok(toks) && |states| == i + 2 && states[i + 1] == []
      requires BuiltUpTo(g, toks, states, i) && Filled(states, i + 1)
      modifies this`states, this`tree
      ensures |states| == i + 2 && Ok(toks)
      ensures BuiltUpTo(g, toks, states, i + 1) && Filled(states, i + 1)
    {
      ghost var before := states;
      assert before == before[..i] + [FirstItems(g, toks, before, i), []];
      ghost var trace := BuildState(toks[i], i, toks);
      ProcessedKept(g, toks, before, states, i);
      JustProcessed(g, toks, before, states, i, trace);
      StillFilled(before, states, i);
    }

    /** Build the chart state by state until one of them stays empty. */
    method BuildChart(tokens: seq<Token>) returns (i: nat)
      requires g.Valid()
      modifies this`states, this`tree
      ensures Ok(tokens + [EOF_TOKEN]) && IsChart(g, tokens, states, i) && Filled(states, i)
    {
      var toks := tokens + [EOF_TOKEN];
      StartChart(toks);
      i := 0;
      while true
        invariant i < |toks| && |states| == i + 1 && Ok(toks)
        invariant BuiltUpTo(g, toks, states, i) && Filled(states, i)
        decreases |toks| - i
      {
        AddState(i, toks);
        if states[i] == [] {
          EmptyProcessed(g, toks, states, i);
          break;
        }
        ProcessState(i, toks);
        if i == |toks| - 1 {
          break;
        }
        i := i + 1;
      }
    }

    /** Earley recognition: sound for every grammar, exact for grammars where whatever can vanish has
        an empty rule of its own. The chart is what the passes make of it. */
    method Recognise(tokens: seq<Token>) returns (i: nat, accepted: bool)
      requires g.Valid()
      modifies this`states, this`tree
      ensures Ok(tokens + [EOF_TOKEN]) && IsChart(g, tokens, states, i)
      ensures accepted <==> Accepts(g, tokens, states, i)
      ensures tokens != [] ==> i > 0
      ensures accepted ==> InLanguage(g, tokens)
      ensures g.OwnEmpties() ==> (accepted <==> InLanguage(g, tokens))
      ensures g.OwnEmpties() && i < |tokens| ==> i > 0 && DeadPrefix(g, tokens, i)
      ensures Productive(g) && i > 0 ==> Viable(g, tokens, i - 1)
    {
      i := BuildChart(tokens);
      ChartInOrder(g, tokens, states, i);
      var sr2 := Item(g.StartRule(), 2, 0);
      accepted := !(i < |tokens| || states[i + 1] != [sr2]);
      if accepted { AcceptedIsSentence(g, tokens, states, tree, i); }
      if g.OwnEmpties() && InLanguage(g, tokens) { SentenceIsAccepted(g, tokens, states, i); }
      if g.OwnEmpties() && i < |tokens| { StoppedEarlyIsDead(g, tokens, states, i); }
      if Productive(g) && i > 0 { FilledIsViable(g, tokens, states, tree, i); }
    }

    // ----- from the chart to a parse tree -----

    /** The key `ambiguity` sorts by: length of the right-hand side, then name of the action. */
    function Key(child: Located): (nat, string)
      requires child.0.rule in ruleName
    {
      (|child.0.rule.rhs|, ruleName[child.0.rule])
    }

    // The alternative the resolver settles on: the last child carrying the least key's name.
    method Ambiguity(children: seq<Located>) returns (child: Located)
      requires children != [] && forall c :: c in children ==> c.0.rule in ruleName
      ensures child in children
      ensures exists best :: best in children && Key(best).1 == Key(child).1 &&
                forall c :: c in children ==> !KeyLess(Key(c), Key(best))
      ensures exists n :: 0 <= n < |children| && children[n] == child &&
                forall m :: n < m < |children| ==> Key(children[m]).1 != Key(child).1
    {
      var best := children[0];
      var i := 1;
      KeyIrreflexive(Key(best));
      while i < |children|
        invariant 1 <= i <= |children| && best in children[..i]
        invariant forall c :: c in children[..i] ==> !KeyLess(Key(c), Key(best))
      {
        if KeyLess(Key(children[i]), Key(best)) {
          forall c | c in children[..i]
            ensures !KeyLess(Key(c), Key(children[i]))
          {
            if KeyLess(Key(c), Key(children[i])) { KeyTransitive(Key(c), Key(children[i]), Key(best)); }
          }
          best := children[i];
        }
        KeyIrreflexive(Key(children[i]));
        assert children[..i + 1] == children[..i] + [children[i]];
        i := i + 1;
      }
      assert children[..i] == children;
      // name2index keeps the last index of every name
      var at := |children| - 1;
      while Key(children[at]).1 != Key(best).1
        invariant 0 <= at < |children|
        invariant exists n :: 0 <= n <= at && children[n] == best
        invariant forall m :: at < m < |children| ==> Key(children[m]).1 != Key(best).1
        decreases at
      {
        at := at - 1;
      }
      child := children[at];
    }

    ghost predicate RulesNamed() {
      forall r :: g.HasRule(r) ==> r in ruleName
    }

    /** No nonterminal leads back to itself with nothing beside it. */
    ghost predicate Loopless(rank: Symbol -> nat, bound: nat) {
      UnitAcyclic(g, rank) && forall s :: rank(s) <= bound
    }

    /** The value the parser builds for a derivation; the start rule passes its first part on. */
    function Result(d: Tree): V {
      if d.Node? && d.rule == g.StartRule() && d.kids != [] then Fold(inj, act, d.kids[0]) else Fold(inj, act, d)
    }

    function Apply(r: Rule, args: seq<V>): V {
      if r == g.StartRule() && args != [] then args[0] else act(r, args)
    }

    /** Follow the back-pointers of a complete item from right to left, at most depth calls deep. The
        tokens it spans are consumed exactly once, and one value, the fold of the rule actions over a
        real derivation, is left in front of the stack. It does come to an end, deep enough, unless
        some nonterminal leads back to itself. */
    method BuildTreeR(tokens: seq<Token>, tokpos: int, root: Located, depth: nat, ghost rank: Symbol -> nat,
        ghost bound: nat) returns (ok: bool, tokpos': int, ghost d: Tree)
      requires g.Valid() && RulesNamed()
      requires Ok(tokens) && Has(states, root.0, root.1) && Complete(root.0)
      requires tokpos == root.1 - 1 - |tokens|
      modifies this`stack
      ensures ok ==> d.Node? && d.rule == root.0.rule && WellFormed(g, d)
      ensures root.0.parent <= root.1 <= |tokens| && (ok ==> Yield(d) == tokens[root.0.parent..root.1])
      ensures ok ==> stack == [Result(d)] + old(stack)
      ensures ok ==> tokpos' == root.0.parent - 1 - |tokens|
      ensures Loopless(rank, bound) && Height(root, rank, bound) < depth ==> ok
      decreases depth, 1
    {
      RootHalf(g, tokens, states, tree, root);
      HeightNotNegative(root, rank, bound);
      ok, tokpos', d := depth > 0, tokpos, Leaf(EOF_TOKEN);
      if !ok {
        return;
      }
      var (Item(rule, pos, parent), state) := root;
      ghost var kids: seq<Tree> := [];
      while pos > 0
        invariant Half(g, tokens, rule, pos, state, root.1, kids) && parent <= state
        invariant ok && Has(states, Item(rule, pos, parent), state)
        invariant stack == Folds(inj, act, kids) + old(stack)
        invariant tokpos' == state - 1 - |tokens|
      {
        var want := (Item(rule, pos, parent), state);
        ghost var t;
        if want !in tree {
          tokpos', t := TakeToken(tokens, tokpos', want);
          state := state - 1;
        } else {
          var child;
          ok, tokpos', child, t := FollowPointer(tokens, tokpos', want, depth, root, kids, rank, bound);
          if !ok {
            return;
          }
          state := child.0.parent;
        }
        pos := pos - 1;
        HalfMore(g, tokens, rule, pos, state, want.1, root.1, t, kids);
        FoldsMore(inj, act, t, kids, old(stack));
        kids := [t] + kids;
      }
      HalfWhole(g, tokens, states, tree, root, state, kids);
      d := Node(rule, kids);
      Reduce(rule, kids, old(stack));
    }

    // A terminal stands left of the dot: take its token.
    method TakeToken(tokens: seq<Token>, tokpos: int, want: Located) returns (tokpos': int, ghost t: Tree)
      requires Ok(tokens) && Has(states, want.0, want.1) && want.0.pos > 0 && want !in tree
      requires tokpos == want.1 - 1 - |tokens|
      modifies this`stack
      ensures 0 < want.1 <= |tokens| && 0 < want.0.pos <= |want.0.rule.rhs|
      ensures want.0.parent <= want.1 - 1 && Has(states, Retreat(want.0), want.1 - 1)
      ensures WellFormed(g, t) && Root(t) == want.0.rule.rhs[want.0.pos - 1] && Yield(t) == tokens[want.1 - 1..want.1]
      ensures stack == [Fold(inj, act, t)] + old(stack)
      ensures tokpos' == want.1 - 2 - |tokens|
    {
      ScanBack(g, tokens, states, tree, want.0, want.1);
      t := Leaf(tokens[want.1 - 1]);
      stack := [inj(tokens[|tokens| + tokpos])] + stack;
      tokpos' := tokpos - 1;
    }

    // Replace the values of a rule's right-hand side, in front of the stack, by the rule's value.
    method Reduce(rule: Rule, ghost kids: seq<Tree>, ghost below: seq<V>)
      requires |kids| == |rule.rhs| && stack == Folds(inj, act, kids) + below
      modifies this`stack
      ensures stack == [Result(Node(rule, kids))] + below
    {
      var n := |rule.rhs|;
      FoldsFront(inj, act, kids, below);
      var result := Apply(rule, stack[..n]);
      stack := [result] + stack[n..];
    }

    // A nonterminal stands left of the dot: build the tree its back-pointer leads to.
    method FollowPointer(tokens: seq<Token>, tokpos: int, want: Located, depth: nat, ghost root: Located,
        ghost kids: seq<Tree>, ghost rank: Symbol -> nat, ghost bound: nat)
        returns (ok: bool, tokpos': int, child: Located, ghost t: Tree)
      requires g.Valid() && RulesNamed() && depth > 0
      requires Ok(tokens) && want in tree && Has(states, want.0, want.1)
      requires tokpos == want.1 - 1 - |tokens|
      requires want.0.rule == root.0.rule && want.0.parent == root.0.parent
      requires Half(g, tokens, root.0.rule, want.0.pos, want.1, root.1, kids)
      modifies this`stack
      ensures PointerOk(g, states, want, child)
      ensures want.0.parent <= child.0.parent <= want.1 <= |tokens|
      ensures ok ==> WellFormed(g, t) && Root(t) == child.0.rule.lhs && Yield(t) == tokens[child.0.parent..want.1]
      ensures ok ==> stack == [Fold(inj, act, t)] + old(stack)
      ensures ok ==> tokpos' == child.0.parent - 1 - |tokens|
      ensures Loopless(rank, bound) && Height(root, rank, bound) < depth ==> ok
      decreases depth, 0
    {
      var children := tree[want];
      ChildrenNamed(g, tokens, states, tree, want, ruleName);
      if |children| > 1 {
        child := Ambiguity(children);
      } else {
        child := children[0];
      }
      ChildBack(g, tokens, states, tree, want, child);
      if Loopless(rank, bound) { ChildLower(g, tokens, states, tree, want, child, root, kids, rank, bound); }
      ok, tokpos', t := BuildTreeR(tokens, tokpos, child, depth - 1, rank, bound);
    }

    method BuildTree(toks: seq<Token>, root: Located, depth: nat, ghost rank: Symbol -> nat, ghost bound: nat)
        returns (v: Option<V>, ghost d: Tree)
      requires g.Valid() && RulesNamed()
      requires Ok(toks) && Has(states, root.0, root.1) && Complete(root.0) && root.1 == |toks|
      modifies this`stack
      ensures v.Some? ==> d.Node? && d.rule == root.0.rule && WellFormed(g, d) && v.value == Result(d)
      ensures root.0.parent <= |toks| && (v.Some? ==> Yield(d) == toks[root.0.parent..])
      ensures Loopless(rank, bound) && Height(root, rank, bound) < depth ==> v.Some?
    {
      stack := [];
      var ok, tokpos;
      ok, tokpos, d := BuildTreeR(toks, -1, root, depth, rank, bound);
      v := if ok then Some(stack[0]) else None;
    }

    /** The whole parser: it succeeds on token lists of the language only, and on all of them if whatever
        can vanish has an empty rule of its own; then it returns the fold of the rule actions over a
        derivation of the input. A syntax error names the last token, or one up to which the input
        begins no sentence at all. Trees too deep for the call stack are the other way to fail; where no
        nonterminal leads back to itself, a depth linear in the input is enough. */
    method Parse(tokens: seq<Token>, depth: nat, ghost rank: Symbol -> nat, ghost bound: nat) returns (r: Parsed<V>)
      requires g.Valid() && RulesNamed()
      modifies this
      ensures r.Built? ==> exists d :: IsDerivation(g, g.start, tokens, d) && r.value == Fold(inj, act, d)
      ensures r.Built? || r.TooDeep? ==> InLanguage(g, tokens)
      ensures g.OwnEmpties() && InLanguage(g, tokens) ==> r.Built? || r.TooDeep?
      ensures Loopless(rank, bound) && (|tokens| + 2) * (bound + 1) <= depth ==> !r.TooDeep?
      ensures r.LookupError? ==> tokens == []
      ensures r.SyntaxError? ==> exists i :: ErrorAt(g, tokens, r.at, i)
    {
      var i, accepted := Recognise(tokens);
      if !accepted {
        if tokens == [] {
          return LookupError;
        }
        r := SyntaxError(tokens[i - 1]);
        assert ErrorAt(g, tokens, r.at, i);
        return;
      }
      var root := (Item(g.StartRule(), 2, 0), i + 1);
      assert Has(states, root.0, root.1);
      if Loopless(rank, bound) { RootLow(root, rank, bound, |tokens|); }
      ghost var d;
      var v;
      v, d := BuildTree(tokens + [EOF_TOKEN], root, depth, rank, bound);
      if v.None? {
        return TooDeep;
      }
      StartTree(g, tokens, d);
      r := Built(v.value);
    }
  }

  /** How deep the calls for an item can go, if no nonterminal leads back to itself. */
  ghost function Height(root: Located, rank: Symbol -> nat, bound: nat): int {
    (root.1 - root.0.parent) * (bound + 1) + rank(root.0.rule.lhs)
  }

  lemma {:induction false} HeightNotNegative(root: Located, rank: Symbol -> nat, bound: nat)
    requires root.0.parent <= root.1
    ensures Height(root, rank, bound) >= 0
  {
  }

  lemma {:induction false} RootLow(root: Located, rank: Symbol -> nat, bound: nat, n: nat)
    requires root.0.parent == 0 && root.1 == n + 1 && rank(root.0.rule.lhs) <= bound
    ensures Height(root, rank, bound) < (n + 2) * (bound + 1)
  {
  }

  /** A smaller span, or the same span and a lower rank, is lower. */
  lemma {:induction false} Lower(span: nat, rank: nat, span': nat, rank': nat, bound: nat)
    requires rank <= bound && (span < span' || (span == span' && rank < rank'))
    ensures span * (bound + 1) + rank < span' * (bound + 1) + rank'
  {
    if span < span' {
      assert (span + 1) * (bound + 1) <= span' * (bound + 1);
      assert (span + 1) * (bound + 1) == span * (bound + 1) + (bound + 1);
    }
  }

  lemma {:induction false} ChildLower(g: Grammar, toks: seq<Token>, states: States, tree: TreeMap, from: Located,
      c: Located, root: Located, kids: seq<Tree>, rank: Symbol -> nat, bound: nat)
    requires g.Valid() && UnitAcyclic(g, rank) && ChartOk(g, toks, states, tree) && rank(c.0.rule.lhs) <= bound
    requires Has(states, from.0, from.1) && from in tree && c in tree[from]
    requires from.0.rule == root.0.rule && from.0.parent == root.0.parent
    requires Half(g, toks, root.0.rule, from.0.pos, from.1, root.1, kids)
    ensures Height(c, rank, bound) < Height(root, rank, bound)
  {
    ChildBack(g, toks, states, tree, from, c);
    ChildSmaller(g, toks, states, tree, from, c, root, kids, rank);
    Lower(c.1 - c.0.parent, rank(c.0.rule.lhs), root.1 - root.0.parent, rank(root.0.rule.lhs), bound);
  }

  /** The reported token: the last one, or one up to which the input begins no sentence; and in a
      productive grammar the tokens before it do begin one. */
  ghost predicate ErrorAt(g: Grammar, tokens: seq<Token>, at: Token, i: nat) {
    && 0 < i <= |tokens| && tokens[i - 1] == at
    && (g.OwnEmpties() && i < |tokens| ==> DeadPrefix(g, tokens, i))
    && (Productive(g) ==> Viable(g, tokens, i - 1))
  }

  /** Accepted input has a value, unless its trees are too deep; other input ends in a syntax error at
      some token, except that rejecting the empty token list fails on looking that token up. */
  datatype Parsed<+V> = Built(value: V) | TooDeep | SyntaxError(at: Token) | LookupError

  lemma {:induction false} RootHalf(g: Grammar, toks: seq<Token>, states: States, tree: TreeMap, root: Located)
    requires ItemsOk(g, toks, states, tree) && Has(states, root.0, root.1) && Complete(root.0)
    ensures Half(g, toks, root.0.rule, root.0.pos, root.1, root.1, [])
    ensures root.0.parent <= root.1
  {
    assert ItemOk(g, toks, states, tree, root.0, root.1);
  }

  /** Trees for the part of a rule right of the dot, spanning tokens state..end. */
  ghost predicate Half(g: Grammar, toks: seq<Token>, rule: Rule, pos: nat, state: nat, end: nat, kids: seq<Tree>) {
    && pos <= |rule.rhs| && state <= end <= |toks|
    && Derive(g, rule.rhs[pos..], kids) && Yields(kids) == toks[state..end]
  }

  lemma {:induction false} HalfMore(g: Grammar, toks: seq<Token>, rule: Rule, pos: nat, from: nat, state: nat,
      end: nat, t: Tree, kids: seq<Tree>)
    requires pos < |rule.rhs| && Half(g, toks, rule, pos + 1, state, end, kids)
    requires WellFormed(g, t) && Root(t) == rule.rhs[pos]
    requires from <= state && Yield(t) == toks[from..state]
    ensures Half(g, toks, rule, pos, from, end, [t] + kids)
  {
    assert rule.rhs[pos..] == [rule.rhs[pos]] + rule.rhs[pos + 1..];
    assert ([t] + kids)[1..] == kids;
    assert toks[from..state] + toks[state..end] == toks[from..end];
  }

  lemma {:induction false} FoldsMore<V>(inj: Token -> V, act: (Rule, seq<V>) -> V, t: Tree, kids: seq<Tree>,
      below: seq<V>)
    ensures [Fold(inj, act, t)] + (Folds(inj, act, kids) + below) == Folds(inj, act, [t] + kids) + below
  {
    assert ([t] + kids)[1..] == kids;
  }

  lemma {:induction false} FoldsFront<V>(inj: Token -> V, act: (Rule, seq<V>) -> V, kids: seq<Tree>, below: seq<V>)
    ensures var stack := Folds(inj, act, kids) + below;
            stack[..|kids|] == Folds(inj, act, kids) && stack[|kids|..] == below
    ensures kids != [] ==> Folds(inj, act, kids)[0] == Fold(inj, act, kids[0])
  {
  }

  /** The dot has reached the left end: the trees form a derivation of the whole item. */
  lemma {:induction false} HalfWhole(g: Grammar, toks: seq<Token>, states: States, tree: TreeMap, root: Located,
      state: nat, kids: seq<Tree>)
    requires ItemsOk(g, toks, states, tree) && Has(states, root.0, root.1) && Complete(root.0)
    requires root.0.parent <= state
    requires Half(g, toks, root.0.rule, 0, state, root.1, kids)
    requires Has(states, Item(root.0.rule, 0, root.0.parent), state)
    ensures state == root.0.parent && WellFormed(g, Node(root.0.rule, kids))
    ensures Yield(Node(root.0.rule, kids)) == toks[root.0.parent..root.1]
  {
    assert ItemOk(g, toks, states, tree, Item(root.0.rule, 0, root.0.parent), state);
    OriginOfPrediction(g, toks, Item(root.0.rule, 0, root.0.parent), state);
    assert ItemOk(g, toks, states, tree, root.0, root.1);
    assert root.0.rule.rhs[0..] == root.0.rule.rhs;
  }

  /** No back-pointer: a terminal stands left of the dot, and it was scanned. */
  lemma {:induction false} ScanBack(g: Grammar, toks: seq<Token>, states: States, tree: TreeMap, it: Item, m: nat)
    requires ItemsOk(g, toks, states, tree) && Has(states, it, m) && it.pos > 0 && (it, m) !in tree
    ensures it.pos <= |it.rule.rhs| && m > 0 && m <= |toks| && Has(states, Retreat(it), m - 1) && it.parent <= m - 1
    ensures WellFormed(g, Leaf(toks[m - 1])) && toks[m - 1].kind == it.rule.rhs[it.pos - 1]
  {
    assert ItemOk(g, toks, states, tree, it, m);
    assert ItemOk(g, toks, states, tree, Retreat(it), m - 1);
  }

  lemma {:induction false} ChildrenNamed(g: Grammar, toks: seq<Token>, states: States, tree: TreeMap, from: Located,
      ruleName: map<Rule, string>)
    requires ChartOk(g, toks, states, tree) && from in tree
    requires forall r :: g.HasRule(r) ==> r in ruleName
    ensures tree[from] != [] && forall c :: c in tree[from] ==> c.0.rule in ruleName
  {
    assert LinksOk(g, states, tree, from);
    forall c | c in tree[from]
      ensures c.0.rule in ruleName
    {
      assert PointerOk(g, states, from, c);
      assert ItemOk(g, toks, states, tree, c.0, c.1);
    }
  }

  /** A back-pointer leads to a finished derivation that starts where the predecessor ends. */
  lemma {:induction false} ChildBack(g: Grammar, toks: seq<Token>, states: States, tree: TreeMap, from: Located,
      c: Located)
    requires g.Valid() && ChartOk(g, toks, states, tree) && Has(states, from.0, from.1)
    requires from in tree && c in tree[from]
    ensures PointerOk(g, states, from, c)
    ensures from.0.parent <= c.0.parent <= c.1 == from.1 <= |toks|
    ensures c.0.rule.lhs != Start
  {
    assert LinksOk(g, states, tree, from);
    assert PointerOk(g, states, from, c);
    assert ItemOk(g, toks, states, tree, from.0, from.1);
    assert ItemOk(g, toks, states, tree, c.0, c.1);
    assert ItemOk(g, toks, states, tree, Retreat(from.0), c.0.parent);
    NeverPredictsStart(g, Retreat(from.0));
  }

  /** Following a pointer shortens the span, or steps down a unit production. */
  lemma {:induction false} ChildSmaller(g: Grammar, toks: seq<Token>, states: States, tree: TreeMap, from: Located,
      c: Located, root: Located, kids: seq<Tree>, rank: Symbol -> nat)
    requires g.Valid() && UnitAcyclic(g, rank) && ChartOk(g, toks, states, tree)
    requires Has(states, from.0, from.1) && from in tree && c in tree[from]
    requires from.0.rule == root.0.rule && from.0.parent == root.0.parent
    requires Half(g, toks, root.0.rule, from.0.pos, from.1, root.1, kids)
    ensures c.1 - c.0.parent < root.1 - root.0.parent
         || (c.1 - c.0.parent == root.1 - root.0.parent && rank(c.0.rule.lhs) < rank(root.0.rule.lhs))
  {
    ChildBack(g, toks, states, tree, from, c);
    if c.1 - c.0.parent == root.1 - root.0.parent {
      var before := Retreat(from.0);
      assert ItemOk(g, toks, states, tree, before, c.0.parent);
      var left :| Derive(g, before.rule.rhs[..before.pos], left) && Yields(left) == toks[before.parent..c.0.parent];
      OthersVanish(g, root.0.rule, before.pos, left, kids);
      assert AloneAt(g, root.0.rule, before.pos);
    }
  }

  /** The symbols on both sides derive the empty list. */
  lemma {:induction false} OthersVanish(g: Grammar, r: Rule, pos: nat, left: seq<Tree>, right: seq<Tree>)
    requires pos < |r.rhs|
    requires Derive(g, r.rhs[..pos], left) && Yields(left) == []
    requires Derive(g, r.rhs[pos + 1..], right) && Yields(right) == []
    ensures AloneAt(g, r, pos)
  {
    forall j | 0 <= j < |r.rhs| && j != pos
      ensures Nullable(g, r.rhs[j])
    {
      if j < pos {
        YieldsEmpty(left, j);
        assert WellFormed(g, left[j]);
      } else {
        YieldsEmpty(right, j - pos - 1);
        assert WellFormed(g, right[j - pos - 1]);
      }
    }
  }

  predicate KeyLess(a: (nat, string), b: (nat, string)) {
    a.0 < b.0 || (a.0 == b.0 && Strings.Less(a.1, b.1))
  }

  lemma {:induction false} KeyIrreflexive(a: (nat, string))
    ensures !KeyLess(a, a)
  {
    Strings.Irreflexive(a.1);
  }

  lemma {:induction false} KeyTransitive(a: (nat, string), b: (nat, string), c: (nat, string))
    requires KeyLess(a, b) && KeyLess(b, c)
    ensures KeyLess(a, c)
  {
    if a.0 == b.0 && b.0 == c.0 { Strings.Transitive(a.1, b.1, c.1); }
  }

}
