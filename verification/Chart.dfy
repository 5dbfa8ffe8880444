/** Earley charts: items, back-pointers, the invariant every step of the recogniser
    keeps, and the two directions of recogniser correctness. */
module Charts {
  import opened Options
  import opened Grammars

  /** An Earley item: rule, dot position, and the index of the state it was predicted in. */
  datatype Item = Item(rule: Rule, pos: nat, parent: nat)

  /** An item together with the index of the state holding it. */
  type Located = (Item, nat)

  type States = seq<seq<Item>>
  type TreeMap = map<Located, seq<Located>>

  predicate Complete(it: Item) {
    it.pos == |it.rule.rhs|
  }

  predicate NextIs(it: Item, s: Symbol) {
    it.pos < |it.rule.rhs| && it.rule.rhs[it.pos] == s
  }

  function Advance(it: Item): Item {
    it.(pos := it.pos + 1)
  }

  function Retreat(it: Item): Item
    requires it.pos > 0
  {
    it.(pos := it.pos - 1)
  }

  predicate Has(states: States, it: Item, m: nat) {
    m < |states| && it in states[m]
  }

  // ----- the chart invariant -----

  /** The symbols left of the dot derive exactly the tokens between the item's origin and m. */
  ghost predicate Recognised(g: Grammar, toks: seq<Token>, it: Item, m: nat) {
    && it.pos <= |it.rule.rhs| && it.parent <= m <= |toks|
    && exists kids :: Derive(g, it.rule.rhs[..it.pos], kids) && Yields(kids) == toks[it.parent..m]
  }

  /** How an item whose dot has moved came about: through a completed child that
      the tree map records, or by scanning one token. */
  ghost predicate Backed(g: Grammar, toks: seq<Token>, states: States, tree: TreeMap, it: Item, m: nat)
    requires it.pos <= |it.rule.rhs| && m <= |toks|
  {
    it.pos > 0 ==>
      var s := it.rule.rhs[it.pos - 1];
      if g.Nonterminal(s) then (it, m) in tree
      else m > 0 && toks[m - 1].kind == s && Has(states, Retreat(it), m - 1)
  }

  ghost predicate ItemOk(g: Grammar, toks: seq<Token>, states: States, tree: TreeMap, it: Item, m: nat) {
    && g.HasRule(it.rule) && (it.rule.lhs == Start ==> it.parent == 0)
    && Recognised(g, toks, it, m) && Backed(g, toks, states, tree, it, m)
    && Wanted(g, toks, it.rule.lhs, it.parent)
  }

  // ----- where a sentence may still go -----

  ghost predicate Fills(g: Grammar, s: Symbol, t: Tree) {
    WellFormed(g, t) && Root(t) == s
  }

  /** Every nonterminal derives something. */
  ghost predicate Productive(g: Grammar) {
    forall s :: g.Nonterminal(s) ==> Derives(g, s)
  }

  ghost predicate Derives(g: Grammar, s: Symbol) {
    exists t :: Fills(g, s, t)
  }

  /** A sentence with its end marker. */
  ghost predicate Sentence(g: Grammar, w: seq<Token>) {
    exists t :: IsDerivation(g, Start, w, t)
  }

  /** Whatever s derives can stand between the two token lists. */
  ghost predicate Fits(g: Grammar, before: seq<Token>, s: Symbol, after: seq<Token>) {
    forall t {:trigger Fills(g, s, t)} :: Fills(g, s, t) ==> Sentence(g, before + Yield(t) + after)
  }

  /** The tokens before position j can be followed by whatever s derives, on the way to a sentence. */
  ghost predicate Wanted(g: Grammar, toks: seq<Token>, s: Symbol, j: nat) {
    Productive(g) ==> j <= |toks| && exists after :: Fits(g, toks[..j], s, after)
  }

  /** child may be followed from the item `from`: it is a finished derivation of the symbol
      left of from's dot, and it starts where from's predecessor ends. */
  ghost predicate PointerOk(g: Grammar, states: States, from: Located, child: Located) {
    && 0 < from.0.pos <= |from.0.rule.rhs|
    && g.Nonterminal(from.0.rule.rhs[from.0.pos - 1])
    && child.1 == from.1
    && Has(states, child.0, child.1) && Complete(child.0)
    && child.0.rule.lhs == from.0.rule.rhs[from.0.pos - 1]
    && Has(states, Retreat(from.0), child.0.parent)
  }

  ghost predicate LinksOk(g: Grammar, states: States, tree: TreeMap, from: Located)
    requires from in tree
  {
    Has(states, from.0, from.1) && tree[from] != [] && forall c :: c in tree[from] ==> PointerOk(g, states, from, c)
  }

  // The quantifiers below are instantiated only where ItemOk or LinksOk is mentioned.

  ghost predicate TreeOk(g: Grammar, states: States, tree: TreeMap) {
    forall from {:trigger LinksOk(g, states, tree, from)} :: from in tree ==> LinksOk(g, states, tree, from)
  }

  ghost predicate ItemsOk(g: Grammar, toks: seq<Token>, states: States, tree: TreeMap) {
    forall m: nat, it {:trigger ItemOk(g, toks, states, tree, it, m)} ::
      Has(states, it, m) ==> ItemOk(g, toks, states, tree, it, m)
  }

  ghost predicate ChartOk(g: Grammar, toks: seq<Token>, states: States, tree: TreeMap) {
    |states| <= |toks| + 1 && ItemsOk(g, toks, states, tree) && TreeOk(g, states, tree)
  }

  /** states' differs from states only by items appended to state i. */
  ghost predicate Grown(states: States, states': States, i: nat) {
    && |states'| == |states| && i < |states|
    && (forall m :: 0 <= m < |states| && m != i ==> states'[m] == states[m])
    && states[i] <= states'[i]
  }

  // ----- what each step appends -----

  /** The predictor's one-token lookahead: a rule starting with another terminal is skipped. */
  predicate Passes(g: Grammar, token: Token, r: Rule) {
    !(|r.rhs| > 0 && !g.Nonterminal(r.rhs[0]) && token.kind != r.rhs[0])
  }

  function PredictAll(g: Grammar, token: Token, i: nat, rs: seq<Rule>): (its: seq<Item>)
    ensures forall r :: r in rs && Passes(g, token, r) ==> Item(r, 0, i) in its
    ensures forall it :: it in its ==> it.rule in rs && it.pos == 0 && it.parent == i
  {
    if rs == [] then []
    else (if Passes(g, token, rs[0]) then [Item(rs[0], 0, i)] else []) + PredictAll(g, token, i, rs[1..])
  }

  predicate Scans(g: Grammar, token: Token, it: Item) {
    it.pos < |it.rule.rhs| && !g.Nonterminal(it.rule.rhs[it.pos]) && token.kind == it.rule.rhs[it.pos]
  }

  function ScanAll(g: Grammar, token: Token, its: seq<Item>): (out: seq<Item>)
    ensures forall it :: it in its && Scans(g, token, it) ==> Advance(it) in out
  {
    if its == [] then []
    else
      var last := its[|its| - 1];
      ScanAll(g, token, its[..|its| - 1]) + if Scans(g, token, last) then [Advance(last)] else []
  }

  // ----- a state that has been processed to the end -----

  ghost predicate Predicted(g: Grammar, token: Token, state: seq<Item>, i: nat, b: Symbol) {
    g.Nonterminal(b) && forall r :: r in g.rules[b] && Passes(g, token, r) ==> Item(r, 0, i) in state
  }

  ghost predicate Completed(states: States, it: Item, i: nat)
    requires i < |states| && it.parent < |states|
  {
    forall p :: p in states[it.parent] && NextIs(p, it.rule.lhs) ==> Advance(p) in states[i]
  }

  /** If c is an empty rule and the item waits for it, the item has been advanced over it. */
  ghost predicate Skips(state: seq<Item>, it: Item, c: Item) {
    c.rule.rhs == [] && NextIs(it, c.rule.lhs) ==> Advance(it) in state
  }

  /** What one item of state m asks of the chart has been added: its completions, unless they are of
      this very state, its predictions, its advance over empty rules, and its scan. */
  ghost predicate Settled(g: Grammar, token: Token, states: States, m: nat, it: Item)
    requires m + 1 < |states|
  {
    && (forall c :: c in states[m] ==> Skips(states[m], it, c))
    && (Complete(it) && it.parent < m ==> Completed(states, it, m))
    && (it.pos < |it.rule.rhs| && g.Nonterminal(it.rule.rhs[it.pos]) ==>
          Predicted(g, token, states[m], m, it.rule.rhs[it.pos]))
    && (Scans(g, token, it) ==> Advance(it) in states[m + 1])
  }

  ghost predicate Closed(g: Grammar, toks: seq<Token>, states: States, m: nat)
    requires m + 1 < |states| && m < |toks|
  {
    forall it :: it in states[m] ==> Settled(g, toks[m], states, m, it)
  }

  // ----- soundness of the steps -----

  /** Moving the dot over a finished derivation keeps an item recognised. */
  lemma {:induction false} RecognisedOver(g: Grammar, toks: seq<Token>, it: Item, m: nat, t: Tree, n: nat)
    requires Recognised(g, toks, it, m) && it.pos < |it.rule.rhs|
    requires WellFormed(g, t) && Root(t) == it.rule.rhs[it.pos]
    requires m <= n <= |toks| && Yield(t) == toks[m..n]
    ensures Recognised(g, toks, Advance(it), n)
  {
    var kids :| Derive(g, it.rule.rhs[..it.pos], kids) && Yields(kids) == toks[it.parent..m];
    var kids' := kids + [t];
    YieldsAppend(kids, [t]);
    YieldsOne(t);
    assert it.rule.rhs[..it.pos + 1] == it.rule.rhs[..it.pos] + [it.rule.rhs[it.pos]];
    assert Derive(g, it.rule.rhs[..it.pos + 1], kids');
    assert toks[it.parent..m] + toks[m..n] == toks[it.parent..n];
  }

  lemma {:induction false} RecognisedComplete(g: Grammar, toks: seq<Token>, it: Item, m: nat) returns (t: Tree)
    requires g.HasRule(it.rule) && Recognised(g, toks, it, m) && Complete(it)
    ensures WellFormed(g, t) && Root(t) == it.rule.lhs && Yield(t) == toks[it.parent..m]
  {
    assert it.rule.rhs[..it.pos] == it.rule.rhs;
    var kids :| Derive(g, it.rule.rhs, kids) && Yields(kids) == toks[it.parent..m];
    t := Node(it.rule, kids);
  }

  lemma {:induction false} RecognisedStart(g: Grammar, toks: seq<Token>, r: Rule, i: nat)
    requires i <= |toks|
    ensures Recognised(g, toks, Item(r, 0, i), i)
  {
    assert Derive(g, r.rhs[..0], []) && Yields([]) == toks[i..i];
  }

  lemma {:induction false} OriginOfPrediction(g: Grammar, toks: seq<Token>, it: Item, m: nat)
    requires Recognised(g, toks, it, m) && it.pos == 0
    ensures it.parent == m
  {
    var kids :| Derive(g, it.rule.rhs[..it.pos], kids) && Yields(kids) == toks[it.parent..m];
    assert |toks[it.parent..m]| == 0;
  }

  lemma {:induction false} GrownHas(states: States, states': States, i: nat)
    requires Grown(states, states', i)
    ensures forall m: nat, it :: Has(states, it, m) ==> Has(states', it, m)
  {
  }

  /** Facts about existing items survive when the chart grows. */
  lemma {:induction false} ItemsKept(g: Grammar, toks: seq<Token>, states: States, tree: TreeMap, states': States,
      tree': TreeMap, i: nat)
    requires ItemsOk(g, toks, states, tree)
    requires Grown(states, states', i)
    requires tree.Keys <= tree'.Keys
    requires forall it :: it in states'[i] && it !in states[i] ==> ItemOk(g, toks, states', tree', it, i)
    ensures ItemsOk(g, toks, states', tree')
  {
    GrownHas(states, states', i);
    forall m: nat, it | Has(states', it, m)
      ensures ItemOk(g, toks, states', tree', it, m)
    {
      if Has(states, it, m) {
        assert ItemOk(g, toks, states, tree, it, m);
      } else {
        assert m == i;
      }
    }
  }

  lemma {:induction false} LinksKept(g: Grammar, states: States, tree: TreeMap, states': States, i: nat)
    requires TreeOk(g, states, tree) && Grown(states, states', i)
    ensures TreeOk(g, states', tree)
  {
    GrownHas(states, states', i);
    forall f | f in tree
      ensures LinksOk(g, states', tree, f)
    {
      assert LinksOk(g, states, tree, f);
    }
  }

  /** Appending untracked items: predictions, and items scanned into the next state. */
  lemma {:induction false} AppendKeeps(g: Grammar, toks: seq<Token>, states: States, tree: TreeMap, i: nat,
      its: seq<Item>)
    requires ChartOk(g, toks, states, tree) && i < |states|
    requires forall it :: it in its ==> ItemOk(g, toks, states, tree, it, i)
    ensures ChartOk(g, toks, states[i := states[i] + its], tree)
  {
    var states' := states[i := states[i] + its];
    GrownHas(states, states', i);
    LinksKept(g, states, tree, states', i);
    ItemsKept(g, toks, states, tree, states', tree, i);
  }

  /** The tree map after one more way to reach `from` has been found. */
  function Link(tree: TreeMap, from: Located, child: Located): TreeMap {
    tree[from := (if from in tree then tree[from] else []) + [child]]
  }

  /** State i after an item has been added to it, unless it was there already. */
  function Insert(states: States, i: nat, it: Item): States
    requires i < |states|
  {
    if it in states[i] then states else states[i := states[i] + [it]]
  }

  lemma {:induction false} LinkRecognised(g: Grammar, toks: seq<Token>, states: States, tree: TreeMap, i: nat,
      it: Item, child: Located)
    requires ItemsOk(g, toks, states, tree)
    requires PointerOk(g, states, (it, i), child)
    ensures g.HasRule(it.rule) && (it.rule.lhs == Start ==> it.parent == 0) && Recognised(g, toks, it, i)
    ensures Wanted(g, toks, it.rule.lhs, it.parent)
  {
    var before := Retreat(it);
    assert ItemOk(g, toks, states, tree, before, child.0.parent);
    assert ItemOk(g, toks, states, tree, child.0, i);
    var t := RecognisedComplete(g, toks, child.0, i);
    RecognisedOver(g, toks, before, child.0.parent, t, i);
    assert Advance(before) == it;
  }

  lemma {:induction false} TrackedIffPresent(g: Grammar, toks: seq<Token>, states: States, tree: TreeMap, i: nat,
      it: Item, child: Located)
    requires ChartOk(g, toks, states, tree) && i < |states|
    requires PointerOk(g, states, (it, i), child)
    ensures it in states[i] <==> (it, i) in tree
  {
    if it in states[i] {
      assert Has(states, it, i) && ItemOk(g, toks, states, tree, it, i);
    }
    if (it, i) in tree {
      assert LinksOk(g, states, tree, (it, i));
    }
  }

  /** The completer's step keeps the chart invariant. */
  lemma {:induction false} LinkKeeps(g: Grammar, toks: seq<Token>, states: States, tree: TreeMap, i: nat, it: Item,
      child: Located)
    requires ChartOk(g, toks, states, tree) && i < |states|
    requires PointerOk(g, states, (it, i), child)
    ensures ChartOk(g, toks, Insert(states, i, it), Link(tree, (it, i), child))
  {
    var from := (it, i);
    var states' := Insert(states, i, it);
    var tree' := Link(tree, from, child);
    GrownHas(states, states', i);
    LinksKept(g, states, tree, states', i);
    forall f | f in tree'
      ensures LinksOk(g, states', tree', f)
    {
      if f in tree {
        assert LinksOk(g, states', tree, f);
      }
    }
    LinkRecognised(g, toks, states, tree, i, it, child);
    ItemsKept(g, toks, states, tree, states', tree', i);
  }

  // ----- soundness of acceptance -----

  lemma {:induction false} AcceptanceIsSound(g: Grammar, tokens: seq<Token>, states: States, tree: TreeMap)
    requires g.Valid()
    requires ChartOk(g, tokens + [EOF_TOKEN], states, tree)
    requires Has(states, Item(g.StartRule(), 2, 0), |tokens| + 1)
    ensures InLanguage(g, tokens)
  {
    var toks := tokens + [EOF_TOKEN];
    var it := Item(g.StartRule(), 2, 0);
    assert ItemOk(g, toks, states, tree, it, |toks|);
    var t := RecognisedComplete(g, toks, it, |toks|);
    StartTree(g, tokens, t);
  }

  lemma {:induction false} StartTree(g: Grammar, tokens: seq<Token>, t: Tree)
    requires g.Valid() && WellFormed(g, t) && Root(t) == Start && Yield(t) == tokens + [EOF_TOKEN]
    ensures t.Node? && t.rule == g.StartRule() && |t.kids| == 2
    ensures IsDerivation(g, g.start, tokens, t.kids[0])
  {
    var kids := t.kids;
    assert t.rule == g.StartRule();
    assert kids == [kids[0]] + [kids[1]];
    YieldsAppend([kids[0]], [kids[1]]);
    YieldsOne(kids[0]);
    YieldsOne(kids[1]);
    assert kids[1].Leaf? by {
      assert WellFormed(g, kids[1]) && Root(kids[1]) == Eof;
    }
    assert Yield(kids[0]) == (Yield(kids[0]) + [kids[1].tok])[..|tokens|];
  }

  // ----- completeness -----

  /** All states up to index n have been processed. */
  ghost predicate AllClosed(g: Grammar, toks: seq<Token>, states: States, n: nat) {
    n < |states| && n <= |toks| && forall m :: 0 <= m < n ==> Closed(g, toks, states, m)
  }

  /** Whatever the rest of a rule derives, the chart follows: predictions are never
      pruned wrongly, and every completion finds the item that waited for it. */
  lemma {:induction false} ChartFollows(g: Grammar, toks: seq<Token>, states: States, n: nat, it: Item, i: nat,
      ts: seq<Tree>, k: nat)
    requires g.OwnEmpties() && AllClosed(g, toks, states, n)
    requires Has(states, it, i) && it.pos + |ts| <= |it.rule.rhs|
    requires Derive(g, it.rule.rhs[it.pos..it.pos + |ts|], ts)
    requires i <= k < n && Yields(ts) == toks[i..k]
    ensures Has(states, it.(pos := it.pos + |ts|), k)
    decreases ts
  {
    if ts == [] {
      assert |toks[i..k]| == 0;
    } else {
      var j := i + |Yield(ts[0])|;
      FirstTree(g, toks, it, i, ts, k);
      ChartFollowsOne(g, toks, states, n, it, i, ts[0], j);
      ChartFollows(g, toks, states, n, Advance(it), j, ts[1..], k);
    }
  }

  /** Splitting a forest that derives tokens i..k after its first tree. */
  lemma {:induction false} FirstTree(g: Grammar, toks: seq<Token>, it: Item, i: nat, ts: seq<Tree>, k: nat)
    requires ts != [] && it.pos + |ts| <= |it.rule.rhs|
    requires Derive(g, it.rule.rhs[it.pos..it.pos + |ts|], ts)
    requires i <= k <= |toks| && Yields(ts) == toks[i..k]
    ensures var j := i + |Yield(ts[0])|;
            && i <= j <= k && Yield(ts[0]) == toks[i..j] && Yields(ts[1..]) == toks[j..k]
            && WellFormed(g, ts[0]) && Root(ts[0]) == it.rule.rhs[it.pos]
            && Derive(g, it.rule.rhs[it.pos + 1..it.pos + |ts|], ts[1..])
  {
    var j := i + |Yield(ts[0])|;
    assert toks[i..k] == Yield(ts[0]) + Yields(ts[1..]);
    assert toks[i..j] == toks[i..k][..|Yield(ts[0])|];
    assert toks[j..k] == toks[i..k][|Yield(ts[0])|..];
  }

  lemma {:induction false} ChartFollowsOne(g: Grammar, toks: seq<Token>, states: States, n: nat, it: Item, i: nat,
      t: Tree, j: nat)
    requires g.OwnEmpties() && AllClosed(g, toks, states, n)
    requires Has(states, it, i) && it.pos < |it.rule.rhs|
    requires WellFormed(g, t) && Root(t) == it.rule.rhs[it.pos]
    requires i <= j < n && Yield(t) == toks[i..j]
    ensures Has(states, Advance(it), j)
    decreases t
  {
    if i == j {
      EmptyYield(g, t);
      var empty := Rule(Root(t), []);
      PredictFollows(g, toks, states, n, it, i, empty);
      SkipFollows(g, toks, states, n, it, i, Item(empty, 0, i));
    } else if t.Leaf? {
      assert t.tok == toks[i];
      ScanFollows(g, toks, states, n, it, i);
    } else {
      var r, kids := t.rule, t.kids;
      FirstTerminal(g, r, kids);
      assert Yields(kids)[0] == toks[i];
      PredictFollows(g, toks, states, n, it, i, r);
      assert r.rhs[0..0 + |kids|] == r.rhs;
      ChartFollows(g, toks, states, n, Item(r, 0, i), i, kids, j);
      CompleteFollows(g, toks, states, n, it, i, Item(r, |r.rhs|, i), j);
    }
  }

  lemma {:induction false} SkipFollows(g: Grammar, toks: seq<Token>, states: States, n: nat, it: Item, i: nat,
      c: Item)
    requires AllClosed(g, toks, states, n) && i < n
    requires Has(states, it, i) && Has(states, c, i) && c.rule.rhs == [] && NextIs(it, c.rule.lhs)
    ensures Has(states, Advance(it), i)
  {
    assert Closed(g, toks, states, i);
    assert Settled(g, toks[i], states, i, it);
    assert Skips(states[i], it, c);
  }

  lemma {:induction false} ScanFollows(g: Grammar, toks: seq<Token>, states: States, n: nat, it: Item, i: nat)
    requires AllClosed(g, toks, states, n) && i < n
    requires Has(states, it, i) && Scans(g, toks[i], it)
    ensures Has(states, Advance(it), i + 1)
  {
    assert Closed(g, toks, states, i);
  }

  lemma {:induction false} PredictFollows(g: Grammar, toks: seq<Token>, states: States, n: nat, it: Item, i: nat,
      r: Rule)
    requires AllClosed(g, toks, states, n) && i < n
    requires Has(states, it, i) && NextIs(it, r.lhs)
    requires g.HasRule(r) && Passes(g, toks[i], r)
    ensures Has(states, Item(r, 0, i), i)
  {
    assert Closed(g, toks, states, i);
    assert Settled(g, toks[i], states, i, it);
  }

  lemma {:induction false} CompleteFollows(g: Grammar, toks: seq<Token>, states: States, n: nat, it: Item, i: nat,
      done: Item, j: nat)
    requires AllClosed(g, toks, states, n) && i < j < n
    requires Has(states, it, i) && NextIs(it, done.rule.lhs)
    requires Has(states, done, j) && Complete(done) && done.parent == i
    ensures Has(states, Advance(it), j)
  {
    assert Closed(g, toks, states, j);
    assert Settled(g, toks[j], states, j, done);
  }

  /** A derivation of a rule starting with a terminal starts with that very token. */
  lemma {:induction false} FirstTerminal(g: Grammar, r: Rule, kids: seq<Tree>)
    requires Derive(g, r.rhs, kids) && r.rhs != []
    ensures !g.Nonterminal(r.rhs[0]) ==> Yields(kids) != [] && Yields(kids)[0].kind == r.rhs[0]
  {
    if !g.Nonterminal(r.rhs[0]) { assert kids[0].Leaf?; }
  }

  /** A token list of the language leads the chart to the accepting item. */
  lemma {:induction false} AcceptanceIsComplete(g: Grammar, tokens: seq<Token>, states: States)
    requires g.Valid() && g.OwnEmpties()
    requires AllClosed(g, tokens + [EOF_TOKEN], states, |tokens| + 1)
    requires Has(states, Item(g.StartRule(), 0, 0), 0)
    requires InLanguage(g, tokens)
    ensures Has(states, Item(g.StartRule(), 2, 0), |tokens| + 1)
  {
    var toks := tokens + [EOF_TOKEN];
    var it := Item(g.StartRule(), 0, 0);
    var t :| IsDerivation(g, g.start, tokens, t);
    assert it.rule.rhs[0..1] == [g.start];
    YieldsOne(t);
    assert toks[0..|tokens|] == tokens;
    ChartFollows(g, toks, states, |tokens| + 1, it, 0, [t], |tokens|);
    ScanFollows(g, toks, states, |tokens| + 1, Advance(it), |tokens|);
  }

  // ----- viable prefixes -----

  /** If what an item still derives begins with the tokens up to k and goes on beyond them,
      state k holds an item. */
  lemma {:induction false} PrefixReaches(g: Grammar, toks: seq<Token>, states: States, n: nat, it: Item, i: nat,
      ts: seq<Tree>, k: nat)
    requires g.OwnEmpties() && AllClosed(g, toks, states, n)
    requires Has(states, it, i) && it.pos + |ts| <= |it.rule.rhs|
    requires Derive(g, it.rule.rhs[it.pos..it.pos + |ts|], ts)
    requires i <= k < n && toks[i..k] <= Yields(ts) && k - i < |Yields(ts)|
    ensures states[k] != []
    decreases ts
  {
    if i < k {
      var t := ts[0];
      var j := i + |Yield(t)|;
      FirstOfPrefix(g, toks, it, i, ts, k);
      if j <= k {
        ChartFollowsOne(g, toks, states, n, it, i, t, j);
        PrefixReaches(g, toks, states, n, Advance(it), j, ts[1..], k);
      } else {
        PrefixReachesInto(g, toks, states, n, it, i, t, k);
      }
    }
  }

  /** A forest that begins with tokens i..k: its first tree ends among them, or goes on beyond them. */
  lemma {:induction false} FirstOfPrefix(g: Grammar, toks: seq<Token>, it: Item, i: nat, ts: seq<Tree>, k: nat)
    requires ts != [] && it.pos + |ts| <= |it.rule.rhs| && Derive(g, it.rule.rhs[it.pos..it.pos + |ts|], ts)
    requires i <= k <= |toks| && toks[i..k] <= Yields(ts) && k - i < |Yields(ts)|
    ensures WellFormed(g, ts[0]) && Root(ts[0]) == it.rule.rhs[it.pos]
    ensures Derive(g, it.rule.rhs[it.pos + 1..it.pos + |ts|], ts[1..])
    ensures var j := i + |Yield(ts[0])|;
            if j <= k then Yield(ts[0]) == toks[i..j] && toks[j..k] <= Yields(ts[1..]) && k - j < |Yields(ts[1..])|
            else toks[i..k] <= Yield(ts[0])
  {
    var t := ts[0];
    var j := i + |Yield(t)|;
    var syms := it.rule.rhs[it.pos..it.pos + |ts|];
    assert WellFormed(g, t) && Root(t) == syms[0];
    assert Yields(ts) == Yield(t) + Yields(ts[1..]);
    assert it.rule.rhs[it.pos + 1..it.pos + |ts|] == syms[1..];
    if j <= k {
      assert toks[i..j] == toks[i..k][..j - i] && toks[j..k] == toks[i..k][j - i..];
    }
  }

  lemma {:induction false} PrefixReachesInto(g: Grammar, toks: seq<Token>, states: States, n: nat, it: Item, i: nat,
      t: Tree, k: nat)
    requires g.OwnEmpties() && AllClosed(g, toks, states, n)
    requires Has(states, it, i) && it.pos < |it.rule.rhs|
    requires WellFormed(g, t) && Root(t) == it.rule.rhs[it.pos]
    requires i < k < n && toks[i..k] <= Yield(t) && k - i < |Yield(t)|
    ensures states[k] != []
    decreases t
  {
    assert t.Node?;
    FirstTerminal(g, t.rule, t.kids);
    assert Yield(t)[0] == toks[i..k][0] == toks[i];
    PredictFollows(g, toks, states, n, it, i, t.rule);
    assert t.rule.rhs[0..0 + |t.kids|] == t.rule.rhs;
    PrefixReaches(g, toks, states, n, Item(t.rule, 0, i), i, t.kids, k);
  }

  /** No sentence starts with the first k tokens. */
  ghost predicate DeadPrefix(g: Grammar, tokens: seq<Token>, k: nat)
    requires k <= |tokens|
  {
    forall w :: InLanguage(g, w) ==> !(tokens[..k] <= w)
  }

  /** A state that stays empty condemns the tokens read so far, whatever follows them. */
  lemma {:induction false} EmptyStateIsDead(g: Grammar, tokens: seq<Token>, states: States, k: nat)
    requires g.Valid() && g.OwnEmpties() && k <= |tokens|
    requires AllClosed(g, tokens + [EOF_TOKEN], states, |tokens| + 1)
    requires Has(states, Item(g.StartRule(), 0, 0), 0)
    requires states[k] == []
    ensures DeadPrefix(g, tokens, k)
  {
    var toks := tokens + [EOF_TOKEN];
    var it := Item(g.StartRule(), 0, 0);
    forall w | InLanguage(g, w) && tokens[..k] <= w
      ensures false
    {
      var t :| IsDerivation(g, g.start, w, t);
      var ts := [t, Leaf(EOF_TOKEN)];
      assert ts == [t] + [Leaf(EOF_TOKEN)];
      YieldsAppend([t], [Leaf(EOF_TOKEN)]);
      YieldsOne(t);
      YieldsOne(Leaf(EOF_TOKEN));
      assert it.rule.rhs[0..2] == [g.start, Eof];
      assert toks[0..k] == tokens[..k];
      PrefixReaches(g, toks, states, |toks|, it, 0, ts, k);
    }
  }

  // ----- the last state -----

  /** Scanning the end marker keeps nothing but the start item, once. */
  lemma {:induction false} LastState(g: Grammar, its: seq<Item>)
    requires g.Valid()
    requires forall it :: it in its ==> g.HasRule(it.rule) && (it.rule.lhs == Start ==> it.parent == 0)
    requires multiset(its)[Item(g.StartRule(), 1, 0)] <= 1
    ensures ScanAll(g, EOF_TOKEN, its) ==
            if Item(g.StartRule(), 1, 0) in its then [Item(g.StartRule(), 2, 0)] else []
  {
    if its != [] {
      var last := its[|its| - 1];
      var front := its[..|its| - 1];
      assert its == front + [last];
      assert forall it :: it in front ==> it in its;
      LastState(g, front);
      assert last in its;
      ScansEnd(g, last);
      assert multiset(its) == multiset(front) + multiset{last};
    }
  }

  lemma {:induction false} ScansEnd(g: Grammar, it: Item)
    requires g.Valid() && g.HasRule(it.rule) && (it.rule.lhs == Start ==> it.parent == 0)
    ensures Scans(g, EOF_TOKEN, it) <==> it == Item(g.StartRule(), 1, 0)
  {
    if it.rule.lhs == Start {
      assert it.rule == g.StartRule();
    } else {
      assert Eof !in it.rule.rhs;
    }
  }

  /** A chart whose construction stopped early, filled up with empty states. */
  function Padded(states: States, n: nat): States {
    states + seq(n, _ => [])
  }

  lemma {:induction false} PaddedClosed(g: Grammar, toks: seq<Token>, states: States, last: nat)
    requires |states| == last + 2 && last < |toks|
    requires last + 1 < |toks| ==> states[last] == [] && states[last + 1] == []
    requires forall m :: 0 <= m <= last ==> Closed(g, toks, states, m)
    ensures AllClosed(g, toks, Padded(states, |toks| - last - 1), |toks|)
  {
    var states' := Padded(states, |toks| - last - 1);
    forall m | 0 <= m < |toks|
      ensures Closed(g, toks, states', m)
    {
      if m <= last {
        assert Closed(g, toks, states, m);
        forall it | it in states'[m]
          ensures Settled(g, toks[m], states', m, it)
        {
          assert Settled(g, toks[m], states, m, it);
        }
      } else {
        assert states'[m] == [];
      }
    }
  }

  // ----- contexts -----

  /** The start symbol is wanted at the beginning. */
  lemma {:induction false} StartWanted(g: Grammar, toks: seq<Token>)
    ensures Wanted(g, toks, Start, 0)
  {
    forall t | Fills(g, Start, t)
      ensures Sentence(g, toks[..0] + Yield(t) + [])
    {
      assert toks[..0] + Yield(t) + [] == Yield(t);
      assert IsDerivation(g, Start, Yield(t), t);
    }
    assert Fits(g, toks[..0], Start, []);
  }

  /** Any symbols derive something in a productive grammar. */
  lemma {:induction false} RestDerives(g: Grammar, syms: seq<Symbol>) returns (ts: seq<Tree>)
    requires Productive(g)
    ensures Derive(g, syms, ts)
  {
    if syms == [] {
      ts := [];
    } else {
      var t;
      if g.Nonterminal(syms[0]) {
        assert Derives(g, syms[0]);
        t :| Fills(g, syms[0], t);
      } else {
        t := Leaf(Token(syms[0], "", "", None));
      }
      var rest := RestDerives(g, syms[1..]);
      ts := [t] + rest;
    }
  }

  /** Trees for the left part, the middle and the right part of a rule make a tree of the rule. */
  lemma {:induction false} AroundDot(g: Grammar, r: Rule, pos: nat, left: seq<Tree>, t: Tree, right: seq<Tree>)
    requires g.HasRule(r) && pos < |r.rhs|
    requires Derive(g, r.rhs[..pos], left) && Fills(g, r.rhs[pos], t) && Derive(g, r.rhs[pos + 1..], right)
    ensures var whole := Node(r, left + [t] + right);
            Fills(g, r.lhs, whole) && Yield(whole) == Yields(left) + Yield(t) + Yields(right)
  {
    var kids := left + [t] + right;
    forall k | 0 <= k < |kids|
      ensures WellFormed(g, kids[k]) && Root(kids[k]) == r.rhs[k]
    {
      if k < pos {
        assert kids[k] == left[k] && r.rhs[..pos][k] == r.rhs[k];
      } else if k > pos {
        assert kids[k] == right[k - pos - 1] && r.rhs[pos + 1..][k - pos - 1] == r.rhs[k];
      }
    }
    YieldsAppend(left + [t], right);
    YieldsAppend(left, [t]);
    YieldsOne(t);
  }

  /** A symbol behind the dot is wanted where the item ends. */
  lemma {:induction false} NextWanted(g: Grammar, toks: seq<Token>, it: Item, m: nat)
    requires g.HasRule(it.rule) && Recognised(g, toks, it, m) && it.pos < |it.rule.rhs|
    requires Wanted(g, toks, it.rule.lhs, it.parent)
    ensures Wanted(g, toks, it.rule.rhs[it.pos], m)
  {
    if Productive(g) {
      var after :| Fits(g, toks[..it.parent], it.rule.lhs, after);
      var left :| Derive(g, it.rule.rhs[..it.pos], left) && Yields(left) == toks[it.parent..m];
      var right := RestDerives(g, it.rule.rhs[it.pos + 1..]);
      FitsInside(g, toks, it, m, left, right, after);
    }
  }

  lemma {:induction false} FitsInside(g: Grammar, toks: seq<Token>, it: Item, m: nat, left: seq<Tree>,
      right: seq<Tree>, after: seq<Token>)
    requires g.HasRule(it.rule) && it.pos < |it.rule.rhs| && it.parent <= m <= |toks|
    requires Derive(g, it.rule.rhs[..it.pos], left) && Yields(left) == toks[it.parent..m]
    requires Derive(g, it.rule.rhs[it.pos + 1..], right) && Fits(g, toks[..it.parent], it.rule.lhs, after)
    ensures Fits(g, toks[..m], it.rule.rhs[it.pos], Yields(right) + after)
  {
    forall t | Fills(g, it.rule.rhs[it.pos], t)
      ensures Sentence(g, toks[..m] + Yield(t) + (Yields(right) + after))
    {
      AroundDot(g, it.rule, it.pos, left, t, right);
      var whole := Node(it.rule, left + [t] + right);
      assert Fills(g, it.rule.lhs, whole);
      Regroup(toks, it.parent, m, Yield(t), Yields(right), after);
    }
  }

  lemma {:induction false} Regroup(toks: seq<Token>, j: nat, m: nat, a: seq<Token>, b: seq<Token>, c: seq<Token>)
    requires j <= m <= |toks|
    ensures toks[..j] + (toks[j..m] + a + b) + c == toks[..m] + a + (b + c)
  {
  }

  /** The tokens up to k begin a sentence, in a productive grammar; or an end marker is among them. */
  ghost predicate Viable(g: Grammar, tokens: seq<Token>, k: nat)
    requires k <= |tokens|
  {
    CanBegin(g, tokens[..k])
  }

  ghost predicate CanBegin(g: Grammar, front: seq<Token>) {
    (exists more :: InLanguage(g, front + more)) || exists j :: 0 <= j < |front| && front[j].kind == Eof
  }

  /** A state that holds an item is reached by tokens that begin a sentence. */
  lemma {:induction false} ItemIsViable(g: Grammar, tokens: seq<Token>, states: States, tree: TreeMap, it: Item,
      m: nat)
    requires g.Valid() && Productive(g) && m <= |tokens|
    requires ItemOk(g, tokens + [EOF_TOKEN], states, tree, it, m)
    ensures Viable(g, tokens, m)
  {
    var toks := tokens + [EOF_TOKEN];
    var more := ItemContinues(g, toks, it, m);
    assert toks[..m] == tokens[..m];
    SentenceEnds(g, tokens[..m], more);
  }

  lemma {:induction false} ItemContinues(g: Grammar, toks: seq<Token>, it: Item, m: nat) returns (more: seq<Token>)
    requires Productive(g) && g.HasRule(it.rule) && Recognised(g, toks, it, m)
    requires Wanted(g, toks, it.rule.lhs, it.parent)
    ensures Sentence(g, toks[..m] + more)
  {
    var after :| Fits(g, toks[..it.parent], it.rule.lhs, after);
    var left :| Derive(g, it.rule.rhs[..it.pos], left) && Yields(left) == toks[it.parent..m];
    var right := RestDerives(g, it.rule.rhs[it.pos..]);
    more := Yields(right) + after;
    BothSides(g, it.rule, it.pos, left, right);
    assert Fills(g, it.rule.lhs, Node(it.rule, left + right));
    Regroup(toks, it.parent, m, [], Yields(right), after);
    Empty(toks[it.parent..m]);
    Empty(toks[..m]);
  }

  lemma {:induction false} BothSides(g: Grammar, r: Rule, pos: nat, left: seq<Tree>, right: seq<Tree>)
    requires g.HasRule(r) && pos <= |r.rhs| && Derive(g, r.rhs[..pos], left) && Derive(g, r.rhs[pos..], right)
    ensures var whole := Node(r, left + right); Fills(g, r.lhs, whole) && Yield(whole) == Yields(left) + Yields(right)
  {
    var kids := left + right;
    forall k | 0 <= k < |kids|
      ensures WellFormed(g, kids[k]) && Root(kids[k]) == r.rhs[k]
    {
      if k >= pos { assert kids[k] == right[k - pos] && r.rhs[pos..][k - pos] == r.rhs[k]; }
    }
    YieldsAppend(left, right);
  }

  /** A sentence is a token list of the language and an end marker. */
  lemma {:induction false} SentenceEnds(g: Grammar, front: seq<Token>, more: seq<Token>)
    requires g.Valid() && Sentence(g, front + more)
    ensures CanBegin(g, front)
  {
    var t :| IsDerivation(g, Start, front + more, t);
    var kids := t.kids;
    assert t.rule == g.StartRule();
    assert kids == [kids[0]] + [kids[1]];
    YieldsAppend([kids[0]], [kids[1]]);
    YieldsOne(kids[0]);
    YieldsOne(kids[1]);
    assert kids[1].Leaf? by { assert WellFormed(g, kids[1]) && Root(kids[1]) == Eof; }
    var last := kids[1].tok;
    assert front + more == Yield(kids[0]) + [last];
    if more == [] {
      assert front == Yield(kids[0]) + [last];
      assert front[|front| - 1] == last;
    } else {
      var w := more[..|more| - 1];
      assert (front + more)[..|front + more| - 1] == front + w;
      assert (Yield(kids[0]) + [last])[..|Yield(kids[0])|] == Yield(kids[0]);
      assert IsDerivation(g, g.start, front + w, kids[0]);
      assert InLanguage(g, front + w);
    }
  }
}
