/** Which grammars the recogniser is exact on, and how every other one comes to lose a sentence. */
module LostSentences {
  import opened Options
  import opened Grammars
  import opened Charts
  import opened Recognition

  // ----- one more rule on top of a grammar -----

  /** The symbol occurs nowhere in the grammar. */
  ghost predicate New(g: Grammar, s: Symbol) {
    s != Start && s != Eof && !g.Nonterminal(s) && forall r :: g.HasRule(r) ==> s !in r.rhs
  }

  /** A rule for a new start symbol, with something in it that needs a token. */
  ghost predicate TopRule(g: Grammar, r: Rule) {
    New(g, r.lhs) && r.lhs !in r.rhs && Start !in r.rhs && Eof !in r.rhs && g.Anchored(r)
  }

  function Topped(g: Grammar, r: Rule): Grammar {
    Grammar(g.rules[Start := [Rule(Start, [r.lhs, Eof])]][r.lhs := [r]], r.lhs)
  }

  lemma {:induction false} ToppedRules(g: Grammar, r: Rule)
    requires g.Valid() && TopRule(g, r)
    ensures var h := Topped(g, r);
            && h.Valid()
            && (forall q :: h.HasRule(q) <==> q == r || q == h.StartRule() || (g.HasRule(q) && q.lhs != Start))
            && (forall s :: h.Vanishes(s) <==> g.Vanishes(s))
            && (forall q :: h.Anchored(q) <==> g.Anchored(q))
  {
    var h := Topped(g, r);
    assert forall s :: h.Vanishes(s) <==> g.Vanishes(s);
    forall q
      ensures h.Anchored(q) <==> g.Anchored(q)
    {
      SameAnchors(g, h, q);
      SameAnchors(h, g, q);
    }
  }

  lemma {:induction false} SameAnchors(g: Grammar, h: Grammar, q: Rule)
    requires forall s :: g.Vanishes(s) <==> h.Vanishes(s)
    ensures g.Anchored(q) ==> h.Anchored(q)
  {
    if k :| 0 <= k < |q.rhs| && !g.Vanishes(q.rhs[k]) {
      assert !h.Vanishes(q.rhs[k]);
    }
  }

  lemma {:induction false} ToppedOwnEmpties(g: Grammar, r: Rule)
    requires g.Valid() && g.OwnEmpties() && TopRule(g, r)
    ensures Topped(g, r).OwnEmpties()
  {
    var h := Topped(g, r);
    ToppedRules(g, r);
    assert !g.Vanishes(h.StartRule().rhs[1]);
    assert g.Anchored(h.StartRule());
  }

  // ----- a symbol that vanishes, though not by a rule of its own, before a terminal -----

  /** The top rule has more of the symbol a than a has rules, and then a terminal found nowhere else. */
  ghost predicate Lossy(h: Grammar, top: Rule, a: Symbol) {
    && h.Valid() && h.Nonterminal(a) && !h.Vanishes(a) && |h.rules[a]| + 1 < |top.rhs|
    && (forall k :: 0 <= k < |top.rhs| - 1 ==> top.rhs[k] == a)
    && !h.Nonterminal(top.rhs[|top.rhs| - 1])
    && (forall q :: h.HasRule(q) && top.rhs[|top.rhs| - 1] in q.rhs ==> q == top)
  }

  function DoneItems(items: seq<Item>, a: Symbol): set<Item> {
    set it | it in items && Complete(it) && it.rule.lhs == a
  }

  /** No dot in the top rule is further than there are completed items for a before it; and none of
      those is there twice. */
  ghost predicate Counted(items: seq<Item>, top: Rule, a: Symbol) {
    && (forall j :: 0 <= j < |items| && items[j].rule == top ==> items[j].pos <= |DoneItems(items[..j], a)|)
    && (forall j, k :: 0 <= j < k < |items| && Complete(items[k]) && items[k].rule.lhs == a ==> items[j] != items[k])
  }

  lemma {:induction false} DoneMonotone(items: seq<Item>, more: seq<Item>, a: Symbol)
    requires forall it :: it in items ==> it in more
    ensures |DoneItems(items, a)| <= |DoneItems(more, a)|
  {
    SubsetSize(DoneItems(items, a), DoneItems(more, a));
  }

  lemma {:induction false} SubsetSize<T>(a: set<T>, b: set<T>)
    requires a <= b
    ensures |a| <= |b|
  {
    assert b == a + (b - a);
  }

  lemma {:induction false} CountedAppend(items: seq<Item>, it: Item, top: Rule, a: Symbol)
    requires Counted(items, top, a)
    requires it.rule == top ==> it.pos <= |DoneItems(items, a)|
    requires Complete(it) && it.rule.lhs == a ==> it !in items
    ensures Counted(items + [it], top, a)
  {
    var items' := items + [it];
    forall j | 0 <= j < |items'| && items'[j].rule == top
      ensures items'[j].pos <= |DoneItems(items'[..j], a)|
    {
      assert items'[..j] == items[..j];
      assert items[..|items|] == items;
    }
  }

  lemma {:induction false} CountedPredictions(items: seq<Item>, its: seq<Item>, top: Rule, a: Symbol)
    requires Counted(items, top, a)
    requires forall it :: it in its ==> it.pos == 0 && !(Complete(it) && it.rule.lhs == a)
    ensures Counted(items + its, top, a)
    decreases its
  {
    if its == [] {
      assert items + its == items;
    } else {
      CountedAppend(items, its[0], top, a);
      CountedPredictions(items + [its[0]], its[1..], top, a);
      assert items + [its[0]] + its[1..] == items + its;
    }
  }

  /** A dot in the top rule moves on over an item completed for the first time. */
  lemma {:induction false} DotMovesOn(h: Grammar, items: seq<Item>, more: seq<Item>, j: nat, k: nat, top: Rule,
      a: Symbol)
    requires Lossy(h, top, a) && Counted(items, top, a) && Counted(more, top, a) && items <= more
    requires j < k < |items| && Complete(items[k]) && h.Nonterminal(items[k].rule.lhs)
    requires NextIs(items[j], items[k].rule.lhs) && Advance(items[j]) !in more
    ensures Counted(more + [Advance(items[j])], top, a)
  {
    if items[j].rule == top { OneMoreDone(items, more, j, k, a); }
    CountedAppend(more, Advance(items[j]), top, a);
  }

  /** The completer's turn. */
  lemma {:induction false} CountedAdvances(h: Grammar, states: States, k: nat, m: nat, top: Rule, a: Symbol)
    requires Lossy(h, top, a) && 0 < |states| && k < |states[0]| && m <= k
    requires Complete(states[0][k]) && h.Nonterminal(states[0][k].rule.lhs)
    requires Counted(states[0], top, a)
    ensures var states' := AdvanceAll(states, 0, states[0][..m], states[0][k].rule.lhs);
            states[0] <= states'[0] && Counted(states'[0], top, a)
  {
    if m > 0 {
      CountedAdvances(h, states, k, m - 1, top, a);
      AdvanceNext(states, 0, states[0], m - 1, states[0][k].rule.lhs);
      var states' := AdvanceAll(states, 0, states[0][..m - 1], states[0][k].rule.lhs);
      CountedInserts(h, states[0], states', m - 1, k, top, a);
    }
  }

  lemma {:induction false} CountedInserts(h: Grammar, items: seq<Item>, states: States, j: nat, k: nat, top: Rule,
      a: Symbol)
    requires Lossy(h, top, a) && 0 < |states| && items <= states[0] && j < k < |items|
    requires Complete(items[k]) && h.Nonterminal(items[k].rule.lhs)
    requires Counted(items, top, a) && Counted(states[0], top, a)
    ensures var states' := if NextIs(items[j], items[k].rule.lhs) then Insert(states, 0, Advance(items[j])) else states;
            items <= states'[0] && Counted(states'[0], top, a)
  {
    if NextIs(items[j], items[k].rule.lhs) && Advance(items[j]) !in states[0] {
      DotMovesOn(h, items, states[0], j, k, top, a);
    }
  }

  lemma {:induction false} OneMoreDone(items: seq<Item>, more: seq<Item>, j: nat, k: nat, a: Symbol)
    requires j <= k < |items| && Complete(items[k]) && items[k].rule.lhs == a && items <= more
    requires forall m :: 0 <= m < k ==> items[m] != items[k]
    ensures |DoneItems(items[..j], a)| + 1 <= |DoneItems(more, a)|
  {
    var before := DoneItems(items[..j], a);
    assert items[k] == more[k] && items[k] !in before;
    assert forall it :: it in items[..j] ==> it in more;
    SubsetSize(before + {items[k]}, DoneItems(more, a));
  }

  lemma {:induction false} CountedTurn(h: Grammar, token: Token, k: nat, w: Work, top: Rule, a: Symbol)
    requires Lossy(h, top, a) && Underway(h, token, 0, k, w) && k < |w.states[0]| && w.states[0][k].parent == 0
    requires Counted(w.states[0], top, a)
    ensures Counted(TurnOf(h, token, 0, k, w).states[0], top, a)
  {
    var items := w.states[0];
    var item := items[k];
    assert Has(w.states, item, 0) && Plain(h, item, 0);
    if Complete(item) {
      CountedAdvances(h, w.states, k, k, top, a);
    } else if h.Nonterminal(item.rule.rhs[item.pos]) {
      var next := item.rule.rhs[item.pos];
      if next in w.needs { CountedOver(h, w, k, top, a); }
      var over := if next in w.needs then Insert(w.states, 0, Advance(item)) else w.states;
      PredictionsIncomplete(h, token, next, a);
      CountedPredictions(over[0], PredictAll(h, token, 0, h.rules[next]), top, a);
    }
  }

  lemma {:induction false} CountedOver(h: Grammar, w: Work, k: nat, top: Rule, a: Symbol)
    requires Lossy(h, top, a) && AllPlain(h, w.states) && 0 < |w.states| && k < |w.states[0]|
    requires var it := w.states[0][k];
             it.pos < |it.rule.rhs| && it.rule.rhs[it.pos] in w.needs && h.Nonterminal(it.rule.rhs[it.pos])
    requires forall s :: s in w.needs ==> EmptyDone(w.states, 0, s, w.needs[s])
    requires Counted(w.states[0], top, a)
    ensures Counted(Insert(w.states, 0, Advance(w.states[0][k]))[0], top, a)
  {
    var item := w.states[0][k];
    NeededVanishes(h, w.states, 0, item.rule.rhs[item.pos], w.needs);
    if Advance(item) !in w.states[0] { CountedAppend(w.states[0], Advance(item), top, a); }
  }

  lemma {:induction false} PredictionsIncomplete(h: Grammar, token: Token, b: Symbol, a: Symbol)
    requires h.Valid() && h.Nonterminal(b) && !h.Vanishes(a)
    ensures forall it :: it in PredictAll(h, token, 0, h.rules[b]) ==>
                           it.pos == 0 && !(Complete(it) && it.rule.lhs == a)
  {
    forall it | it in PredictAll(h, token, 0, h.rules[b])
      ensures it.pos == 0 && !(Complete(it) && it.rule.lhs == a)
    {
      assert it.rule in h.rules[b] && h.HasRule(it.rule);
      if it.rule.rhs == [] { assert it.rule == Rule(it.rule.lhs, []); }
    }
  }

  /** What is noted as completed has an empty rule of its own. */
  lemma {:induction false} NeededVanishes(h: Grammar, states: States, i: nat, s: Symbol, needs: map<Symbol, Located>)
    requires AllPlain(h, states) && s in needs && EmptyDone(states, i, s, needs[s])
    ensures h.Vanishes(s)
  {
    var c := needs[s].0;
    assert Has(states, c, i) && Plain(h, c, i);
    assert c.rule == Rule(s, []);
  }

  lemma {:induction false} CountedPass(h: Grammar, token: Token, trace: seq<Work>, k: nat, top: Rule, a: Symbol)
    requires Lossy(h, top, a) && Runs(h, token, 0, trace) && Underway(h, token, 0, 0, trace[0]) && k < |trace|
    requires Counted(trace[0].states[0], top, a)
    ensures Underway(h, token, 0, k, trace[k]) && Counted(trace[k].states[0], top, a)
  {
    PassUnderway(h, token, 0, trace, k);
    if k > 0 {
      CountedPass(h, token, trace, k - 1, top, a);
      assert StepAt(h, token, 0, trace, k - 1);
      TurnKeeps(h, token, 0, k - 1, trace[k - 1]);
      CountedTurn(h, token, k - 1, trace[k - 1], top, a);
    }
  }

  /** The items that rules make when the dot has passed all of them, in state 0. */
  function WholeItems(rs: seq<Rule>): (its: set<Item>)
    ensures |its| <= |rs|
    ensures forall r :: r in rs ==> Item(r, |r.rhs|, 0) in its
  {
    if rs == [] then {} else WholeItems(rs[1..]) + {Item(rs[0], |rs[0].rhs|, 0)}
  }

  lemma {:induction false} NothingScans(h: Grammar, token: Token, states: States, top: Rule, a: Symbol, it: Item)
    requires Lossy(h, top, a) && AllPlain(h, states) && 0 < |states| && Counted(states[0], top, a)
    requires token.kind == top.rhs[|top.rhs| - 1] && it in states[0]
    ensures !Scans(h, token, it)
  {
    assert Has(states, it, 0) && Plain(h, it, 0);
    if Scans(h, token, it) {
      assert it.rule == top && it.pos == |top.rhs| - 1;
      var j :| 0 <= j < |states[0]| && states[0][j] == it;
      forall c | c in DoneItems(states[0][..j], a)
        ensures c in WholeItems(h.rules[a])
      {
        assert Has(states, c, 0) && Plain(h, c, 0);
        assert c == Item(c.rule, |c.rule.rhs|, 0);
      }
      SubsetSize(DoneItems(states[0][..j], a), WholeItems(h.rules[a]));
    }
  }

  lemma {:induction false} ScanNone(g: Grammar, token: Token, its: seq<Item>)
    requires forall it :: it in its ==> !Scans(g, token, it)
    ensures ScanAll(g, token, its) == []
  {
    if its != [] { ScanNone(g, token, its[..|its| - 1]); }
  }

  /** A pass over a state without items gives nobody a turn. */
  lemma {:induction false} EmptyStaysEmpty(g: Grammar, toks: seq<Token>, states: States, m: nat)
    requires Processed(g, toks, states, m) && FirstItems(g, toks, states, m) == []
    ensures states[m] == []
  {
    var trace: seq<Work> :| Pass(g, toks[m], m, Before(g, toks, states, m), After(g, toks, states, m), trace);
    assert !StepAt(g, toks[m], m, trace, 0);
  }

  /** Nothing in the first state scans the terminal. */
  lemma {:induction false} FirstStateStuck(h: Grammar, x: Token, states: States, top: Rule, a: Symbol)
    requires Lossy(h, top, a) && x.kind == top.rhs[|top.rhs| - 1]
    requires Processed(h, [x, EOF_TOKEN], states, 0)
    ensures states[0] != [] && ScanAll(h, x, states[0]) == []
  {
    var toks := [x, EOF_TOKEN];
    var before, after := Before(h, toks, states, 0), After(h, toks, states, 0);
    var trace: seq<Work> :| Pass(h, x, 0, before, after, trace);
    StartInOrder(h, toks, states, 0);
    UnderwayAtStart(h, x, 0, before);
    CountedPass(h, x, trace, |trace| - 1, top, a);
    PassUnderway(h, x, 0, trace, |trace| - 1);
    forall it | it in states[0]
      ensures !Scans(h, x, it)
    {
      NothingScans(h, x, after, top, a, it);
    }
    ScanNone(h, x, states[0]);
  }

  /** Every chart for the one terminal ends in an empty state. */
  lemma {:induction false} TerminalIsLost(h: Grammar, x: Token, states: States, i: nat, top: Rule, a: Symbol)
    requires Lossy(h, top, a) && x.kind == top.rhs[|top.rhs| - 1]
    requires IsChart(h, [x], states, i)
    ensures states[i + 1] == [] && !Accepts(h, [x], states, i)
  {
    var toks := [x, EOF_TOKEN];
    assert [x] + [EOF_TOKEN] == toks;
    FirstStateStuck(h, x, states, top, a);
    assert Processed(h, toks, states, 1);
    EmptyStaysEmpty(h, toks, states, 1);
  }

  /** But it is a sentence, if a rule for a consists of symbols that vanish. */
  lemma {:induction false} TerminalIsASentence(h: Grammar, x: Token, top: Rule, r: Rule)
    requires Lossy(h, top, r.lhs) && h.HasRule(top) && h.start == top.lhs && x.kind == top.rhs[|top.rhs| - 1]
    requires h.HasRule(r) && !h.Anchored(r)
    ensures InLanguage(h, [x])
  {
    UnanchoredVanishes(h, r);
    var t := Node(r, EmptyTrees(r.rhs));
    TowerTree(h, x, top, t);
  }

  lemma {:induction false} TowerTree(h: Grammar, x: Token, top: Rule, t: Tree)
    requires Lossy(h, top, Root(t)) && h.HasRule(top) && h.start == top.lhs && x.kind == top.rhs[|top.rhs| - 1]
    requires WellFormed(h, t) && Yield(t) == []
    ensures InLanguage(h, [x])
  {
    var front := seq(|top.rhs| - 1, _ => t);
    RepeatedYields(t, |top.rhs| - 1);
    YieldsAppend(front, [Leaf(x)]);
    YieldsOne(Leaf(x));
    var whole := Node(top, front + [Leaf(x)]);
    assert WellFormed(h, Leaf(x));
    assert IsDerivation(h, h.start, [x], whole);
  }

  lemma {:induction false} RepeatedYields(t: Tree, n: nat)
    requires Yield(t) == []
    ensures Yields(seq(n, _ => t)) == []
  {
    if n > 0 {
      RepeatedYields(t, n - 1);
      assert seq(n, _ => t)[1..] == seq(n - 1, _ => t);
    }
  }

  // ----- the theorem -----

  /** Every sentence is accepted by every chart for it. */
  ghost predicate KeepsSentences(g: Grammar) {
    forall tokens, states, i :: IsChart(g, tokens, states, i) && InLanguage(g, tokens) ==> Accepts(g, tokens, states, i)
  }

  /** A rule that would lose a sentence: one more of r's symbol than it has rules, and a new terminal. */
  function Tower(g: Grammar, r: Rule, s: Symbol, x: Symbol): Rule
    requires g.HasRule(r)
  {
    Rule(s, seq(|g.rules[r.lhs]| + 1, _ => r.lhs) + [x])
  }

  lemma {:induction false} TowerIsLossy(g: Grammar, r: Rule, s: Symbol, x: Symbol)
    requires g.Valid() && g.HasRule(r) && !g.Anchored(r) && !g.Vanishes(r.lhs)
    requires New(g, s) && New(g, x) && s != x
    ensures var top := Tower(g, r, s, x); var h := Topped(g, top);
            && TopRule(g, top) && Lossy(h, top, r.lhs) && h.HasRule(top) && h.start == top.lhs
            && h.HasRule(r) && !h.Anchored(r) && top.rhs[|top.rhs| - 1] == x
  {
    var top := Tower(g, r, s, x);
    var h := Topped(g, top);
    var n := |g.rules[r.lhs]| + 1;
    assert !g.Vanishes(top.rhs[n]);
    assert !g.Vanishes(g.StartRule().rhs[1]);
    assert g.Anchored(g.StartRule());
    assert TopRule(g, top);
    ToppedRules(g, top);
  }

  /** Putting that rule on top loses the sentence of one token. */
  lemma {:induction false} TowerLoses(g: Grammar, r: Rule, s: Symbol, x: Token, states: States, i: nat)
    requires g.Valid() && g.HasRule(r) && !g.Anchored(r) && !g.Vanishes(r.lhs)
    requires New(g, s) && New(g, x.kind) && s != x.kind
    requires IsChart(Topped(g, Tower(g, r, s, x.kind)), [x], states, i)
    ensures var h := Topped(g, Tower(g, r, s, x.kind));
            InLanguage(h, [x]) && states[i + 1] == [] && !Accepts(h, [x], states, i)
  {
    var top := Tower(g, r, s, x.kind);
    TowerIsLossy(g, r, s, x.kind);
    TerminalIsASentence(Topped(g, top), x, top, r);
    TerminalIsLost(Topped(g, top), x, states, i, top, r.lhs);
  }

  /** The recogniser is exact on a grammar's symbols exactly if whatever can vanish has an empty rule of
      its own: then no rule put on top loses a sentence, and otherwise some rule does. */
  lemma {:induction false} KeepsSentencesIff(g: Grammar)
    requires g.Valid()
    ensures g.OwnEmpties() <==> forall r :: TopRule(g, r) ==> KeepsSentences(Topped(g, r))
  {
    if g.OwnEmpties() {
      forall r, tokens, states, i | TopRule(g, r) && IsChart(Topped(g, r), tokens, states, i)
                                    && InLanguage(Topped(g, r), tokens)
        ensures Accepts(Topped(g, r), tokens, states, i)
      {
        ToppedRules(g, r);
        ToppedOwnEmpties(g, r);
        SentenceIsAccepted(Topped(g, r), tokens, states, i);
      }
    } else {
      var r :| g.HasRule(r) && !g.Anchored(r) && !g.Vanishes(r.lhs);
      var s := NewSymbol(g, Start);
      var kind := NewSymbol(g, s);
      var x := Token(kind, "", "", None);
      TowerIsLossy(g, r, s, x.kind);
      var states, i := ChartExists(Topped(g, Tower(g, r, s, x.kind)), [x]);
      TowerLoses(g, r, s, x, states, i);
      assert !KeepsSentences(Topped(g, Tower(g, r, s, x.kind)));
    }
  }

  // ----- new names -----

  lemma {:induction false} LongName(used: set<Symbol>) returns (n: nat)
    ensures forall s :: s in used && s.Named? ==> |s.name| < n
  {
    if used == {} {
      n := 0;
    } else {
      var s :| s in used;
      n := LongName(used - {s});
      if s.Named? && |s.name| >= n { n := |s.name| + 1; }
    }
  }

  lemma {:induction false} NewSymbol(g: Grammar, but: Symbol) returns (s: Symbol)
    ensures New(g, s) && s != but
  {
    var inRules := set l, r, k | l in g.rules && r in g.rules[l] && 0 <= k < |r.rhs| :: r.rhs[k];
    var n := LongName(g.rules.Keys + inRules + {but});
    s := Named(seq(n, _ => 'x'));
    assert |s.name| == n;
    forall r | g.HasRule(r)
      ensures s !in r.rhs
    {
      assert forall k :: 0 <= k < |r.rhs| ==> r.rhs[k] in inRules;
    }
  }

  // ----- the least instance -----

  /** Four names for a grammar where s derives a a x, a derives b, and b derives the empty list. */
  datatype Names = Names(s: Symbol, a: Symbol, b: Symbol, x: Symbol) {
    ghost predicate Distinct() {
      && s != a && s != b && s != x && a != b && a != x && b != x
      && Start !in {s, a, b, x} && Eof !in {s, a, b, x}
    }

    function ARule(): Rule { Rule(a, [b]) }

    function Below(): Grammar {
      Grammar(map[Start := [Rule(Start, [a, Eof])], a := [ARule()], b := [Rule(b, [])]], a)
    }

    function Whole(): Grammar {
      Grammar(map[Start := [Rule(Start, [s, Eof])], s := [Rule(s, [a, a, x])], a := [ARule()], b := [Rule(b, [])]], s)
    }
  }

  /** All that matters about the table below. */
  ghost predicate IsBelow(g: Grammar, n: Names) {
    && g.rules.Keys == {Start, n.a, n.b} && g.start == n.a
    && g.rules[Start] == [Rule(Start, [n.a, Eof])] && g.rules[n.a] == [n.ARule()] && g.rules[n.b] == [Rule(n.b, [])]
  }

  lemma {:induction false} BelowRules(n: Names)
    requires n.Distinct()
    ensures IsBelow(n.Below(), n)
  {
  }

  lemma {:induction false} BelowIsIndirect(g: Grammar, n: Names)
    requires n.Distinct() && IsBelow(g, n)
    ensures g.Valid() && New(g, n.s) && New(g, n.x)
    ensures g.HasRule(n.ARule()) && !g.Anchored(n.ARule()) && !g.Vanishes(n.a)
  {
    assert g.Vanishes(n.b);
    forall r | g.HasRule(r)
      ensures r in [Rule(Start, [n.a, Eof]), n.ARule(), Rule(n.b, [])]
    {
      assert r.lhs in {Start, n.a, n.b};
    }
  }

  lemma {:induction false} WholeIsTopped(n: Names)
    requires n.Distinct() && n.Below().HasRule(n.ARule())
    ensures n.Whole() == Topped(n.Below(), Tower(n.Below(), n.ARule(), n.s, n.x))
  {
    assert |n.Below().rules[n.a]| == 1;
    assert Tower(n.Below(), n.ARule(), n.s, n.x).rhs == [n.a, n.a, n.x];
    assert n.Whole().rules == Topped(n.Below(), Rule(n.s, [n.a, n.a, n.x])).rules;
  }

  /** The sentence x is lost. */
  lemma {:induction false} SentenceLost(n: Names, x: Token, states: States, i: nat)
    requires n.Distinct() && x.kind == n.x && IsChart(n.Whole(), [x], states, i)
    ensures InLanguage(n.Whole(), [x]) && states[i + 1] == []
  {
    BelowRules(n);
    BelowIsIndirect(n.Below(), n);
    WholeIsTopped(n);
    TowerLoses(n.Below(), n.ARule(), n.s, x, states, i);
  }
}
