/** Context-free grammars as the spark parser stores them, and the derivation
    trees that say what such a grammar generates. */
module Grammars {
  import opened Options

  /** Grammar symbols and token kinds. The names the policy language uses are spelled out;
      Named stands for every other name. */
  datatype Symbol =
    | Start | Eof
    | ValueList | Value | ParenList | BracketList | CurlyList
    | Operator | Number | Sym | Str | SingleQuoted
    | OpenParen | CloseParen | OpenBracket | CloseBracket | OpenBrace | CloseBrace
    | Named(name: string)

  /** A scanner token. The parser compares tokens with grammar symbols by kind. */
  datatype Token = Token(kind: Symbol, value: string, numType: string, line: Option<int>)

  datatype Rule = Rule(lhs: Symbol, rhs: seq<Symbol>)

  /** The rule table of a parser: every key is a nonterminal, all other symbols are terminals. */
  type Rules = map<Symbol, seq<Rule>>

  const EOF_TOKEN := Token(Eof, "EOF", "", None)

  datatype Grammar = Grammar(rules: Rules, start: Symbol) {
    function StartRule(): Rule {
      Rule(Start, [start, Eof])
    }

    predicate Nonterminal(s: Symbol) {
      s in rules
    }

    predicate HasRule(r: Rule) {
      r.lhs in rules && r in rules[r.lhs]
    }

    /** What augmentation leaves behind: Start has its one rule, and the two
        reserved names occur nowhere else. */
    ghost predicate Valid() {
      && Start in rules && rules[Start] == [StartRule()]
      && Eof !in rules
      && start in rules && start != Start
      && (forall s, r :: s in rules && r in rules[s] ==> r.lhs == s)
      && (forall r :: HasRule(r) && r.lhs != Start ==> Start !in r.rhs && Eof !in r.rhs)
    }

    ghost predicate EpsilonFree() {
      forall r :: HasRule(r) ==> r.rhs != []
    }

    /** The symbol has an empty rule of its own. */
    predicate Vanishes(s: Symbol) {
      HasRule(Rule(s, []))
    }

    /** Some symbol of the rule has no empty rule of its own. */
    ghost predicate Anchored(r: Rule) {
      exists k :: 0 <= k < |r.rhs| && !Vanishes(r.rhs[k])
    }

    /** What can vanish at all has an empty rule of its own. */
    ghost predicate OwnEmpties() {
      forall r :: HasRule(r) && !Anchored(r) ==> Vanishes(r.lhs)
    }
  }

  // ----- joining sequences -----

  lemma {:induction false} Assoc<T>(a: seq<T>, b: seq<T>, c: seq<T>)
    ensures (a + b) + c == a + (b + c)
  {
  }

  lemma {:induction false} Empty<T>(a: seq<T>)
    ensures a + [] == a && [] + a == a
  {
  }

  lemma {:induction false} FirstRest<T>(a: seq<T>)
    requires a != []
    ensures [a[0]] + a[1..] == a
  {
  }

  // ----- derivation trees -----

  datatype Tree = Leaf(tok: Token) | Node(rule: Rule, kids: seq<Tree>)

  function Root(t: Tree): Symbol {
    match t
    case Leaf(tok) => tok.kind
    case Node(r, _) => r.lhs
  }

  function Yield(t: Tree): seq<Token> {
    match t
    case Leaf(tok) => [tok]
    case Node(_, kids) => Yields(kids)
  }

  function Yields(ts: seq<Tree>): seq<Token> {
    if ts == [] then [] else Yield(ts[0]) + Yields(ts[1..])
  }

  ghost predicate WellFormed(g: Grammar, t: Tree) {
    match t
    case Leaf(tok) => !g.Nonterminal(tok.kind)
    case Node(r, kids) =>
      && g.HasRule(r) && |kids| == |r.rhs|
      && forall k :: 0 <= k < |kids| ==> WellFormed(g, kids[k]) && Root(kids[k]) == r.rhs[k]
  }

  /** The trees ts derive the symbols syms, one tree a symbol. */
  ghost predicate Derive(g: Grammar, syms: seq<Symbol>, ts: seq<Tree>) {
    |ts| == |syms| && forall k :: 0 <= k < |ts| ==> WellFormed(g, ts[k]) && Root(ts[k]) == syms[k]
  }

  ghost predicate IsDerivation(g: Grammar, s: Symbol, toks: seq<Token>, t: Tree) {
    WellFormed(g, t) && Root(t) == s && Yield(t) == toks
  }

  ghost predicate InLanguage(g: Grammar, toks: seq<Token>) {
    exists t :: IsDerivation(g, g.start, toks, t)
  }

  lemma {:induction false} YieldsAppend(a: seq<Tree>, b: seq<Tree>)
    ensures Yields(a + b) == Yields(a) + Yields(b)
  {
    if a == [] {
      assert a + b == b;
    } else {
      assert (a + b)[1..] == a[1..] + b;
      YieldsAppend(a[1..], b);
    }
  }

  lemma {:induction false} YieldsOne(t: Tree)
    ensures Yields([t]) == Yield(t)
  {
    assert Yields([t]) == Yield(t) + Yields([]);
  }

  lemma {:induction false} YieldsEmpty(ts: seq<Tree>, k: nat)
    requires Yields(ts) == [] && k < |ts|
    ensures Yield(ts[k]) == []
  {
    if k > 0 { YieldsEmpty(ts[1..], k - 1); }
  }

  // ----- deriving the empty token list -----

  ghost predicate Nullable(g: Grammar, s: Symbol) {
    exists t :: WellFormed(g, t) && Root(t) == s && Yield(t) == []
  }

  lemma {:induction false} EmptyYield(g: Grammar, t: Tree)
    requires g.OwnEmpties() && WellFormed(g, t) && Yield(t) == []
    ensures g.Vanishes(Root(t))
  {
    if g.Anchored(t.rule) {
      var k :| 0 <= k < |t.rule.rhs| && !g.Vanishes(t.rule.rhs[k]);
      YieldsEmpty(t.kids, k);
      EmptyYield(g, t.kids[k]);
    }
  }

  /** One empty tree for each symbol. */
  function EmptyTrees(syms: seq<Symbol>): seq<Tree> {
    seq(|syms|, k requires 0 <= k < |syms| => Node(Rule(syms[k], []), []))
  }

  lemma {:induction false} EmptyForest(g: Grammar, syms: seq<Symbol>)
    requires forall s :: s in syms ==> g.Vanishes(s)
    ensures Derive(g, syms, EmptyTrees(syms)) && Yields(EmptyTrees(syms)) == []
  {
    forall k | 0 <= k < |syms|
      ensures WellFormed(g, EmptyTrees(syms)[k])
    {
      assert syms[k] in syms;
    }
    if syms != [] {
      EmptyForest(g, syms[1..]);
      assert EmptyTrees(syms)[1..] == EmptyTrees(syms[1..]);
    }
  }

  /** A rule whose symbols all have empty rules. */
  lemma {:induction false} UnanchoredVanishes(g: Grammar, r: Rule)
    requires g.HasRule(r) && !g.Anchored(r)
    ensures var t := Node(r, EmptyTrees(r.rhs)); WellFormed(g, t) && Yield(t) == []
    ensures Nullable(g, r.lhs)
  {
    EmptyForest(g, r.rhs);
    var t := Node(r, EmptyTrees(r.rhs));
    assert WellFormed(g, t) && Root(t) == r.lhs && Yield(t) == [];
  }

  /** The condition on the rules says that nothing derives the empty token list without an empty
      rule of its own. */
  lemma {:induction false} OwnEmptiesIff(g: Grammar)
    ensures g.OwnEmpties() <==> forall s :: Nullable(g, s) ==> g.Vanishes(s)
  {
    forall s | g.OwnEmpties() && Nullable(g, s)
      ensures g.Vanishes(s)
    {
      var t :| WellFormed(g, t) && Root(t) == s && Yield(t) == [];
      EmptyYield(g, t);
    }
    forall r | g.HasRule(r) && !g.Anchored(r)
      ensures Nullable(g, r.lhs)
    {
      UnanchoredVanishes(g, r);
    }
  }

  /** Only symbol k of the rule need derive anything. */
  ghost predicate AloneAt(g: Grammar, r: Rule, k: nat) {
    k < |r.rhs| && forall j :: 0 <= j < |r.rhs| && j != k ==> Nullable(g, r.rhs[j])
  }

  /** No nonterminal derives itself with nothing beside it: each such production lowers the rank. */
  ghost predicate UnitAcyclic(g: Grammar, rank: Symbol -> nat) {
    forall r, k: nat :: g.HasRule(r) && AloneAt(g, r, k) && g.Nonterminal(r.rhs[k]) ==> rank(r.rhs[k]) < rank(r.lhs)
  }

  lemma {:induction false} EpsilonFreeIsFit(g: Grammar)
    requires g.EpsilonFree()
    ensures g.OwnEmpties()
    ensures forall r, k: nat :: g.HasRule(r) && AloneAt(g, r, k) ==> k == 0 && |r.rhs| == 1
  {
    forall r | g.HasRule(r)
      ensures g.Anchored(r)
    {
      assert !g.Vanishes(r.rhs[0]);
    }
    OwnEmptiesIff(g);
    forall r, k: nat | g.HasRule(r) && AloneAt(g, r, k)
      ensures k == 0 && |r.rhs| == 1
    {
      assert k > 0 ==> Nullable(g, r.rhs[0]);
      assert |r.rhs| > 1 && k == 0 ==> Nullable(g, r.rhs[1]);
    }
  }

  // ----- the fold of rule actions over a derivation -----

  function Fold<V>(inj: Token -> V, act: (Rule, seq<V>) -> V, t: Tree): V {
    match t
    case Leaf(tok) => inj(tok)
    case Node(r, kids) => act(r, Folds(inj, act, kids))
  }

  function Folds<V>(inj: Token -> V, act: (Rule, seq<V>) -> V, ts: seq<Tree>): (vs: seq<V>)
    ensures |vs| == |ts|
  {
    if ts == [] then [] else [Fold(inj, act, ts[0])] + Folds(inj, act, ts[1..])
  }
}
