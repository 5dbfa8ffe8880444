/** The policy language: its grammar and rule actions, what derivations of its symbols mean, and a simple
    recursive-descent reader for it. Reading the tokens of any derivation from the front gives back
    its meaning. */
module PolicySyntax {
  import opened Options
  import opened Grammars

  /** Policy code as the parser leaves it: tokens and (Python) lists. */
  datatype Ast = Atom(tok: Token) | Lst(items: seq<Ast>)

  const GRAMMAR := Grammar(
    map[
      Start := [Rule(Start, [ValueList, Eof])],
      ValueList := [Rule(ValueList, [Value]), Rule(ValueList, [ValueList, Value])],
      ParenList := [Rule(ParenList, [OpenParen, CloseParen]), Rule(ParenList, [OpenParen, ValueList, CloseParen])],
      BracketList := [Rule(BracketList, [OpenBracket, CloseBracket]),
                      Rule(BracketList, [OpenBracket, ValueList, CloseBracket])],
      CurlyList := [Rule(CurlyList, [OpenBrace, CloseBrace]), Rule(CurlyList, [OpenBrace, ValueList, CloseBrace])],
      Value := [Rule(Value, [Operator]), Rule(Value, [Number]), Rule(Value, [Operator]),
                Rule(Value, [Sym]), Rule(Value, [Str]), Rule(Value, [SingleQuoted]),
                Rule(Value, [ParenList]), Rule(Value, [CurlyList]), Rule(Value, [BracketList])]
    ],
    ValueList)

  const EVAL_TOKEN := Token(Sym, "eval", "", None)

  function Mklist(args: seq<Ast>): seq<Ast> {
    if |args| != 3 then [] else Items(args[1])
  }

  /** The elements of a list value; no rule action asks this of a token. */
  function Items(a: Ast): seq<Ast> {
    if a.Lst? then a.items else []
  }

  /** The p_* methods, by the left-hand side of the rule they are attached to. */
  function Action(r: Rule, args: seq<Ast>): Ast {
    if args == [] then Lst([])
    else if r.lhs == ValueList then
      if |args| == 1 then Lst([args[0]]) else Lst(Items(args[0]) + [args[1]])
    else if r.lhs == ParenList || r.lhs == BracketList then Lst(Mklist(args))
    else if r.lhs == CurlyList then Lst([Atom(EVAL_TOKEN)] + Mklist(args))
    else args[0]
  }

  function TokenValue(tok: Token): Ast {
    Atom(tok)
  }

  /** The code a derivation stands for. */
  function Meaning(t: Tree): Ast {
    Fold(TokenValue, Action, t)
  }

  function Meanings(ts: seq<Tree>): (as_: seq<Ast>)
    ensures |as_| == |ts|
  {
    Folds(TokenValue, Action, ts)
  }

  lemma {:induction false} MeaningOfNode(t: Tree)
    requires t.Node? && 1 <= |t.kids| <= 3
    ensures Meaning(t) == Action(t.rule, Meanings(t.kids))
    ensures Meanings(t.kids)[0] == Meaning(t.kids[0])
    ensures |t.kids| > 1 ==> Meanings(t.kids)[1] == Meaning(t.kids[1])
  {
    var rest := Folds(TokenValue, Action, t.kids[1..]);
    assert Meanings(t.kids) == [Meaning(t.kids[0])] + rest;
  }

  function Rank(s: Symbol): nat {
    if s == ValueList then 2 else if s == Value then 1 else 0
  }

  // ----- the shape of the grammar, without the table -----

  predicate IsAtom(s: Symbol) {
    s == Operator || s == Number || s == Sym || s == Str || s == SingleQuoted
  }

  predicate IsOpener(s: Symbol) {
    s == OpenParen || s == OpenBracket || s == OpenBrace
  }

  function Closer(s: Symbol): Symbol {
    if s == OpenParen then CloseParen else if s == OpenBracket then CloseBracket else CloseBrace
  }

  predicate IsCloser(s: Symbol) {
    s == CloseParen || s == CloseBracket || s == CloseBrace
  }

  function BracketOf(s: Symbol): Symbol {
    if s == OpenParen then ParenList else if s == OpenBracket then BracketList else CurlyList
  }

  predicate IsListSymbol(s: Symbol) {
    s == ParenList || s == BracketList || s == CurlyList
  }

  predicate IsName(s: Symbol) {
    s == Start || s == ValueList || s == Value || IsListSymbol(s)
  }

  predicate ValueRule(r: Rule) {
    r.lhs == Value && |r.rhs| == 1 && (IsAtom(r.rhs[0]) || IsListSymbol(r.rhs[0]))
  }

  predicate ListRule(r: Rule) {
    || (|r.rhs| == 2 && IsOpener(r.rhs[0]) && r.lhs == BracketOf(r.rhs[0]) && r.rhs[1] == Closer(r.rhs[0]))
    || (|r.rhs| == 3 && IsOpener(r.rhs[0]) && r.lhs == BracketOf(r.rhs[0])
          && r.rhs[1] == ValueList && r.rhs[2] == Closer(r.rhs[0]))
  }

  predicate PolicyRule(r: Rule) {
    || r == Rule(Start, [ValueList, Eof])
    || r == Rule(ValueList, [Value]) || r == Rule(ValueList, [ValueList, Value])
    || ValueRule(r) || ListRule(r)
  }

  /** All that matters about the table. Both facts are used only where IsName or PolicyRule is mentioned. */
  ghost predicate IsPolicyGrammar(g: Grammar) {
    && g.start == ValueList
    && (forall s {:trigger IsName(s)} :: g.Nonterminal(s) <==> IsName(s))
    && (forall r {:trigger PolicyRule(r)} :: g.HasRule(r) <==> PolicyRule(r))
  }

  lemma {:induction false} Names(s: Symbol)
    ensures GRAMMAR.Nonterminal(s) <==> IsName(s)
  {
  }

  lemma {:induction false} RulesOfLhs(s: Symbol, r: Rule)
    requires s in GRAMMAR.rules
    ensures r in GRAMMAR.rules[s] ==> r.lhs == s
  {
    Names(s);
  }

  lemma {:induction false} ListRules(o: Symbol)
    requires IsOpener(o)
    ensures BracketOf(o) in GRAMMAR.rules
    ensures GRAMMAR.rules[BracketOf(o)] ==
            [Rule(BracketOf(o), [o, Closer(o)]), Rule(BracketOf(o), [o, ValueList, Closer(o)])]
  {
  }

  lemma {:induction false} ValueRules(r: Rule)
    requires r.lhs == Value
    ensures Value in GRAMMAR.rules
    ensures r in GRAMMAR.rules[Value] <==> ValueRule(r)
  {
    var rs := GRAMMAR.rules[Value];
    if ValueRule(r) {
      assert r == Rule(Value, [r.rhs[0]]);
      assert rs[0] == Rule(Value, [Operator]) && rs[1] == Rule(Value, [Number]);
      assert rs[3] == Rule(Value, [Sym]) && rs[4] == Rule(Value, [Str]) && rs[5] == Rule(Value, [SingleQuoted]);
      assert rs[6] == Rule(Value, [ParenList]) && rs[7] == Rule(Value, [CurlyList]);
      assert rs[8] == Rule(Value, [BracketList]);
    }
  }

  lemma {:induction false} OtherRules()
    ensures Start in GRAMMAR.rules && GRAMMAR.rules[Start] == [Rule(Start, [ValueList, Eof])]
    ensures ValueList in GRAMMAR.rules
    ensures GRAMMAR.rules[ValueList] == [Rule(ValueList, [Value]), Rule(ValueList, [ValueList, Value])]
  {
  }

  lemma {:induction false} RuleIsPolicy(r: Rule)
    ensures GRAMMAR.HasRule(r) <==> PolicyRule(r)
  {
    Names(r.lhs);
    if r.lhs == Value {
      ValueRules(r);
    } else if IsListSymbol(r.lhs) {
      var o := if r.lhs == ParenList then OpenParen else if r.lhs == BracketList then OpenBracket else OpenBrace;
      ListRules(o);
      if ListRule(r) {
        assert r.rhs[0] == o;
        assert r.rhs == if |r.rhs| == 2 then [o, Closer(o)] else [o, ValueList, Closer(o)];
      }
    } else {
      OtherRules();
    }
  }

  lemma {:induction false} GrammarShape(g: Grammar)
    requires g == GRAMMAR
    ensures IsPolicyGrammar(g)
  {
    forall s
      ensures g.Nonterminal(s) <==> IsName(s)
    {
      Names(s);
    }
    forall r
      ensures g.HasRule(r) <==> PolicyRule(r)
    {
      RuleIsPolicy(r);
    }
  }

  /** What the generic parser asks of a grammar holds for the policy grammar. */
  lemma {:induction false} GrammarIsFit(g: Grammar)
    requires g == GRAMMAR
    ensures IsPolicyGrammar(g)
    ensures g.Valid() && g.OwnEmpties() && UnitAcyclic(g, Rank)
  {
    GrammarShape(g);
    RulesFit(g);
    OtherRules();
    forall s, r | s in g.rules && r in g.rules[s]
      ensures r.lhs == s
    {
      RulesOfLhs(s, r);
    }
  }

  lemma {:induction false} RulesFit(g: Grammar)
    requires IsPolicyGrammar(g)
    ensures g.EpsilonFree() && g.OwnEmpties() && UnitAcyclic(g, Rank)
    ensures forall r :: g.HasRule(r) && r.lhs != Start ==> Start !in r.rhs && Eof !in r.rhs
    ensures !g.Nonterminal(Eof) && g.Nonterminal(g.start)
  {
    assert !IsName(Eof) && IsName(ValueList);
    forall r | g.HasRule(r)
      ensures r.rhs != [] && (r.lhs != Start ==> Start !in r.rhs && Eof !in r.rhs)
      ensures |r.rhs| == 1 && g.Nonterminal(r.rhs[0]) ==> Rank(r.rhs[0]) < Rank(r.lhs)
    {
      assert PolicyRule(r);
      RuleFits(r);
      assert |r.rhs| == 1 ==> (g.Nonterminal(r.rhs[0]) <==> IsName(r.rhs[0]));
    }
    EpsilonFreeIsFit(g);
  }

  lemma {:induction false} RuleFits(r: Rule)
    requires PolicyRule(r)
    ensures r.rhs != [] && (r.lhs != Start ==> Start !in r.rhs && Eof !in r.rhs)
    ensures |r.rhs| == 1 && IsName(r.rhs[0]) ==> Rank(r.rhs[0]) < Rank(r.lhs)
  {
    if ValueRule(r) {
      assert r.rhs == [r.rhs[0]];
    } else if |r.rhs| == 2 {
      assert r.rhs == [r.rhs[0], r.rhs[1]];
    } else if |r.rhs| == 3 {
      assert r.rhs == [r.rhs[0], r.rhs[1], r.rhs[2]];
    }
  }

  // ----- the reader -----

  function Wrap(opener: Symbol, items: seq<Ast>): Ast {
    Lst((if opener == OpenBrace then [Atom(EVAL_TOKEN)] else []) + items)
  }

  /** Read one value off the front. */
  function ReadValue(toks: seq<Token>): (r: Option<(Ast, seq<Token>)>)
    ensures r.Some? ==> |r.value.1| < |toks|
    decreases |toks|, 0
  {
    if toks == [] then None
    else if IsAtom(toks[0].kind) then Some((Atom(toks[0]), toks[1..]))
    else if IsOpener(toks[0].kind) then
      var (items, rest) := ReadValues(toks[1..]);
      if rest != [] && rest[0].kind == Closer(toks[0].kind)
      then Some((Wrap(toks[0].kind, items), rest[1..]))
      else None
    else None
  }

  /** Read as many values as there are. */
  function ReadValues(toks: seq<Token>): (r: (seq<Ast>, seq<Token>))
    ensures |r.1| <= |toks|
    decreases |toks|, 1
  {
    match ReadValue(toks)
    case None => ([], toks)
    case Some((v, rest)) =>
      var (vs, rest') := ReadValues(rest);
      ([v] + vs, rest')
  }

  /** A program: one value or more, and nothing else. */
  function Read(toks: seq<Token>): Option<seq<Ast>> {
    var (vs, rest) := ReadValues(toks);
    if rest == [] && vs != [] then Some(vs) else None
  }

  /** The tokens read as the given values, and then as whatever the rest reads as. */
  predicate ReadsOn(toks: seq<Token>, items: seq<Ast>, rest: seq<Token>) {
    var (more, left) := ReadValues(rest);
    ReadValues(toks) == (items + more, left)
  }

  // ----- the reader agrees with every derivation -----

  /** A derivation of the grammar, read from the front, gives back its meaning. */
  lemma {:induction false} ValueReads(g: Grammar, t: Tree, rest: seq<Token>)
    requires IsPolicyGrammar(g) && WellFormed(g, t) && (Root(t) == Value || IsListSymbol(Root(t)))
    ensures ReadValue(Yield(t) + rest) == Some((Meaning(t), rest))
    decreases t
  {
    NodeOf(g, t);
    MeaningOfNode(t);
    if Root(t) == Value {
      var kid := t.kids[0];
      YieldsOne(kid);
      assert t.kids == [kid];
      if kid.Leaf? {
        AtomReads(kid.tok, rest);
      } else {
        ValueReads(g, kid, rest);
      }
    } else {
      ListReads(g, t, rest);
    }
  }

  lemma {:induction false} AtomReads(tok: Token, rest: seq<Token>)
    requires IsAtom(tok.kind)
    ensures ReadValue([tok] + rest) == Some((Atom(tok), rest))
  {
    assert ([tok] + rest)[1..] == rest;
  }

  lemma {:induction false} NodeOf(g: Grammar, t: Tree)
    requires IsPolicyGrammar(g) && WellFormed(g, t) && IsName(Root(t))
    ensures t.Node? && PolicyRule(t.rule) && |t.kids| == |t.rule.rhs|
    ensures forall k :: 0 <= k < |t.kids| ==> WellFormed(g, t.kids[k]) && Root(t.kids[k]) == t.rule.rhs[k]
    ensures forall k :: 0 <= k < |t.kids| ==> (t.kids[k].Leaf? <==> !IsName(t.rule.rhs[k]))
  {
    assert g.Nonterminal(Root(t));
  }

  lemma {:induction false} RuleOfList(r: Rule)
    requires PolicyRule(r) && IsListSymbol(r.lhs)
    ensures ListRule(r) && 2 <= |r.rhs| <= 3 && !IsName(r.rhs[0])
    ensures r.rhs[|r.rhs| - 1] == Closer(r.rhs[0]) && !IsName(Closer(r.rhs[0]))
    ensures |r.rhs| == 3 ==> r.rhs[1] == ValueList
  {
  }

  lemma {:induction false} ListShape(g: Grammar, t: Tree)
    requires IsPolicyGrammar(g) && WellFormed(g, t) && IsListSymbol(Root(t))
    ensures t.Node? && ListRule(t.rule) && |t.kids| == |t.rule.rhs|
    ensures t.kids[0].Leaf? && t.kids[0].tok.kind == t.rule.rhs[0]
    ensures t.kids[|t.kids| - 1].Leaf? && t.kids[|t.kids| - 1].tok.kind == Closer(t.rule.rhs[0])
    ensures |t.kids| == 3 ==> WellFormed(g, t.kids[1]) && Root(t.kids[1]) == ValueList
  {
    NodeOf(g, t);
    RuleOfList(t.rule);
  }

  lemma {:induction false} ListReads(g: Grammar, t: Tree, rest: seq<Token>)
    requires IsPolicyGrammar(g) && WellFormed(g, t) && IsListSymbol(Root(t))
    ensures ReadValue(Yield(t) + rest) == Some((Meaning(t), rest))
    decreases t, 0
  {
    ListShape(g, t);
    MeaningOfNode(t);
    ActionWraps(t.rule, Meanings(t.kids));
    if |t.kids| == 2 {
      EmptyListReads(t, rest);
    } else {
      ValuesRead(g, t.kids[1], [t.kids[2].tok] + rest);
      FullListReads(t, rest);
    }
  }

  lemma {:induction false} EmptyListReads(t: Tree, rest: seq<Token>)
    requires t.Node? && |t.kids| == 2 && ListRule(t.rule) && |t.rule.rhs| == 2
    requires t.kids[0].Leaf? && t.kids[0].tok.kind == t.rule.rhs[0]
    requires t.kids[1].Leaf? && t.kids[1].tok.kind == Closer(t.rule.rhs[0])
    requires Meaning(t) == Wrap(t.rule.rhs[0], [])
    ensures ReadValue(Yield(t) + rest) == Some((Meaning(t), rest))
  {
    var open, close := t.kids[0].tok, t.kids[1].tok;
    YieldOfTwo(t);
    Empty([close] + rest);
    CloserReadsNothing([close] + rest);
    BracketReads(open, [], close, rest);
    Assoc([open], [close], rest);
  }

  lemma {:induction false} FullListReads(t: Tree, rest: seq<Token>)
    requires t.Node? && |t.kids| == 3 && ListRule(t.rule) && |t.rule.rhs| == 3
    requires t.kids[0].Leaf? && t.kids[0].tok.kind == t.rule.rhs[0]
    requires t.kids[2].Leaf? && t.kids[2].tok.kind == Closer(t.rule.rhs[0])
    ensures var (body, close, items) := (Yield(t.kids[1]), t.kids[2].tok, Items(Meaning(t.kids[1])));
            ReadsOn(body + ([close] + rest), items, [close] + rest) ==>
              ReadValue(Yield(t) + rest) == Some((Wrap(t.rule.rhs[0], items), rest))
  {
    var open, body, close := t.kids[0].tok, Yield(t.kids[1]), t.kids[2].tok;
    CloserReadsNothing([close] + rest);
    Empty(Items(Meaning(t.kids[1])));
    if ReadValues(body + ([close] + rest)).1 == [close] + rest { BracketReads(open, body, close, rest); }
    YieldOfThree(t);
    Assoc([open] + body, [close], rest);
    Assoc([open], body, [close] + rest);
  }

  lemma {:induction false} OpenerReads(toks: seq<Token>, items: seq<Ast>, rest: seq<Token>)
    requires toks != [] && IsOpener(toks[0].kind) && ReadValues(toks[1..]) == (items, rest)
    requires rest != [] && rest[0].kind == Closer(toks[0].kind)
    ensures ReadValue(toks) == Some((Wrap(toks[0].kind, items), rest[1..]))
  {
  }

  lemma {:induction false} BracketReads(open: Token, body: seq<Token>, close: Token, rest: seq<Token>)
    requires IsOpener(open.kind) && close.kind == Closer(open.kind)
    requires ReadValues(body + ([close] + rest)).1 == [close] + rest
    ensures ReadValue([open] + (body + ([close] + rest))) ==
            Some((Wrap(open.kind, ReadValues(body + ([close] + rest)).0), rest))
  {
    var toks := [open] + (body + ([close] + rest));
    assert toks[1..] == body + ([close] + rest);
    OpenerReads(toks, ReadValues(toks[1..]).0, [close] + rest);
    assert ([close] + rest)[1..] == rest;
  }

  lemma {:induction false} ActionWraps(r: Rule, args: seq<Ast>)
    requires ListRule(r) && |args| == |r.rhs|
    ensures Action(r, args) == Wrap(r.rhs[0], if |args| == 3 then Items(args[1]) else [])
  {
    assert [] + Mklist(args) == Mklist(args);
  }

  lemma {:induction false} CloserReadsNothing(toks: seq<Token>)
    requires toks != [] && IsCloser(toks[0].kind)
    ensures ReadValues(toks) == ([], toks)
  {
  }

  lemma {:induction false} YieldOfTwo(t: Tree)
    requires t.Node? && |t.kids| == 2
    ensures Yield(t) == Yield(t.kids[0]) + Yield(t.kids[1])
  {
    assert t.kids == [t.kids[0]] + [t.kids[1]];
    YieldsAppend([t.kids[0]], [t.kids[1]]);
    YieldsOne(t.kids[0]);
    YieldsOne(t.kids[1]);
  }

  lemma {:induction false} YieldOfThree(t: Tree)
    requires t.Node? && |t.kids| == 3
    ensures Yield(t) == Yield(t.kids[0]) + Yield(t.kids[1]) + Yield(t.kids[2])
  {
    assert t.kids == [t.kids[0], t.kids[1]] + [t.kids[2]];
    assert [t.kids[0], t.kids[1]] == [t.kids[0]] + [t.kids[1]];
    YieldsAppend([t.kids[0], t.kids[1]], [t.kids[2]]);
    YieldsAppend([t.kids[0]], [t.kids[1]]);
    YieldsOne(t.kids[0]);
    YieldsOne(t.kids[1]);
    YieldsOne(t.kids[2]);
  }

  lemma {:induction false} ValueListShape(g: Grammar, t: Tree)
    requires IsPolicyGrammar(g) && WellFormed(g, t) && Root(t) == ValueList
    ensures t.Node? && t.rule.lhs == ValueList && 1 <= |t.kids| <= 2
    ensures WellFormed(g, t.kids[|t.kids| - 1]) && Root(t.kids[|t.kids| - 1]) == Value
    ensures |t.kids| == 2 ==> WellFormed(g, t.kids[0]) && Root(t.kids[0]) == ValueList
  {
    NodeOf(g, t);
  }

  /** A value list reads as its elements, followed by whatever else can be read. */
  lemma {:induction false} ValuesRead(g: Grammar, t: Tree, rest: seq<Token>)
    requires IsPolicyGrammar(g) && WellFormed(g, t) && Root(t) == ValueList
    ensures Meaning(t).Lst? && Meaning(t).items != []
    ensures ReadsOn(Yield(t) + rest, Meaning(t).items, rest)
    decreases t, 1
  {
    ValueListShape(g, t);
    if |t.kids| == 1 {
      FirstValueRead(t);
      ValueReads(g, t.kids[0], rest);
      OneRead(t.kids[0], rest);
    } else {
      var last := t.kids[1];
      ValueReads(g, last, rest);
      OneRead(last, rest);
      ValuesRead(g, t.kids[0], Yield(last) + rest);
      MoreValuesRead(t, rest);
    }
  }

  lemma {:induction false} FirstValueRead(t: Tree)
    requires t.Node? && t.rule.lhs == ValueList && |t.kids| == 1
    ensures Meaning(t) == Lst([Meaning(t.kids[0])]) && Yield(t) == Yield(t.kids[0])
  {
    MeaningOfNode(t);
    assert t.kids == [t.kids[0]];
    YieldsOne(t.kids[0]);
  }

  lemma {:induction false} LongerList(t: Tree)
    requires t.Node? && t.rule.lhs == ValueList && |t.kids| == 2
    ensures Meaning(t) == Lst(Items(Meaning(t.kids[0])) + [Meaning(t.kids[1])])
    ensures Yield(t) == Yield(t.kids[0]) + Yield(t.kids[1])
  {
    MeaningOfNode(t);
    YieldOfTwo(t);
  }

  lemma {:induction false} MoreValuesRead(t: Tree, rest: seq<Token>)
    requires t.Node? && t.rule.lhs == ValueList && |t.kids| == 2 && Meaning(t.kids[0]).Lst?
    ensures Meaning(t) == Lst(Meaning(t.kids[0]).items + [Meaning(t.kids[1])])
    ensures var (front, last) := (t.kids[0], t.kids[1]);
            ReadsOn(Yield(last) + rest, [Meaning(last)], rest)
            && ReadsOn(Yield(front) + (Yield(last) + rest), Meaning(front).items, Yield(last) + rest) ==>
              ReadsOn(Yield(t) + rest, Meaning(t).items, rest)
  {
    LongerList(t);
    Assoc(Yield(t.kids[0]), Yield(t.kids[1]), rest);
    Assoc(Meaning(t.kids[0]).items, [Meaning(t.kids[1])], ReadValues(rest).0);
  }

  lemma {:induction false} OneRead(t: Tree, rest: seq<Token>)
    requires ReadValue(Yield(t) + rest) == Some((Meaning(t), rest))
    ensures ReadsOn(Yield(t) + rest, [Meaning(t)], rest)
  {
  }
}
