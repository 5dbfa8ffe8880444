/** The policy parser: the Earley pipeline run on the policy grammar. */
module PolicyParser {
  import opened Options
  import opened Grammars
  import opened PolicySyntax
  import opened PolicyReader
  import opened RuleTables
  import opened Charts
  import Spark

  /** The method each rule is attached to, by its name without the p_ prefix. */
  function ActionName(s: Symbol): string {
    match s
    case ValueList => "value_list"
    case Value => "value"
    case ParenList => "list"
    case BracketList => "bracket_list"
    case CurlyList => "curly_list"
    case _ => ""
  }

  // ----- the rule table, from the docstrings -----

  const BRACKET_LIST_DOC := [Rule(BracketList, [OpenBracket, CloseBracket]),
                             Rule(BracketList, [OpenBracket, ValueList, CloseBracket])]
  const CURLY_LIST_DOC := [Rule(CurlyList, [OpenBrace, CloseBrace]),
                           Rule(CurlyList, [OpenBrace, ValueList, CloseBrace])]
  const LIST_DOC := [Rule(ParenList, [OpenParen, CloseParen]), Rule(ParenList, [OpenParen, ValueList, CloseParen])]
  const VALUE_DOC := [Rule(Value, [Operator]), Rule(Value, [Number]), Rule(Value, [Operator]),
                      Rule(Value, [Sym]), Rule(Value, [Str]), Rule(Value, [SingleQuoted]),
                      Rule(Value, [ParenList]), Rule(Value, [CurlyList]), Rule(Value, [BracketList])]
  const VALUE_LIST_DOC := [Rule(ValueList, [Value]), Rule(ValueList, [ValueList, Value])]

  /** Every rule of the table has a name. */
  ghost predicate Named(rules: Rules, names: map<Rule, string>) {
    forall s, r :: s in rules && r in rules[s] ==> r in names
  }

  /** A docstring about one left-hand side. */
  ghost predicate About(lhs: Symbol, doc: seq<Rule>) {
    doc != [] && Plain(doc) && forall k :: 0 <= k < |doc| ==> doc[k].lhs == lhs
  }

  lemma {:induction false} NamesAdded(rules: Rules, names: map<Rule, string>, lhs: Symbol, doc: seq<Rule>,
      names': map<Rule, string>)
    requires Named(rules, names) && NamesGained(names, names', doc, ActionName(lhs))
    ensures Named(rules[lhs := doc], names')
  {
  }

  // one action, with its docstring
  method AddAction(table: RuleTable, lhs: Symbol, doc: seq<Rule>)
    requires lhs !in table.rules && About(lhs, doc) && Named(table.rules, table.ruleName)
    modifies table
    ensures table.rules == old(table.rules)[lhs := doc] && Named(table.rules, table.ruleName)
  {
    table.AddRule(Words(doc), ActionName(lhs), doc);
    GainedFresh(old(table.rules), table.rules, doc, lhs);
    NamesAdded(old(table.rules), old(table.ruleName), lhs, doc, table.ruleName);
  }

  lemma {:induction false} ListDocsFit()
    ensures About(BracketList, BRACKET_LIST_DOC) && About(CurlyList, CURLY_LIST_DOC) && About(ParenList, LIST_DOC)
  {
  }

  lemma {:induction false} ValueDocsFit()
    ensures About(Value, VALUE_DOC) && About(ValueList, VALUE_LIST_DOC)
  {
  }

  method AddListActions(table: RuleTable)
    requires table.rules == map[] && Named(table.rules, table.ruleName)
    modifies table
    ensures table.rules == map[BracketList := BRACKET_LIST_DOC, CurlyList := CURLY_LIST_DOC, ParenList := LIST_DOC]
    ensures Named(table.rules, table.ruleName)
  {
    ListDocsFit();
    AddAction(table, BracketList, BRACKET_LIST_DOC);
    AddAction(table, CurlyList, CURLY_LIST_DOC);
    AddAction(table, ParenList, LIST_DOC);
  }

  method AddValueActions(table: RuleTable)
    requires Value !in table.rules && ValueList !in table.rules && Named(table.rules, table.ruleName)
    modifies table
    ensures table.rules == old(table.rules)[Value := VALUE_DOC][ValueList := VALUE_LIST_DOC]
    ensures Named(table.rules, table.ruleName)
  {
    ValueDocsFit();
    AddAction(table, Value, VALUE_DOC);
    AddAction(table, ValueList, VALUE_LIST_DOC);
  }

  /** Collecting the docstrings in the order of their actions' names, and adding the start rule,
      gives the policy grammar. */
  method PolicyTable() returns (table: RuleTable)
    ensures fresh(table)
    ensures table.rules == GRAMMAR.rules && Named(table.rules, table.ruleName)
  {
    table := new RuleTable();
    AddListActions(table);
    AddValueActions(table);
    table.Augment(ValueList);
  }

  // ----- errors -----

  /** No token claims to be the end marker; the scanner makes none that does. */
  ghost predicate NoEndMarker(tokens: seq<Token>) {
    forall j :: 0 <= j < |tokens| ==> tokens[j].kind != Eof
  }

  /** The tokens can be continued to a program. */
  ghost predicate Continues(front: seq<Token>) {
    exists more :: Read(front + more).Some?
  }

  /** The token at position i - 1 is the last one, or the tokens up to it cannot be continued to a
      program; and the tokens before it still can. */
  ghost predicate Blamed(tokens: seq<Token>, at: Token, i: nat) {
    && 0 < i <= |tokens| && tokens[i - 1] == at
    && (i == |tokens| || !Continues(tokens[..i]))
    && (NoEndMarker(tokens) ==> Continues(tokens[..i - 1]))
  }

  /** Every name of the policy grammar derives something. */
  lemma {:induction false} PolicyIsProductive(g: Grammar)
    requires IsPolicyGrammar(g)
    ensures Productive(g)
  {
    forall s | g.Nonterminal(s)
      ensures Derives(g, s)
    {
      NameDerives(g, s);
    }
  }

  lemma {:induction false} NameDerives(g: Grammar, s: Symbol)
    requires IsPolicyGrammar(g) && g.Nonterminal(s)
    ensures Derives(g, s)
  {
    assert IsName(s);
    if IsListSymbol(s) {
      var o := if s == ParenList then OpenParen else if s == BracketList then OpenBracket else OpenBrace;
      var t := EmptyBrackets(g, Token(o, "", "", None), Token(Closer(o), "", "", None));
      assert Fills(g, s, t);
    } else {
      var v := NumberTree(g);
      assert Fills(g, Value, v);
      ListOfOneTree(g, v);
      var l := Node(Rule(ValueList, [Value]), [v]);
      assert Fills(g, ValueList, l);
      var top := TopTree(g, l);
    }
  }

  lemma {:induction false} NumberTree(g: Grammar) returns (t: Tree)
    requires IsPolicyGrammar(g)
    ensures ValueTree(g, t)
  {
    assert !IsName(Number);
    t := Wrapped(g, Leaf(Token(Number, "0", "integer", None)));
  }

  lemma {:induction false} TopTree(g: Grammar, l: Tree) returns (t: Tree)
    requires IsPolicyGrammar(g) && WellFormed(g, l) && Root(l) == ValueList
    ensures Fills(g, Start, t)
  {
    t := Node(Rule(Start, [ValueList, Eof]), [l, Leaf(EOF_TOKEN)]);
    assert PolicyRule(t.rule) && !IsName(Eof);
    assert WellFormed(g, t.kids[1]);
  }

  lemma {:induction false} ErrorIsBlamed(g: Grammar, tokens: seq<Token>, at: Token, i: nat)
    requires IsPolicyGrammar(g) && Spark.ErrorAt(g, tokens, at, i)
    ensures Blamed(tokens, at, i)
  {
    RulesFit(g);
    if i < |tokens| {
      forall more
        ensures Read(tokens[..i] + more).None?
      {
        assert tokens[..i] <= tokens[..i] + more;
        ReaderDecides(g, tokens[..i] + more);
      }
    }
    PolicyIsProductive(g);
    if NoEndMarker(tokens) {
      var front := tokens[..i - 1];
      assert forall j :: 0 <= j < |front| ==> front[j] == tokens[j];
      var more :| InLanguage(g, front + more);
      ReaderDecides(g, front + more);
    }
  }

  // the generic parser on a grammar like that of policies, with a call stack linear in the input
  method RunParser(g: Grammar, names: map<Rule, string>, tokens: seq<Token>) returns (r: Spark.Parsed<Ast>)
    requires g.Valid() && g.OwnEmpties() && UnitAcyclic(g, Rank) && forall q :: g.HasRule(q) ==> q in names
    ensures r.Built? <==> InLanguage(g, tokens)
    ensures r.Built? ==> exists d :: IsDerivation(g, g.start, tokens, d) && r.value == Meaning(d)
    ensures !r.TooDeep? && (r.LookupError? ==> tokens == [])
    ensures r.SyntaxError? ==> exists i :: Spark.ErrorAt(g, tokens, r.at, i)
  {
    var parser := new Spark.GenericParser<Ast>(g, TokenValue, Action, names);
    assert parser.Loopless(Rank, 2) && parser.RulesNamed();
    r := parser.Parse(tokens, (|tokens| + 2) * (2 + 1), Rank, 2);
  }

  /** Parsing policy tokens with the chart parser and reading them with the simple reader come to
      the same: the same inputs are accepted, with the same code, whichever of several
      back-pointers tree building happens to follow. */
  method ParsePolicy(tokens: seq<Token>) returns (r: Spark.Parsed<Ast>)
    ensures r.Built? <==> Read(tokens).Some?
    ensures r.Built? ==> r.value == Lst(Read(tokens).value)
    ensures !r.TooDeep? && (r.LookupError? <==> tokens == [])
    ensures r.SyntaxError? ==> exists i :: Blamed(tokens, r.at, i)
  {
    var table := PolicyTable();
    var g := Grammar(table.rules, ValueList);
    GrammarIsFit(g);
    r := RunParser(g, table.ruleName, tokens);
    ReaderDecides(g, tokens);
    if r.SyntaxError? {
      ghost var i :| Spark.ErrorAt(g, tokens, r.at, i);
      ErrorIsBlamed(g, tokens, r.at, i);
    }
  }

  /** Printing what was parsed and parsing it again changes nothing. */
  lemma {:induction false} ReprintReads(toks: seq<Token>)
    requires Read(toks).Some?
    ensures Read(PrintAll(Read(toks).value)) == Read(toks)
  {
    ReadAllPrintable(toks);
    PrintedProgramReads(Read(toks).value);
  }

  /** Any two derivations of a program mean the same, so ambiguity cannot show. */
  lemma {:induction false} DerivationsAgree(toks: seq<Token>, t: Tree, u: Tree)
    requires IsDerivation(GRAMMAR, ValueList, toks, t) && IsDerivation(GRAMMAR, ValueList, toks, u)
    ensures Meaning(t) == Meaning(u)
  {
    GrammarIsFit(GRAMMAR);
    ReaderDecides(GRAMMAR, toks);
  }
}
