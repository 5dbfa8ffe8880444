/** The reader finds a derivation for everything it reads; the printer and the joining
    of programs, seen through the reader. */
module PolicyReader {
  import opened Options
  import opened Grammars
  import opened PolicySyntax

  // ----- the reader builds derivations -----

  ghost predicate ValueTree(g: Grammar, t: Tree) {
    WellFormed(g, t) && Root(t) == Value
  }

  ghost predicate ValueTrees(g: Grammar, ts: seq<Tree>) {
    forall k :: 0 <= k < |ts| ==> ValueTree(g, ts[k])
  }

  /** The left-recursive value_list derivation over the given values. */
  function ListTree(ts: seq<Tree>): Tree
    requires ts != []
  {
    var n := |ts| - 1;
    if n == 0 then Node(Rule(ValueList, [Value]), [ts[0]])
    else Node(Rule(ValueList, [ValueList, Value]), [ListTree(ts[..n]), ts[n]])
  }

  lemma {:induction false} ListTreeDerives(g: Grammar, ts: seq<Tree>)
    requires IsPolicyGrammar(g) && ts != [] && ValueTrees(g, ts)
    ensures var t := ListTree(ts);
            WellFormed(g, t) && Root(t) == ValueList && Yield(t) == Yields(ts) && Meaning(t) == Lst(Meanings(ts))
  {
    var n := |ts| - 1;
    if n == 0 {
      assert ts == [ts[0]];
      ListOfOneTree(g, ts[0]);
    } else {
      assert forall k :: 0 <= k < n ==> ts[..n][k] == ts[k];
      ListTreeDerives(g, ts[..n]);
      assert ts == ts[..n] + [ts[n]];
      ListTreeGrows(g, ts[..n], ts[n]);
    }
  }

  lemma {:induction false} ListTreeGrows(g: Grammar, front: seq<Tree>, t: Tree)
    requires IsPolicyGrammar(g) && front != [] && ValueTree(g, t)
    requires var l := ListTree(front);
             WellFormed(g, l) && Root(l) == ValueList && Yield(l) == Yields(front) && Meaning(l) == Lst(Meanings(front))
    ensures var l := ListTree(front + [t]);
            && WellFormed(g, l) && Root(l) == ValueList
            && Yield(l) == Yields(front + [t]) && Meaning(l) == Lst(Meanings(front + [t]))
  {
    assert (front + [t])[..|front|] == front;
    ListOfMoreTrees(g, ListTree(front), t);
    YieldsAppend(front, [t]);
    YieldsOne(t);
    MeaningsSnoc(front, t);
  }

  lemma {:induction false} ListOfOneTree(g: Grammar, t: Tree)
    requires IsPolicyGrammar(g) && ValueTree(g, t)
    ensures var l := Node(Rule(ValueList, [Value]), [t]);
            WellFormed(g, l) && Yield(l) == Yields([t]) && Meaning(l) == Lst(Meanings([t]))
  {
    var l := Node(Rule(ValueList, [Value]), [t]);
    assert PolicyRule(l.rule);
    MeaningOfNode(l);
  }

  lemma {:induction false} ListOfMoreTrees(g: Grammar, front: Tree, t: Tree)
    requires IsPolicyGrammar(g) && ValueTree(g, t) && WellFormed(g, front) && Root(front) == ValueList
    ensures var l := Node(Rule(ValueList, [ValueList, Value]), [front, t]);
            WellFormed(g, l) && Yield(l) == Yield(front) + Yield(t)
            && Meaning(l) == Lst(Items(Meaning(front)) + [Meaning(t)])
  {
    var l := Node(Rule(ValueList, [ValueList, Value]), [front, t]);
    assert PolicyRule(l.rule);
    YieldOfTwo(l);
    MeaningOfNode(l);
  }

  lemma {:induction false} MeaningsSnoc(ts: seq<Tree>, t: Tree)
    ensures Meanings(ts + [t]) == Meanings(ts) + [Meaning(t)]
  {
    if ts == [] {
      assert ts + [t] == [t];
    } else {
      assert (ts + [t])[1..] == ts[1..] + [t];
      MeaningsSnoc(ts[1..], t);
    }
  }

  /** Whatever is read as a value has a derivation with that meaning. */
  lemma {:induction false} ValueDerived(g: Grammar, toks: seq<Token>) returns (t: Tree)
    requires IsPolicyGrammar(g) && ReadValue(toks).Some?
    ensures ValueTree(g, t) && Yield(t) + ReadValue(toks).value.1 == toks && Meaning(t) == ReadValue(toks).value.0
    decreases |toks|, 0
  {
    var k := toks[0].kind;
    if IsAtom(k) {
      assert !IsName(k);
      t := Wrapped(g, Leaf(toks[0]));
      assert toks == [toks[0]] + toks[1..];
    } else {
      var ts := ValuesDerived(g, toks[1..]);
      var rest := ReadValues(toks[1..]).1;
      OpenedReads(toks);
      var l := Bracketed(g, toks[0], ts, rest[0]);
      t := Wrapped(g, l);
      Reassemble(toks, Yields(ts), rest);
    }
  }

  lemma {:induction false} Reassemble(toks: seq<Token>, body: seq<Token>, rest: seq<Token>)
    requires toks != [] && rest != [] && toks[1..] == body + rest
    ensures ([toks[0]] + body + [rest[0]]) + rest[1..] == toks
  {
    assert toks == [toks[0]] + toks[1..] && rest == [rest[0]] + rest[1..];
    assert ([toks[0]] + body + [rest[0]]) + rest[1..] == [toks[0]] + (body + ([rest[0]] + rest[1..]));
  }

  lemma {:induction false} Wrapped(g: Grammar, kid: Tree) returns (t: Tree)
    requires IsPolicyGrammar(g) && WellFormed(g, kid) && (IsAtom(Root(kid)) || IsListSymbol(Root(kid)))
    ensures ValueTree(g, t) && Yield(t) == Yield(kid) && Meaning(t) == Meaning(kid)
  {
    t := Node(Rule(Value, [Root(kid)]), [kid]);
    assert PolicyRule(t.rule);
    YieldsOne(kid);
    MeaningOfNode(t);
  }

  lemma {:induction false} OpenedReads(toks: seq<Token>)
    requires ReadValue(toks).Some? && !IsAtom(toks[0].kind)
    ensures IsOpener(toks[0].kind)
    ensures var (items, rest) := ReadValues(toks[1..]);
            && rest != [] && rest[0].kind == Closer(toks[0].kind)
            && ReadValue(toks).value == (Wrap(toks[0].kind, items), rest[1..])
  {
  }

  lemma {:induction false} Bracketed(g: Grammar, open: Token, ts: seq<Tree>, close: Token) returns (t: Tree)
    requires IsPolicyGrammar(g) && IsOpener(open.kind) && close.kind == Closer(open.kind)
    requires ValueTrees(g, ts)
    ensures WellFormed(g, t) && IsListSymbol(Root(t))
    ensures Yield(t) == [open] + Yields(ts) + [close] && Meaning(t) == Wrap(open.kind, Meanings(ts))
  {
    if ts == [] {
      t := EmptyBrackets(g, open, close);
    } else {
      ListTreeDerives(g, ts);
      t := FullBrackets(g, open, ListTree(ts), close);
    }
  }

  lemma {:induction false} EmptyBrackets(g: Grammar, open: Token, close: Token) returns (t: Tree)
    requires IsPolicyGrammar(g) && IsOpener(open.kind) && close.kind == Closer(open.kind)
    ensures WellFormed(g, t) && Root(t) == BracketOf(open.kind) && IsListSymbol(Root(t))
    ensures Yield(t) == [open] + [] + [close] && Meaning(t) == Wrap(open.kind, [])
  {
    assert !IsName(open.kind) && !IsName(close.kind);
    t := Node(Rule(BracketOf(open.kind), [open.kind, close.kind]), [Leaf(open), Leaf(close)]);
    assert PolicyRule(t.rule);
    assert WellFormed(g, t.kids[0]) && WellFormed(g, t.kids[1]);
    YieldOfTwo(t);
    BracketsMean(t);
  }

  lemma {:induction false} FullBrackets(g: Grammar, open: Token, body: Tree, close: Token) returns (t: Tree)
    requires IsPolicyGrammar(g) && IsOpener(open.kind) && close.kind == Closer(open.kind)
    requires WellFormed(g, body) && Root(body) == ValueList
    ensures WellFormed(g, t) && IsListSymbol(Root(t))
    ensures Yield(t) == [open] + Yield(body) + [close] && Meaning(t) == Wrap(open.kind, Items(Meaning(body)))
  {
    t := Node(Rule(BracketOf(open.kind), [open.kind, ValueList, close.kind]), [Leaf(open), body, Leaf(close)]);
    BracketsDerive(g, t);
    YieldOfThree(t);
    BracketsMean(t);
  }

  lemma {:induction false} BracketsDerive(g: Grammar, t: Tree)
    requires IsPolicyGrammar(g) && t.Node? && |t.kids| == 3 && ListRule(t.rule) && |t.rule.rhs| == 3
    requires t.kids[0].Leaf? && t.kids[0].tok.kind == t.rule.rhs[0]
    requires t.kids[2].Leaf? && t.kids[2].tok.kind == t.rule.rhs[2]
    requires WellFormed(g, t.kids[1]) && Root(t.kids[1]) == ValueList
    ensures WellFormed(g, t) && IsListSymbol(Root(t))
  {
    assert PolicyRule(t.rule);
    assert !IsName(t.rule.rhs[0]) && !IsName(t.rule.rhs[2]);
    forall k | 0 <= k < 3
      ensures WellFormed(g, t.kids[k]) && Root(t.kids[k]) == t.rule.rhs[k]
    {
      assert k == 0 || k == 1 || k == 2;
    }
  }

  lemma {:induction false} BracketsMean(t: Tree)
    requires t.Node? && ListRule(t.rule) && |t.kids| == |t.rule.rhs|
    ensures Meaning(t) == Wrap(t.rule.rhs[0], if |t.kids| == 3 then Items(Meaning(t.kids[1])) else [])
  {
    MeaningOfNode(t);
    ActionWraps(t.rule, Meanings(t.kids));
  }

  lemma {:induction false} ValuesStep(toks: seq<Token>)
    requires ReadValue(toks).Some?
    ensures var (v, rest) := ReadValue(toks).value;
            ReadValues(toks) == ([v] + ReadValues(rest).0, ReadValues(rest).1)
  {
  }

  lemma {:induction false} ValuesDerived(g: Grammar, toks: seq<Token>) returns (ts: seq<Tree>)
    requires IsPolicyGrammar(g)
    ensures ValueTrees(g, ts) && Yields(ts) + ReadValues(toks).1 == toks && Meanings(ts) == ReadValues(toks).0
    decreases |toks|, 1
  {
    if ReadValue(toks).None? {
      ts := [];
    } else {
      var t := ValueDerived(g, toks);
      var rest := ReadValue(toks).value.1;
      var ts' := ValuesDerived(g, rest);
      ts := [t] + ts';
      ValuesStep(toks);
      ForestStep(t, ts', toks, rest, ReadValues(rest).1);
    }
  }

  lemma {:induction false} ForestStep(t: Tree, ts: seq<Tree>, toks: seq<Token>, mid: seq<Token>, rest: seq<Token>)
    requires Yield(t) + mid == toks && Yields(ts) + rest == mid
    ensures Yields([t] + ts) + rest == toks && Meanings([t] + ts) == [Meaning(t)] + Meanings(ts)
  {
    assert ([t] + ts)[1..] == ts;
    assert (Yield(t) + Yields(ts)) + rest == Yield(t) + (Yields(ts) + rest);
  }

  // ----- the reader decides the language -----

  /** Reading is exactly deriving: the reader succeeds on the token lists of the language, and
      every derivation of a token list means what the reader returns. */
  lemma {:induction false} ReaderDecides(g: Grammar, toks: seq<Token>)
    requires IsPolicyGrammar(g)
    ensures InLanguage(g, toks) <==> Read(toks).Some?
    ensures forall t :: IsDerivation(g, ValueList, toks, t) ==> Read(toks).Some? && Meaning(t) == Lst(Read(toks).value)
  {
    forall t | IsDerivation(g, ValueList, toks, t)
      ensures Read(toks).Some? && Meaning(t) == Lst(Read(toks).value)
    {
      ValuesRead(g, t, []);
      assert toks + [] == toks && Meaning(t).items + [] == Meaning(t).items;
      assert ReadValues([]) == ([], []);
    }
    if Read(toks).Some? {
      var ts := ValuesDerived(g, toks);
      ListTreeDerives(g, ts);
      assert Yields(ts) + [] == Yields(ts);
      assert IsDerivation(g, ValueList, toks, ListTree(ts));
    }
  }

  // ----- printing -----

  /** Code made of tokens that can stand alone as values. */
  predicate Printable(a: Ast) {
    match a
    case Atom(tok) => IsAtom(tok.kind)
    case Lst(items) => forall k :: 0 <= k < |items| ==> Printable(items[k])
  }

  predicate PrintableAll(code: seq<Ast>) {
    forall k :: 0 <= k < |code| ==> Printable(code[k])
  }

  const OPEN := Token(OpenParen, "(", "", None)
  const CLOSE := Token(CloseParen, ")", "", None)

  function Print(a: Ast): seq<Token> {
    match a
    case Atom(tok) => [tok]
    case Lst(items) => [OPEN] + PrintAll(items) + [CLOSE]
  }

  function PrintAll(code: seq<Ast>): seq<Token> {
    if code == [] then [] else Print(code[0]) + PrintAll(code[1..])
  }

  /** Printed code reads back as itself, whatever follows it. */
  lemma {:induction false} PrintReads(a: Ast, rest: seq<Token>)
    requires Printable(a)
    ensures ReadValue(Print(a) + rest) == Some((a, rest))
    decreases a, 0
  {
    match a
    case Atom(tok) => AtomReads(tok, rest);
    case Lst(items) =>
      PrintAllReads(items, [CLOSE] + rest);
      BracketedReads(PrintAll(items), items, rest);
  }

  lemma {:induction false} BracketedReads(body: seq<Token>, items: seq<Ast>, rest: seq<Token>)
    requires ReadsOn(body + ([CLOSE] + rest), items, [CLOSE] + rest)
    ensures ReadValue([OPEN] + body + [CLOSE] + rest) == Some((Lst(items), rest))
  {
    CloserReadsNothing([CLOSE] + rest);
    Empty(items);
    BracketReads(OPEN, body, CLOSE, rest);
    Assoc([OPEN] + body, [CLOSE], rest);
    Assoc([OPEN], body, [CLOSE] + rest);
  }

  lemma {:induction false} PrintAllReads(code: seq<Ast>, rest: seq<Token>)
    requires PrintableAll(code)
    ensures ReadsOn(PrintAll(code) + rest, code, rest)
    decreases code, 1
  {
    if code == [] {
      assert [] + rest == rest && [] + ReadValues(rest).0 == ReadValues(rest).0;
    } else {
      var more := PrintAll(code[1..]) + rest;
      PrintAllReads(code[1..], rest);
      PrintReads(code[0], more);
      PrintStep(code, rest, more);
    }
  }

  lemma {:induction false} PrintStep(code: seq<Ast>, rest: seq<Token>, more: seq<Token>)
    requires code != [] && more == PrintAll(code[1..]) + rest
    ensures ReadValue(Print(code[0]) + more) == Some((code[0], more)) && ReadsOn(more, code[1..], rest) ==>
              ReadsOn(PrintAll(code) + rest, code, rest)
  {
    if ReadValue(Print(code[0]) + more).Some? { ValuesStep(Print(code[0]) + more); }
    Assoc(Print(code[0]), PrintAll(code[1..]), rest);
    Assoc([code[0]], code[1..], ReadValues(rest).0);
    FirstRest(code);
  }

  /** Round trip: a printed program reads back as the same program. */
  lemma {:induction false} PrintedProgramReads(code: seq<Ast>)
    requires PrintableAll(code) && code != []
    ensures Read(PrintAll(code)) == Some(code)
  {
    PrintAllReads(code, []);
    assert PrintAll(code) + [] == PrintAll(code) && code + [] == code;
  }

  lemma {:induction false} ReadIsPrintable(toks: seq<Token>)
    ensures ReadValue(toks).Some? ==> Printable(ReadValue(toks).value.0)
    decreases |toks|, 0
  {
    if toks != [] && !IsAtom(toks[0].kind) && IsOpener(toks[0].kind) {
      ReadAllPrintable(toks[1..]);
    }
  }

  lemma {:induction false} ReadAllPrintable(toks: seq<Token>)
    ensures PrintableAll(ReadValues(toks).0)
    decreases |toks|, 1
  {
    ReadIsPrintable(toks);
    if ReadValue(toks).Some? { ReadAllPrintable(ReadValue(toks).value.1); }
  }

  // ----- joining programs -----

  /** What has been read is not touched by text that follows, as long as reading stopped at a
      closing bracket or used up the input. */
  lemma {:induction false} ValueThenMore(a: seq<Token>, b: seq<Token>)
    requires ReadValue(a).Some?
    ensures ReadValue(a + b) == Some((ReadValue(a).value.0, ReadValue(a).value.1 + b))
    decreases |a|, 0
  {
    assert (a + b)[1..] == a[1..] + b;
    if !IsAtom(a[0].kind) {
      ValuesThenMore(a[1..], b);
      ClosedThenMore(a, b);
    }
  }

  lemma {:induction false} ClosedThenMore(a: seq<Token>, b: seq<Token>)
    requires ReadValue(a).Some? && !IsAtom(a[0].kind)
    requires var (items, rest) := ReadValues(a[1..]);
             ReadsOn(a[1..] + b, items, rest + b)
    ensures ReadValue(a + b) == Some((ReadValue(a).value.0, ReadValue(a).value.1 + b))
  {
    OpenedReads(a);
    var (items, rest) := ReadValues(a[1..]);
    CloserReadsNothing(rest + b);
    OpenReads(a[0], a[1..] + b, items, rest + b);
    FirstRest(a);
    Assoc([a[0]], a[1..], b);
    TailOfJoin(rest, b);
  }

  lemma {:induction false} TailOfJoin(a: seq<Token>, b: seq<Token>)
    requires a != []
    ensures (a + b)[1..] == a[1..] + b && (a + b)[0] == a[0]
  {
  }

  lemma {:induction false} OpenReads(open: Token, body: seq<Token>, items: seq<Ast>, rest: seq<Token>)
    requires IsOpener(open.kind) && rest != [] && rest[0].kind == Closer(open.kind)
    requires ReadValues(body) == (items + [], rest)
    ensures ReadValue([open] + body) == Some((Wrap(open.kind, items), rest[1..]))
  {
    TailOfJoin([open], body);
    Empty(body);
    Empty(items);
    OpenerReads([open] + body, items, rest);
  }

  lemma {:induction false} ValuesThenMore(a: seq<Token>, b: seq<Token>)
    requires var rest := ReadValues(a).1; rest == [] || IsCloser(rest[0].kind)
    ensures var (vs, rest) := ReadValues(a);
            ReadsOn(a + b, vs, rest + b)
    decreases |a|, 1
  {
    if ReadValue(a).None? {
      Empty(ReadValues(a + b).0);
    } else {
      var (v, rest) := ReadValue(a).value;
      ValueThenMore(a, b);
      ValuesThenMore(rest, b);
      ValuesStep(a);
      ValuesStep(a + b);
      var (vs, rest') := ReadValues(rest);
      Assoc([v], vs, ReadValues(rest' + b).0);
    }
  }

  /** Joining a valid program with any tokens gives a valid program exactly when the tokens are
      one too (or none at all), and then the code is the joined code. */
  lemma {:induction false} JoinedProgramsRead(a: seq<Token>, b: seq<Token>)
    requires Read(a).Some?
    ensures Read(a + b).Some? <==> b == [] || Read(b).Some?
    ensures Read(b).Some? ==> Read(a + b) == Some(Read(a).value + Read(b).value)
  {
    ValuesThenMore(a, b);
    Empty(b);
    Empty(a);
  }
  // ----- the three kinds of brackets -----

  predicate Pair(open: Token, close: Token) {
    || (open.kind == OpenParen && close.kind == CloseParen)
    || (open.kind == OpenBracket && close.kind == CloseBracket)
    || (open.kind == OpenBrace && close.kind == CloseBrace)
  }

  /** Brackets of any kind around values read as their list; braces put eval in front of it. */
  lemma {:induction false} BracketsRead(open: Token, body: seq<Token>, close: Token, rest: seq<Token>)
    requires Pair(open, close) && ReadValues(body).1 == []
    ensures var items := ReadValues(body).0;
            ReadValue([open] + (body + ([close] + rest))) ==
            Some((Lst(if open.kind == OpenBrace then [Atom(EVAL_TOKEN)] + items else items), rest))
  {
    var items := ReadValues(body).0;
    ValuesThenMore(body, [close] + rest);
    CloserReadsNothing([close] + rest);
    Empty(items);
    Empty([close] + rest);
    BracketReads(open, body, close, rest);
    assert [] + items == items;
  }

  /** x and y are what is left of a before t and before u, from place k on. */
  ghost predicate Left(a: seq<Token>, t: seq<Token>, u: seq<Token>, x: seq<Token>, y: seq<Token>, k: nat) {
    k <= |a| && x == a[k..] + t && y == a[k..] + u
  }

  lemma {:induction false} LeftLater(a: seq<Token>, j: nat, t: seq<Token>, u: seq<Token>, x: seq<Token>,
      y: seq<Token>, k: nat)
    requires j <= |a| && Left(a[j..], t, u, x, y, k)
    ensures Left(a, t, u, x, y, j + k)
  {
    assert a[j..][k..] == a[j + k..];
  }

  lemma {:induction false} LeftTail(a: seq<Token>, t: seq<Token>, u: seq<Token>, x: seq<Token>, y: seq<Token>, k: nat)
    requires Left(a, t, u, x, y, k) && k < |a|
    ensures x != [] && y != [] && x[0] == y[0] && Left(a, t, u, x[1..], y[1..], k + 1)
  {
    TailOfJoin(a[k..], t);
    TailOfJoin(a[k..], u);
    assert a[k..][1..] == a[k + 1..];
  }

  /** Where one value can be read, another text that reads as the same value can stand. */
  lemma {:induction false} ValueReplaced(a: seq<Token>, t: seq<Token>, u: seq<Token>) returns (k: nat)
    requires a != [] && ReadValue(t).Some? && ReadValue(t) == ReadValue(u)
    ensures ReadValue(a + t).Some? <==> ReadValue(a + u).Some?
    ensures ReadValue(a + t).Some? ==>
              var (v, x) := ReadValue(a + t).value; var (w, y) := ReadValue(a + u).value;
              v == w && (x == y || Left(a, t, u, x, y, k))
    decreases |a|, 0
  {
    k := 1;
    TailOfJoin(a, t);
    TailOfJoin(a, u);
    if IsOpener(a[0].kind) {
      var j := ValuesReplaced(a[1..], t, u);
      var (x, y) := (ReadValues(a[1..] + t).1, ReadValues(a[1..] + u).1);
      if x != y {
        LeftTail(a[1..], t, u, x, y, j);
        LeftLater(a, 1, t, u, x[1..], y[1..], j + 1);
        k := j + 2;
      }
      SameClosed(a + t, a + u);
    }
  }

  lemma {:induction false} SameClosed(t: seq<Token>, u: seq<Token>)
    requires t != [] && u != [] && t[0] == u[0] && IsOpener(t[0].kind)
    requires var (vs, x) := ReadValues(t[1..]); var (ws, y) := ReadValues(u[1..]);
             vs == ws && (x == y || (x != [] && y != [] && x[0] == y[0]))
    ensures ReadValue(t).Some? <==> ReadValue(u).Some?
    ensures ReadValue(t).Some? ==>
              var (x, y) := (ReadValues(t[1..]).1, ReadValues(u[1..]).1);
              && x != [] && y != [] && ReadValue(t).value.0 == ReadValue(u).value.0
              && ReadValue(t).value.1 == x[1..] && ReadValue(u).value.1 == y[1..]
  {
  }

  lemma {:induction false} ValuesReplaced(a: seq<Token>, t: seq<Token>, u: seq<Token>) returns (k: nat)
    requires ReadValue(t).Some? && ReadValue(t) == ReadValue(u)
    ensures var (vs, x) := ReadValues(a + t); var (ws, y) := ReadValues(a + u);
            vs == ws && (x == y || (Left(a, t, u, x, y, k) && k < |a|))
    decreases |a|, 1
  {
    k := 0;
    if a == [] {
      assert a + t == t && a + u == u;
    } else {
      var j := ValueReplaced(a, t, u);
      if ReadValue(a + t).Some? {
        var (x, y) := (ReadValue(a + t).value.1, ReadValue(a + u).value.1);
        if x != y { k := MoreReplaced(a, t, u, x, y, j); }
      }
    }
  }

  lemma {:induction false} MoreReplaced(a: seq<Token>, t: seq<Token>, u: seq<Token>, x: seq<Token>, y: seq<Token>,
      j: nat) returns (k: nat)
    requires ReadValue(t).Some? && ReadValue(t) == ReadValue(u)
    requires Left(a, t, u, x, y, j) && |x| < |a + t|
    ensures var (vs, x') := ReadValues(x); var (ws, y') := ReadValues(y);
            vs == ws && (x' == y' || (Left(a, t, u, x', y', k) && k < |a|))
    decreases |a|, 0
  {
    k := ValuesReplaced(a[j..], t, u);
    var (x', y') := (ReadValues(x).1, ReadValues(y).1);
    if x' != y' { LeftLater(a, j, t, u, x', y', k); }
    k := j + k;
  }

  lemma {:induction false} ProgramReplaced(a: seq<Token>, t: seq<Token>, u: seq<Token>)
    requires ReadValue(t).Some? && ReadValue(t) == ReadValue(u)
    ensures Read(a + t) == Read(a + u)
  {
    var _ := ValuesReplaced(a, t, u);
  }

  /** Brackets may stand for parentheses, anywhere and around any values. */
  lemma {:induction false} BracketsForParentheses(a: seq<Token>, open: Token, open': Token, body: seq<Token>,
      close: Token, close': Token, b: seq<Token>)
    requires open.kind == OpenParen && close.kind == CloseParen
    requires open'.kind == OpenBracket && close'.kind == CloseBracket
    requires ReadValues(body).1 == []
    ensures Read(a + ([open] + (body + ([close] + b)))) == Read(a + ([open'] + (body + ([close'] + b))))
  {
    BracketsRead(open, body, close, b);
    BracketsRead(open', body, close', b);
    ProgramReplaced(a, [open] + (body + ([close] + b)), [open'] + (body + ([close'] + b)));
  }

  /** Braces may stand for parentheses with eval in front of the values. */
  lemma {:induction false} BracesForEval(a: seq<Token>, open: Token, open': Token, body: seq<Token>,
      close: Token, close': Token, b: seq<Token>)
    requires open.kind == OpenParen && close.kind == CloseParen
    requires open'.kind == OpenBrace && close'.kind == CloseBrace
    requires ReadValues(body).1 == []
    ensures Read(a + ([open] + (([EVAL_TOKEN] + body) + ([close] + b)))) ==
            Read(a + ([open'] + (body + ([close'] + b))))
  {
    var body' := [EVAL_TOKEN] + body;
    AtomReads(EVAL_TOKEN, body);
    ValuesStep(body');
    BracketsRead(open, body', close, b);
    BracketsRead(open', body, close', b);
    ProgramReplaced(a, [open] + (body' + ([close] + b)), [open'] + (body + ([close'] + b)));
  }
}
