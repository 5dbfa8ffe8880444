/** How a parser's rule table comes out of the docstrings of its actions: the words of a docstring are
    cut at the arrows into rules, and each rule is filed under its left-hand side with the name
    of its action. */
module RuleTables {
  import opened Grammars

  /** The word ::= */
  const ARROW := Named("::=")

  /** The words of a docstring that lists the given rules. */
  function Words(doc: seq<Rule>): seq<Symbol> {
    if doc == [] then [] else
      var last := doc[|doc| - 1];
      Words(doc[..|doc| - 1]) + ([last.lhs, ARROW] + last.rhs)
  }

  /** No rule mentions the arrow itself. */
  ghost predicate Plain(doc: seq<Rule>) {
    forall k :: 0 <= k < |doc| ==> doc[k].lhs != ARROW && ARROW !in doc[k].rhs
  }

  // ----- where the rules stand -----

  /** Where rule k starts. */
  function Offset(doc: seq<Rule>, k: nat): nat
    requires k <= |doc|
  {
    |Words(doc[..k])|
  }

  lemma {:induction false} OffsetNext(doc: seq<Rule>, k: nat)
    requires k < |doc|
    ensures Offset(doc, k + 1) == Offset(doc, k) + 2 + |doc[k].rhs|
    ensures Words(doc[..k + 1]) == Words(doc[..k]) + ([doc[k].lhs, ARROW] + doc[k].rhs)
  {
    assert doc[..k + 1][..k] == doc[..k];
  }

  lemma {:induction false} OffsetsGrow(doc: seq<Rule>, j: nat, k: nat)
    requires j <= k <= |doc|
    ensures Offset(doc, j) + 2 * (k - j) <= Offset(doc, k)
    ensures Words(doc[..j]) <= Words(doc[..k])
  {
    if j < k {
      OffsetsGrow(doc, j, k - 1);
      OffsetNext(doc, k - 1);
    }
  }

  /** Rule k can be read off at its offset. */
  lemma {:induction false} RuleAt(doc: seq<Rule>, k: nat)
    requires k < |doc|
    ensures Spells(Words(doc), Offset(doc, k), Offset(doc, k + 1), doc[k])
  {
    OffsetNext(doc, k);
    OffsetsGrow(doc, k + 1, |doc|);
    WholeDoc(doc);
    RuleInside(Words(doc[..k]), doc[k], Words(doc));
  }

  ghost predicate Spells(words: seq<Symbol>, at: nat, next: nat, r: Rule) {
    at + 2 <= next <= |words| && words[at] == r.lhs && words[at + 1] == ARROW && words[at + 2..next] == r.rhs
  }

  lemma {:induction false} WholeDoc(doc: seq<Rule>)
    ensures doc[..|doc|] == doc && Offset(doc, |doc|) == |Words(doc)|
  {
    assert doc[..|doc|] == doc;
  }

  lemma {:induction false} RuleInside(before: seq<Symbol>, r: Rule, words: seq<Symbol>)
    requires before + ([r.lhs, ARROW] + r.rhs) <= words
    ensures Spells(words, |before|, |before| + 2 + |r.rhs|, r)
  {
    var front := before + ([r.lhs, ARROW] + r.rhs);
    var at := |before|;
    assert front[at] == r.lhs && front[at + 1] == ARROW;
    assert words[..|front|] == front;
    assert front[at + 2..] == r.rhs;
  }

  /** Arrows stand nowhere but behind the left-hand sides. */
  lemma {:induction false} ArrowsOnly(doc: seq<Rule>, i: nat, n: nat) returns (k: nat)
    requires Plain(doc) && n <= |doc| && i < Offset(doc, n) && Words(doc[..n])[i] == ARROW
    ensures k < n && i == Offset(doc, k) + 1
  {
    k := n - 1;
    OffsetNext(doc, k);
    if i < Offset(doc, k) {
      k := ArrowsOnly(doc, i, k);
    } else {
      assert Plain([doc[k]]);
      ArrowOfRule(doc[k], i - Offset(doc, k));
    }
  }

  /** With m arrows met before word i, an arrow at i belongs to rule m. */
  lemma {:induction false} NextArrow(doc: seq<Rule>, i: nat, m: nat)
    requires Plain(doc) && i < |Words(doc)| && Words(doc)[i] == ARROW && m <= |doc|
    requires forall k :: 0 <= k < m ==> Offset(doc, k) + 1 < i
    requires m < |doc| ==> i <= Offset(doc, m) + 1
    ensures m < |doc| && i == Offset(doc, m) + 1
    ensures m + 1 < |doc| ==> i + 1 <= Offset(doc, m + 1) + 1
  {
    WholeDoc(doc);
    var k := ArrowsOnly(doc, i, |doc|);
    if k > m { OffsetsGrow(doc, m, k); }
    OffsetNext(doc, k);
  }

  /** Among the first i words, index holds the place of every rule whose arrow has been met. */
  ghost predicate Found(doc: seq<Rule>, index: seq<nat>, i: nat) {
    && |index| <= |doc|
    && (forall k :: 0 <= k < |index| ==> index[k] == Offset(doc, k) && Offset(doc, k) + 1 < i)
    && (|index| < |doc| ==> i <= Offset(doc, |index|) + 1)
  }

  lemma {:induction false} FoundNext(doc: seq<Rule>, index: seq<nat>, i: nat)
    requires Plain(doc) && i < |Words(doc)| && Found(doc, index, i)
    ensures if Words(doc)[i] == ARROW then i > 0 && Found(doc, index + [i - 1], i + 1) else Found(doc, index, i + 1)
  {
    if Words(doc)[i] == ARROW {
      NextArrow(doc, i, |index|);
    } else if |index| < |doc| {
      RuleAt(doc, |index|);
    }
  }

  lemma {:induction false} FoundAll(doc: seq<Rule>, index: seq<nat>)
    requires Found(doc, index, |Words(doc)|)
    ensures |index| == |doc|
    ensures var all := index + [|Words(doc)|];
            forall k :: 0 <= k < |doc| ==> Spells(Words(doc), all[k], all[k + 1], doc[k])
  {
    if |index| < |doc| { RuleAt(doc, |index|); }
    WholeDoc(doc);
    forall k | 0 <= k < |doc|
      ensures Spells(Words(doc), Offset(doc, k), Offset(doc, k + 1), doc[k])
    {
      RuleAt(doc, k);
    }
  }

  lemma {:induction false} ArrowOfRule(r: Rule, j: nat)
    requires Plain([r]) && j < 2 + |r.rhs| && ([r.lhs, ARROW] + r.rhs)[j] == ARROW
    ensures j == 1
  {
    assert [r][0] == r;
  }

  // ----- the table -----

  function Lookup(rules: Rules, s: Symbol): seq<Rule> {
    if s in rules then rules[s] else []
  }

  /** The rules with left-hand side s, in order. */
  function For(doc: seq<Rule>, s: Symbol): seq<Rule> {
    if doc == [] then [] else
      var last := doc[|doc| - 1];
      For(doc[..|doc| - 1], s) + (if last.lhs == s then [last] else [])
  }

  /** The table gained the rules of the docstring, and nothing else. */
  ghost predicate Gained(before: Rules, after: Rules, doc: seq<Rule>) {
    forall s :: GainedFor(before, after, doc, s)
  }

  ghost predicate GainedFor(before: Rules, after: Rules, doc: seq<Rule>, s: Symbol) {
    && Lookup(after, s) == Lookup(before, s) + For(doc, s)
    && (s in after <==> s in before || For(doc, s) != [])
  }

  lemma {:induction false} GainedOne(before: Rules, rules: Rules, doc: seq<Rule>, k: nat)
    requires k < |doc| && Gained(before, rules, doc[..k])
    ensures Gained(before, rules[doc[k].lhs := Lookup(rules, doc[k].lhs) + [doc[k]]], doc[..k + 1])
  {
    var r := doc[k];
    var after := rules[r.lhs := Lookup(rules, r.lhs) + [r]];
    var front := doc[..k + 1];
    forall s
      ensures GainedFor(before, after, front, s)
    {
      ForNext(doc, k, s);
      assert GainedFor(before, rules, doc[..k], s);
      if s == r.lhs {
        Assoc(Lookup(before, s), For(doc[..k], s), [r]);
      }
    }
  }

  lemma {:induction false} ForNext(doc: seq<Rule>, k: nat, s: Symbol)
    requires k < |doc|
    ensures For(doc[..k + 1], s) == if doc[k].lhs == s then For(doc[..k], s) + [doc[k]] else For(doc[..k], s)
  {
    assert doc[..k + 1][..k] == doc[..k];
    Empty(For(doc[..k], s));
  }

  lemma {:induction false} ForOne(doc: seq<Rule>, lhs: Symbol, s: Symbol)
    requires forall k :: 0 <= k < |doc| ==> doc[k].lhs == lhs
    ensures For(doc, s) == if s == lhs then doc else []
  {
    if doc != [] {
      var n := |doc| - 1;
      ForOne(doc[..n], lhs, s);
      assert doc == doc[..n] + [doc[n]];
    }
  }

  /** A docstring about one new left-hand side adds just that entry. */
  lemma {:induction false} GainedFresh(before: Rules, after: Rules, doc: seq<Rule>, lhs: Symbol)
    requires doc != [] && lhs !in before && Gained(before, after, doc)
    requires forall k :: 0 <= k < |doc| ==> doc[k].lhs == lhs
    ensures after == before[lhs := doc]
  {
    var wanted := before[lhs := doc];
    forall s
      ensures (s in after <==> s in wanted) && (s in after ==> after[s] == wanted[s])
    {
      ForOne(doc, lhs, s);
      assert GainedFor(before, after, doc, s);
      Empty(doc);
      Empty(Lookup(before, s));
    }
  }

  /** The rules of the docstring, and no others, were given the name. */
  ghost predicate NamesGained(before: map<Rule, string>, after: map<Rule, string>, doc: seq<Rule>, name: string) {
    && after.Keys == before.Keys + (set r | r in doc)
    && forall r :: r in after ==> after[r] == if r in doc then name else before[r]
  }

  lemma {:induction false} NamesGainedOne(before: map<Rule, string>, names: map<Rule, string>, doc: seq<Rule>, k: nat,
      name: string)
    requires k < |doc| && NamesGained(before, names, doc[..k], name)
    ensures NamesGained(before, names[doc[k] := name], doc[..k + 1], name)
  {
    assert doc[..k + 1] == doc[..k] + [doc[k]];
  }

  class RuleTable {
    var rules: Rules
    var ruleName: map<Rule, string>

    constructor ()
      ensures rules == map[] && ruleName == map[]
    {
      rules, ruleName := map[], map[];
    }

    /** Read the rules off a docstring and attach them to the action of the given name. */
    method AddRule(words: seq<Symbol>, name: string, ghost doc: seq<Rule>)
      requires words == Words(doc) && Plain(doc)
      modifies this
      ensures Gained(old(rules), rules, doc)
      ensures NamesGained(old(ruleName), ruleName, doc, name)
    {
      var index: seq<nat> := [];
      var i := 0;
      while i < |words|
        invariant i <= |words| && Found(doc, index, i) && unchanged(this)
      {
        FoundNext(doc, index, i);
        if words[i] == ARROW {
          index := index + [i - 1];
        }
        i := i + 1;
      }
      FoundAll(doc, index);
      AttachAll(words, index + [|words|], name, doc);
    }

    // cut the rules out of the words, from one place to the next
    method AttachAll(words: seq<Symbol>, index: seq<nat>, name: string, ghost doc: seq<Rule>)
      requires |index| == |doc| + 1 && forall k :: 0 <= k < |doc| ==> Spells(words, index[k], index[k + 1], doc[k])
      modifies this
      ensures Gained(old(rules), rules, doc)
      ensures NamesGained(old(ruleName), ruleName, doc, name)
    {
      var i := 0;
      while i < |index| - 1
        invariant i <= |doc| && Gained(old(rules), rules, doc[..i])
        invariant NamesGained(old(ruleName), ruleName, doc[..i], name)
      {
        assert Spells(words, index[i], index[i + 1], doc[i]);
        GainedOne(old(rules), rules, doc, i);
        NamesGainedOne(old(ruleName), ruleName, doc, i, name);
        var lhs := words[index[i]];
        var rhs := words[index[i] + 2..index[i + 1]];
        Attach(Rule(lhs, rhs), name);
        i := i + 1;
      }
      WholeDoc(doc);
    }

    // put a rule at the end of its list
    method Attach(rule: Rule, name: string)
      modifies this
      ensures rules == old(rules)[rule.lhs := Lookup(old(rules), rule.lhs) + [rule]]
      ensures ruleName == old(ruleName)[rule := name]
    {
      if rule.lhs in rules {
        rules := rules[rule.lhs := rules[rule.lhs] + [rule]];
      } else {
        Empty([rule]);
        rules := rules[rule.lhs := [rule]];
      }
      ruleName := ruleName[rule := name];
    }

    /** Add the start rule. */
    method Augment(start: Symbol)
      modifies this
      ensures rules == old(rules)[Start := [Rule(Start, [start, Eof])]]
      ensures ruleName == old(ruleName)[Rule(Start, [start, Eof]) := ""]
    {
      var startRule := Rule(Start, [start, Eof]);
      rules := rules[Start := [startRule]];
      ruleName := ruleName[startRule := ""];
    }
  }
}
