/** User functions are called by rewriting the call into a let, which evaluates each argument
    with the earlier parameters already bound. When that amounts to call by value. */
module CallByValue {
  import opened Options
  import opened Grammars
  import opened PolicySyntax
  import opened Evaluation
  import opened ScopeFrame

  // ----- the names an expression can look up -----

  function NamesOf<W>(env: Env<W>, tok: Token): set<string> {
    match HeadName(env, tok)
    case None => {}
    case Some(name) => {name, Base(name)}
  }

  function Mentions<W>(env: Env<W>, code: Ast): set<string> {
    match code
    case Atom(tok) => NamesOf(env, tok)
    case Lst(items) => MentionsAll(env, items)
  }

  function MentionsAll<W>(env: Env<W>, items: seq<Ast>): set<string> {
    if items == [] then {} else Mentions(env, items[0]) + MentionsAll(env, items[1..])
  }

  lemma {:induction false} MentionedPart<W>(env: Env<W>, items: seq<Ast>, k: nat)
    requires k < |items|
    ensures Mentions(env, items[k]) <= MentionsAll(env, items)
  {
    if k > 0 { MentionedPart(env, items[1..], k - 1); }
  }

  lemma {:induction false} MentionedOnlyParts<W>(env: Env<W>, items: seq<Ast>, names: set<string>)
    requires forall k :: 0 <= k < |items| ==> Mentions(env, items[k]) <= names
    ensures MentionsAll(env, items) <= names
  {
    if items != [] { MentionedOnlyParts(env, items[1..], names); }
  }

  /** A list whose head is no token is never more than an error. */
  predicate Headless(items: seq<Ast>) {
    items == [] || items[0].Lst?
  }

  /** A let with a list of lists; if some variable is called let, it fails at that list. */
  predicate LetOverLists(items: seq<Ast>) {
    && |items| >= 2 && items[0].Atom? && items[0].tok.kind == Sym && items[0].tok.value == "let"
    && items[1].Lst? && Headless(items[1].items)
  }

  predicate HeadIs<W>(env: Env<W>, items: seq<Ast>, b: Builtin) {
    && items != [] && items[0].Atom? && HeadName(env, items[0].tok).Some?
    && HeadName(env, items[0].tok).value in env.builtins && env.builtins[HeadName(env, items[0].tok).value] == b
  }

  /** Evaluating the expression defines no variable in the scope it starts in. */
  predicate DefinesNothing<W>(env: Env<W>, code: Ast) {
    match code
    case Atom(_) => true
    case Lst(items) =>
      || Headless(items) || LetOverLists(items)
      || (!HeadIs(env, items, Defvar) && forall k :: 0 <= k < |items| ==> DefinesNothing(env, items[k]))
  }

  // ----- a vocabulary: names closed under the functions that can be reached -----

  ghost predicate Vocabulary<W>(env: Env<W>, names: set<string>, funcs: Funcs) {
    && "let" in env.builtins && env.builtins["let"] == Let && "let" in names
    && (forall n :: n in names && n in env.builtins ==> env.builtins[n] != Def)
    && (forall f :: f in funcs && f in names ==>
          Mentions(env, funcs[f].0) <= names && Mentions(env, funcs[f].1) <= names)
  }

  /** Fit to be evaluated below d scopes that sit on top of the hidden one. */
  ghost predicate Clean<W>(env: Env<W>, names: set<string>, d: nat, code: Ast) {
    Mentions(env, code) <= names && (d == 0 ==> DefinesNothing(env, code))
  }

  // ----- the same run with one more scope underneath -----

  function Inserted(stack: seq<Scope>, d: nat, hidden: Scope): seq<Scope>
    requires d <= |stack|
  {
    stack[..d] + [hidden] + stack[d..]
  }

  ghost predicate Under<W>(d: nat, hidden: Scope, funcs: Funcs, s: State<W>, t: State<W>) {
    && d <= |t.stack| && s.stack == Inserted(t.stack, d, hidden)
    && s.funcs == t.funcs == funcs && s.world == t.world
  }

  ghost predicate Alike<T, W>(d: nat, hidden: Scope, funcs: Funcs, r: Res<T, W>, q: Res<T, W>) {
    match (r, q)
    case (Ok(v, s), Ok(u, t)) => v == u && Under(d, hidden, funcs, s, t)
    case (Err(e, _), Err(f, _)) => e == f
    case _ => false
  }

  ghost predicate Blind<W(!new)>(env: Env<W>, ev: Ev<W>, names: set<string>, hidden: Scope, funcs: Funcs) {
    && (forall d: nat, code, s, t {:trigger Alike(d, hidden, funcs, ev(code, s), ev(code, t))} ::
          Clean(env, names, d, code) && Under(d, hidden, funcs, s, t) ==>
            Alike(d, hidden, funcs, ev(code, s), ev(code, t)))
    && (forall items, s :: Headless(items) ==> ev(Lst(items), s).Err?)
  }

  ghost predicate Fit<W(!new)>(env: Env<W>, ev: Ev<W>, names: set<string>, hidden: Scope, funcs: Funcs) {
    Vocabulary(env, names, funcs) && names !! hidden.Keys && Blind(env, ev, names, hidden, funcs)
  }

  lemma {:induction false} GetUnder<W>(env: Env<W>, world: W, stack: seq<Scope>, d: nat, hidden: Scope, name: string)
    requires d <= |stack| && Base(name) !in hidden
    ensures Get(env, world, Inserted(stack, d, hidden), name) == Get(env, world, stack, name)
    decreases d
  {
    var more := Inserted(stack, d, hidden);
    if d == 0 {
      assert more[1..] == stack;
    } else {
      assert more[1..] == Inserted(stack[1..], d - 1, hidden);
      GetUnder(env, world, stack[1..], d - 1, hidden, name);
    }
  }

  lemma {:induction false} AssignUnder(stack: seq<Scope>, d: nat, hidden: Scope, name: string, v: Value)
    requires d <= |stack| && name !in hidden
    ensures var r, q := Assign(Inserted(stack, d, hidden), name, v), Assign(stack, name, v);
            r.Some? == q.Some? && (q.Some? ==> r.value == Inserted(q.value, d, hidden))
    decreases d
  {
    if d == 0 {
      InsertedOnTop(stack, hidden);
      assert ([hidden] + stack)[1..] == stack;
      if q :| Assign(stack, name, v) == Some(q) { InsertedOnTop(q, hidden); }
    } else {
      var rest, scope := stack[1..], stack[0];
      assert stack == [scope] + rest;
      AssignUnder(rest, d - 1, hidden, name, v);
      AssignBelow(scope, rest, name, v);
      AssignBelow(scope, Inserted(rest, d - 1, hidden), name, v);
      PushUnder(rest, d - 1, hidden, scope);
      PushUnder(rest, d - 1, hidden, scope[name := v]);
      if q :| Assign(rest, name, v) == Some(q) { PushUnder(q, d - 1, hidden, scope); }
    }
  }

  lemma {:induction false} AssignBelow(scope: Scope, rest: seq<Scope>, name: string, v: Value)
    ensures Assign([scope] + rest, name, v) ==
            if name in scope then Some([scope[name := v]] + rest)
            else match Assign(rest, name, v) case Some(q) => Some([scope] + q) case None => None
  {
    assert ([scope] + rest)[1..] == rest;
  }

  lemma {:induction false} InsertedOnTop(stack: seq<Scope>, scope: Scope)
    ensures Inserted(stack, 0, scope) == [scope] + stack
  {
  }

  lemma {:induction false} PushUnder(stack: seq<Scope>, d: nat, hidden: Scope, top: Scope)
    requires d <= |stack|
    ensures [top] + Inserted(stack, d, hidden) == Inserted([top] + stack, d + 1, hidden)
  {
  }

  lemma {:induction false} PopUnder(stack: seq<Scope>, d: nat, hidden: Scope)
    requires 0 < d <= |stack|
    ensures Inserted(stack, d, hidden)[1..] == Inserted(stack[1..], d - 1, hidden)
    ensures Inserted(stack, d, hidden)[0] == stack[0]
  {
  }

  lemma {:induction false} AllocUnder(stack: seq<Scope>, d: nat, hidden: Scope, name: string, v: Value)
    requires 0 < d <= |stack|
    ensures Alloc(Inserted(stack, d, hidden), name, v) == Inserted(Alloc(stack, name, v), d, hidden)
  {
  }

  lemma {:induction false} ListUnder<W(!new)>(env: Env<W>, ev: Ev<W>, names: set<string>, hidden: Scope, funcs: Funcs,
      d: nat, items: seq<Ast>, s: State<W>, t: State<W>)
    requires Blind(env, ev, names, hidden, funcs) && Under(d, hidden, funcs, s, t)
    requires forall k :: 0 <= k < |items| ==> Clean(env, names, d, items[k])
    ensures Alike(d, hidden, funcs, EvalList(ev, items, s), EvalList(ev, items, t))
  {
    if items != [] {
      assert Alike(d, hidden, funcs, ev(items[0], s), ev(items[0], t));
      if ev(items[0], s).Ok? {
        ListUnder(env, ev, names, hidden, funcs, d, items[1..], ev(items[0], s).st, ev(items[0], t).st);
      }
    }
  }

  ghost predicate CleanArg<W>(env: Env<W>, names: set<string>, d: nat, a: Arg) {
    match a
    case Name(n) => n in names && Base(n) in names
    case Code(c) => Clean(env, names, d, c)
    case Val(_) => true
  }

  lemma {:induction false} ConvertUnder<W(!new)>(env: Env<W>, ev: Ev<W>, names: set<string>, hidden: Scope,
      funcs: Funcs, d: nat, types: seq<ArgType>, args: seq<Ast>, i: nat, line: Option<int>, s: State<W>, t: State<W>)
    requires Blind(env, ev, names, hidden, funcs) && Under(d, hidden, funcs, s, t)
    requires types != [] && i <= |args| && ArityOk(types, |args|)
    requires forall k :: 0 <= k < |args| ==> Clean(env, names, d, args[k])
    ensures var r := ConvertArgs(ev, types, args, i, line, s);
            && Alike(d, hidden, funcs, r, ConvertArgs(ev, types, args, i, line, t))
            && (r.Ok? ==> forall a :: a in r.value ==> CleanArg(env, names, d, a))
    decreases |args| - i
  {
    if i < |args| {
      assert Clean(env, names, d, args[i]);
      assert Alike(d, hidden, funcs, ev(args[i], s), ev(args[i], t));
      var ty := TypeAt(types, i);
      var r, q := ConvertArg(ev, ty, args[i], line, s), ConvertArg(ev, ty, args[i], line, t);
      if r.Ok? {
        ConvertUnder(env, ev, names, hidden, funcs, d, types, args, i + 1, line, r.st, q.st);
      }
    }
  }

  lemma {:induction false} BindUnder<W(!new)>(env: Env<W>, ev: Ev<W>, names: set<string>, hidden: Scope, funcs: Funcs,
      d: nat, syms: seq<Ast>, s: State<W>, t: State<W>)
    requires Blind(env, ev, names, hidden, funcs) && Under(d, hidden, funcs, s, t) && d > 0
    requires MentionsAll(env, syms) <= names
    ensures Alike(d, hidden, funcs, BindAll(ev, syms, s), BindAll(ev, syms, t))
  {
    if syms != [] && syms[0].Lst? && |syms[0].items| == 2 &&
       syms[0].items[0].Atom? && syms[0].items[0].tok.kind == Sym {
      var name, value := syms[0].items[0].tok.value, syms[0].items[1];
      MentionedPart(env, syms[0].items, 1);
      assert Clean(env, names, d, value);
      assert Alike(d, hidden, funcs, ev(value, s), ev(value, t));
      if ev(value, s).Ok? && ev(value, t).st.stack != [] {
        var s', t' := ev(value, s).st, ev(value, t).st;
        AllocUnder(t'.stack, d, hidden, name, ev(value, s).value);
        BindUnder(env, ev, names, hidden, funcs, d, syms[1..],
                  s'.(stack := Alloc(s'.stack, name, ev(value, s).value)),
                  t'.(stack := Alloc(t'.stack, name, ev(value, s).value)));
      }
    }
  }

  lemma {:induction false} LetUnder<W(!new)>(env: Env<W>, ev: Ev<W>, names: set<string>, hidden: Scope, funcs: Funcs,
      d: nat, syms: Ast, code: seq<Ast>, s: State<W>, t: State<W>)
    requires Blind(env, ev, names, hidden, funcs) && Under(d, hidden, funcs, s, t)
    requires Mentions(env, syms) <= names
    requires forall k :: 0 <= k < |code| ==> Mentions(env, code[k]) <= names
    ensures Alike(d, hidden, funcs, EvalLet(ev, syms, code, s), EvalLet(ev, syms, code, t))
  {
    if syms.Lst? {
      PushUnder(t.stack, d, hidden, map[]);
      var s1, t1 := s.(stack := Push(s.stack)), t.(stack := Push(t.stack));
      BindUnder(env, ev, names, hidden, funcs, d + 1, syms.items, s1, t1);
      var rs, rt := BindAll(ev, syms.items, s1), BindAll(ev, syms.items, t1);
      if rs.Ok? {
        ListUnder(env, ev, names, hidden, funcs, d + 1, code, rs.st, rt.st);
        var qs, qt := EvalList(ev, code, rs.st), EvalList(ev, code, rt.st);
        if qs.Ok? { PopUnder(qt.st.stack, d + 1, hidden); }
      }
    }
  }

  lemma {:induction false} WithUnder<W(!new)>(env: Env<W>, ev: Ev<W>, names: set<string>, hidden: Scope, funcs: Funcs,
      d: nat, items: seq<Value>, iterator_: string, code: Ast, s: State<W>, t: State<W>)
    requires Blind(env, ev, names, hidden, funcs) && Under(d, hidden, funcs, s, t)
    requires Mentions(env, code) <= names
    ensures Alike(d, hidden, funcs, EvalWithLoop(ev, items, iterator_, code, s),
                  EvalWithLoop(ev, items, iterator_, code, t))
  {
    if items != [] {
      var top := map[iterator_ := items[0]];
      PushUnder(t.stack, d, hidden, top);
      var s1, t1 := s.(stack := [top] + s.stack), t.(stack := [top] + t.stack);
      assert Clean(env, names, d + 1, code);
      assert Alike(d + 1, hidden, funcs, ev(code, s1), ev(code, t1));
      if ev(code, s1).Ok? {
        PopUnder(ev(code, t1).st.stack, d + 1, hidden);
        var v := ev(code, s1).value;
        WithUnder(env, ev, names, hidden, funcs, d, items[1..], iterator_, code,
                  Leave(v, ev(code, s1).st).st, Leave(v, ev(code, t1).st).st);
      }
    }
  }

  lemma {:induction false} InvokeUnder<W(!new)>(env: Env<W>, ev: Ev<W>, names: set<string>, hidden: Scope,
      funcs: Funcs, d: nat, name: string, b: Builtin, args: seq<Arg>, s: State<W>, t: State<W>)
    requires Fit(env, ev, names, hidden, funcs) && Under(d, hidden, funcs, s, t)
    requires b != Def && (b == Defvar ==> d > 0)
    requires forall a :: a in args ==> CleanArg(env, names, if b == Let then d + 1 else d, a)
    ensures Alike(d, hidden, funcs, Invoke(env, ev, name, b, args, s), Invoke(env, ev, name, b, args, t))
  {
    var depth := if b == Let then d + 1 else d;
    forall k | 0 <= k < |args|
      ensures CleanArg(env, names, depth, args[k])
    {
      assert args[k] in args;
    }
    match b
    case Set =>
      if |args| == 2 && args[0].Name? && args[1].Val? { AssignUnder(t.stack, d, hidden, args[0].name, args[1].value); }
    case Defvar =>
      if |args| == 2 && args[0].Name? && args[1].Val? { AllocUnder(t.stack, d, hidden, args[0].name, args[1].value); }
    case Let =>
      if |args| >= 1 && args[0].Code? {
        CodesClean(env, names, d + 1, args);
        LetUnder(env, ev, names, hidden, funcs, d, args[0].code, Codes(args[1..]), s, t);
      }
    case With =>
      if |args| == 3 && args[0].Name? && args[1].Name? && args[2].Code? {
        GetUnder(env, s.world, t.stack, d, hidden, args[0].name);
        var v := Get(env, s.world, s.stack, args[0].name);
        if v.Some? && env.iterate(v.value).Some? {
          WithUnder(env, ev, names, hidden, funcs, d, env.iterate(v.value).value, args[1].name, args[2].code, s, t);
        }
      }
    case If =>
      if |args| == 3 && args[0].Val? && args[1].Code? && args[2].Code? {
        var branch := if env.truthy(args[0].value) then args[1].code else args[2].code;
        assert Alike(d, hidden, funcs, ev(branch, s), ev(branch, t));
      }
    case _ =>
  }

  lemma {:induction false} CodesClean<W>(env: Env<W>, names: set<string>, d: nat, args: seq<Arg>)
    requires args != [] && forall k :: 0 <= k < |args| ==> CleanArg(env, names, d, args[k])
    ensures forall k :: 0 <= k < |args| - 1 ==> Mentions(env, Codes(args[1..])[k]) <= names
  {
    forall k | 0 <= k < |args| - 1
      ensures Mentions(env, Codes(args[1..])[k]) <= names
    {
      assert CleanArg(env, names, d, args[k + 1]) && args[1..][k] == args[k + 1];
    }
  }

  /** A let passes all its arguments on as code. */
  lemma {:induction false} LetConverts<W>(env: Env<W>, ev: Ev<W>, names: set<string>, d: nat, args: seq<Ast>, i: nat,
      line: Option<int>, s: State<W>)
    requires i <= |args| && ArityOk(Let.Doc(), |args|) && d > 0
    requires forall k :: 0 <= k < |args| ==> Mentions(env, args[k]) <= names
    ensures var r := ConvertArgs(ev, Let.Doc(), args, i, line, s);
            && r.Ok? && r.st == s && (forall a :: a in r.value ==> CleanArg(env, names, d, a))
            && r.value == seq(|args| - i, k requires 0 <= k < |args| - i => Code(args[i + k]))
    decreases |args| - i
  {
    if i < |args| {
      LetConverts(env, ev, names, d, args, i + 1, line, s);
      assert TypeAt(Let.Doc(), i) == CodeArg;
    }
  }

  lemma {:induction false} DispatchUnder<W(!new)>(env: Env<W>, ev: Ev<W>, names: set<string>, hidden: Scope,
      funcs: Funcs, d: nat, name: string, b: Builtin, args: seq<Ast>, line: Option<int>, s: State<W>, t: State<W>)
    requires Fit(env, ev, names, hidden, funcs) && Under(d, hidden, funcs, s, t)
    requires b != Def && b != Let && (b == Defvar ==> d > 0)
    requires forall k :: 0 <= k < |args| ==> Clean(env, names, d, args[k])
    ensures Alike(d, hidden, funcs, Dispatch(env, ev, name, b, args, line, s),
                  Dispatch(env, ev, name, b, args, line, t))
  {
    if ArityOk(b.Doc(), |args|) {
      ConvertUnder(env, ev, names, hidden, funcs, d, b.Doc(), args, 0, line, s, t);
      var r, q := ConvertArgs(ev, b.Doc(), args, 0, line, s), ConvertArgs(ev, b.Doc(), args, 0, line, t);
      if r.Ok? { InvokeUnder(env, ev, names, hidden, funcs, d, name, b, r.value, r.st, q.st); }
    }
  }

  lemma {:induction false} DispatchLetUnder<W(!new)>(env: Env<W>, ev: Ev<W>, names: set<string>, hidden: Scope,
      funcs: Funcs, d: nat, name: string, args: seq<Ast>, line: Option<int>, s: State<W>, t: State<W>)
    requires Fit(env, ev, names, hidden, funcs) && Under(d, hidden, funcs, s, t)
    requires forall k :: 0 <= k < |args| ==> Mentions(env, args[k]) <= names
    ensures Alike(d, hidden, funcs, Dispatch(env, ev, name, Let, args, line, s),
                  Dispatch(env, ev, name, Let, args, line, t))
  {
    if ArityOk(Let.Doc(), |args|) {
      LetConverts(env, ev, names, d + 1, args, 0, line, s);
      LetConverts(env, ev, names, d + 1, args, 0, line, t);
      var r := ConvertArgs(ev, Let.Doc(), args, 0, line, s);
      assert r.value == ConvertArgs(ev, Let.Doc(), args, 0, line, t).value;
      InvokeUnder(env, ev, names, hidden, funcs, d, name, Let, r.value, s, t);
    }
  }

  lemma {:induction false} FormIsClean<W>(env: Env<W>, names: set<string>, d: nat, params: seq<Ast>, args: seq<Ast>,
      body: Ast)
    requires |params| == |args| && "let" in names
    requires forall k :: 0 <= k < |args| ==> Mentions(env, params[k]) <= names && Mentions(env, args[k]) <= names
    requires Mentions(env, body) <= names
    ensures Clean(env, names, d, LetForm(params, args, body))
  {
    var items := LetForm(params, args, body).items;
    assert Base("let") == "let" by {
      assert "let"[1..] == "et" && "et"[1..] == "t" && "t"[1..] == "";
      assert Base("t") == "t" && Base("et") == "et";
    }
    var pairs := Pairs(params, args);
    forall k | 0 <= k < |pairs|
      ensures Mentions(env, pairs[k]) <= names
    {
      var pair := pairs[k].items;
      assert pair == [params[k], args[k]];
      MentionedOnlyParts(env, pair, names);
    }
    MentionedOnlyParts(env, pairs, names);
    MentionedOnlyParts(env, items, names);
    assert LetOverLists(items);
  }

  lemma {:induction false} DefaultUnder<W(!new)>(env: Env<W>, ev: Ev<W>, names: set<string>, hidden: Scope,
      funcs: Funcs, d: nat, name: string, args: seq<Ast>, line: Option<int>, s: State<W>, t: State<W>)
    requires Fit(env, ev, names, hidden, funcs) && Under(d, hidden, funcs, s, t) && name in names
    requires forall k :: 0 <= k < |args| ==> Clean(env, names, d, args[k])
    ensures Alike(d, hidden, funcs, Default(ev, name, args, line, s), Default(ev, name, args, line, t))
  {
    if name == "eval" {
      ListUnder(env, ev, names, hidden, funcs, d, args, s, t);
    } else if name in funcs && funcs[name].0.Lst? && |funcs[name].0.items| == |args| {
      var params, body := funcs[name].0.items, funcs[name].1;
      forall k | 0 <= k < |args|
        ensures Mentions(env, params[k]) <= names && Mentions(env, args[k]) <= names
      {
        MentionedPart(env, params, k);
        assert Clean(env, names, d, args[k]);
      }
      FormIsClean(env, names, d, params, args, body);
      var form := LetForm(params, args, body);
      assert Alike(d, hidden, funcs, ev(form, s), ev(form, t));
    }
  }

  lemma {:induction false} FormUnder<W(!new)>(env: Env<W>, ev: Ev<W>, names: set<string>, hidden: Scope, funcs: Funcs,
      d: nat, items: seq<Ast>, s: State<W>, t: State<W>)
    requires Fit(env, ev, names, hidden, funcs) && Under(d, hidden, funcs, s, t)
    requires Clean(env, names, d, Lst(items)) && !Headless(items) && HeadName(env, items[0].tok).Some?
    ensures var name, line := HeadName(env, items[0].tok).value, items[0].tok.line;
            Alike(d, hidden, funcs, EvalForm(env, ev, name, items[1..], line, s),
                  EvalForm(env, ev, name, items[1..], line, t))
  {
    var name, args, line := HeadName(env, items[0].tok).value, items[1..], items[0].tok.line;
    MentionedPart(env, items, 0);
    assert name in names && Base(name) in names;
    GetUnder(env, s.world, t.stack, d, hidden, name);
    forall k | 0 <= k < |args|
      ensures Mentions(env, args[k]) <= names
      ensures !(d == 0 && LetOverLists(items)) ==> Clean(env, names, d, args[k])
    {
      MentionedPart(env, items, k + 1);
    }
    if d == 0 && LetOverLists(items) {
      if Unbound(env, name, s) {
        DispatchLetUnder(env, ev, names, hidden, funcs, d, name, args, line, s, t);
      } else {
        // a variable called let: the list of bindings is evaluated, and is no expression
        assert ev(Lst(items[1].items), s).Err? && ev(Lst(items[1].items), t).Err?;
        assert Clean(env, names, d, args[0]);
        assert Alike(d, hidden, funcs, ev(args[0], s), ev(args[0], t));
      }
    } else {
      ListUnder(env, ev, names, hidden, funcs, d, args, s, t);
      if name in env.builtins && env.builtins[name] == Let {
        DispatchLetUnder(env, ev, names, hidden, funcs, d, name, args, line, s, t);
      } else if name in env.builtins {
        DispatchUnder(env, ev, names, hidden, funcs, d, name, env.builtins[name], args, line, s, t);
      } else {
        DefaultUnder(env, ev, names, hidden, funcs, d, name, args, line, s, t);
      }
    }
  }

  lemma {:induction false} LayerUnder<W(!new)>(env: Env<W>, ev: Ev<W>, names: set<string>, hidden: Scope,
      funcs: Funcs, d: nat, code: Ast, s: State<W>, t: State<W>)
    requires Fit(env, ev, names, hidden, funcs) && Under(d, hidden, funcs, s, t)
    requires Clean(env, names, d, code)
    ensures Alike(d, hidden, funcs, EvalLayer(env, ev, code, s), EvalLayer(env, ev, code, t))
  {
    match code
    case Atom(tok) =>
      if tok.kind == Sym { GetUnder(env, s.world, t.stack, d, hidden, tok.value); }
    case Lst(items) =>
      if !Headless(items) && HeadName(env, items[0].tok).Some? {
        FormUnder(env, ev, names, hidden, funcs, d, items, s, t);
      }
  }

  /** A scope whose names are not in the vocabulary cannot be told from its absence. */
  lemma {:induction false} HiddenScope<W(!new)>(env: Env<W>, fuel: nat, names: set<string>, hidden: Scope,
      funcs: Funcs)
    requires Vocabulary(env, names, funcs) && names !! hidden.Keys
    ensures Blind(env, Evaluator(env, fuel), names, hidden, funcs)
    decreases fuel
  {
    var ev := Evaluator(env, fuel);
    if fuel > 0 { HiddenScope(env, fuel - 1, names, hidden, funcs); }
    forall d: nat, code, s, t | Clean(env, names, d, code) && Under(d, hidden, funcs, s, t)
      ensures Alike(d, hidden, funcs, ev(code, s), ev(code, t))
    {
      EvaluatorIs(env, fuel, code, s);
      EvaluatorIs(env, fuel, code, t);
      if fuel > 0 { LayerUnder(env, Evaluator(env, fuel - 1), names, hidden, funcs, d, code, s, t); }
    }
    forall items, s | Headless(items)
      ensures ev(Lst(items), s).Err?
    {
      EvaluatorIs(env, fuel, Lst(items), s);
    }
  }

  // ----- call by value -----

  /** Parameters and values, bound one after the other; a name bound twice keeps its first value. */
  function Bound(scope: Scope, params: seq<Ast>, vs: seq<Value>): Scope
    requires |params| == |vs| && Parameters(params)
    decreases |params|
  {
    if params == [] then scope
    else
      var name := params[0].tok.value;
      Bound(if name in scope then scope else scope[name := vs[0]], params[1..], vs[1..])
  }

  predicate Parameters(params: seq<Ast>) {
    forall k :: 0 <= k < |params| ==> params[k].Atom? && params[k].tok.kind == Sym
  }

  function ParameterNames(params: seq<Ast>, n: nat): set<string>
    requires n <= |params| && Parameters(params)
  {
    set k | 0 <= k < n :: params[k].tok.value
  }

  /** Call by value: all arguments in the caller's scopes, left to right; then the body, under
      one new scope holding the values. */
  function ByValue<W>(ev: Ev<W>, params: seq<Ast>, args: seq<Ast>, body: Ast, st: State<W>): Res<Value, W>
    requires |params| == |args| && Parameters(params)
  {
    match EvalList(ev, args, st)
    case Err(e, st1) => Err(e, st1)
    case Ok(vs, st1) =>
      match ev(body, st1.(stack := [Bound(map[], params, vs)] + st1.stack))
      case Err(e, st2) => Err(e, st2)
      case Ok(v, st2) => Leave(v, st2)
  }

  /** Same value and same final state; or the same kind of error. */
  ghost predicate SameOutcome<T, W>(r: Res<T, W>, q: Res<T, W>) {
    match (r, q)
    case (Ok(v, s), Ok(u, t)) => v == u && s == t
    case (Err(e, _), Err(f, _)) => e == f
    case _ => false
  }

  /** Argument i is unaffected by the parameters before it: it has a vocabulary (the names it
      mentions, and whatever the functions it can reach mention) without those parameters, it
      defines no function, and no variable of the caller. */
  ghost predicate FreshArgument<W>(env: Env<W>, funcs: Funcs, params: seq<Ast>, i: nat, arg: Ast, names: set<string>)
    requires i <= |params| && Parameters(params)
  {
    && Vocabulary(env, names, funcs) && names !! ParameterNames(params, i)
    && Clean(env, names, 0, arg)
  }

  /** The let's bindings against the plain list of arguments, from parameter i on. */
  ghost predicate BoundAlike<W>(funcs: Funcs, params: seq<Ast>, scope: Scope, r: Res<(), W>, q: Res<seq<Value>, W>)
    requires Parameters(params)
  {
    match (r, q)
    case (Ok(_, s), Ok(vs, t)) =>
      && |vs| == |params| && s.stack == [Bound(scope, params, vs)] + t.stack
      && s.funcs == t.funcs == funcs && s.world == t.world
    case (Err(e, _), Err(f, _)) => e == f
    case _ => false
  }

  /** No scope outside a closed vocabulary can be told from its absence. */
  ghost predicate BlindTo<W(!new)>(env: Env<W>, ev: Ev<W>, funcs: Funcs) {
    forall names, hidden: Scope :: Vocabulary(env, names, funcs) && names !! hidden.Keys ==>
      Blind(env, ev, names, hidden, funcs)
  }

  lemma {:induction false} EvaluatorBlind<W(!new)>(env: Env<W>, fuel: nat, funcs: Funcs)
    ensures BlindTo(env, Evaluator(env, fuel), funcs)
  {
    forall names, hidden: Scope | Vocabulary(env, names, funcs) && names !! hidden.Keys
      ensures Blind(env, Evaluator(env, fuel), names, hidden, funcs)
    {
      HiddenScope(env, fuel, names, hidden, funcs);
    }
  }

  lemma {:induction false} BindByValue<W(!new)>(env: Env<W>, ev: Ev<W>, funcs: Funcs, params: seq<Ast>,
      args: seq<Ast>, vocabulary: seq<set<string>>, i: nat, scope: Scope, s: State<W>, t: State<W>)
    requires BlindTo(env, ev, funcs)
    requires |params| == |args| == |vocabulary| && i <= |params| && Parameters(params)
    requires forall k :: i <= k < |args| ==> FreshArgument(env, funcs, params, k, args[k], vocabulary[k])
    requires scope.Keys <= ParameterNames(params, i)
    requires s.stack == [scope] + t.stack && s.funcs == t.funcs == funcs && s.world == t.world
    ensures BoundAlike(funcs, params[i..], scope, BindAll(ev, Pairs(params, args)[i..], s), EvalList(ev, args[i..], t))
    decreases |params| - i
  {
    if i < |params| {
      var name := params[i].tok.value;
      FreshAlike(env, ev, funcs, params, i, args[i], vocabulary[i], scope, s, t);
      var r, q := ev(args[i], s), ev(args[i], t);
      if r.Ok? {
        var scope' := if name in scope then scope else scope[name := r.value];
        var s' := r.st.(stack := Alloc(r.st.stack, name, r.value));
        AllocOnTop(scope, q.st.stack, name, r.value);
        NamesUpTo(params, i);
        BindByValue(env, ev, funcs, params, args, vocabulary, i + 1, scope', s', q.st);
      }
      BoundStep(ev, funcs, params, args, i, scope, s, t);
    }
  }

  /** A fresh argument comes out the same with and without the parameters bound so far. */
  lemma {:induction false} FreshAlike<W(!new)>(env: Env<W>, ev: Ev<W>, funcs: Funcs, params: seq<Ast>, i: nat,
      arg: Ast, names: set<string>, scope: Scope, s: State<W>, t: State<W>)
    requires BlindTo(env, ev, funcs)
    requires i <= |params| && Parameters(params) && FreshArgument(env, funcs, params, i, arg, names)
    requires scope.Keys <= ParameterNames(params, i)
    requires s.stack == [scope] + t.stack && s.funcs == t.funcs == funcs && s.world == t.world
    ensures var r, q := ev(arg, s), ev(arg, t);
            && r.Ok? == q.Ok? && (r.Err? ==> r.error == q.error)
            && (r.Ok? ==> r.value == q.value && r.st.stack == [scope] + q.st.stack)
            && (r.Ok? ==> r.st.funcs == q.st.funcs == funcs && r.st.world == q.st.world)
  {
    assert Blind(env, ev, names, scope, funcs);
    InsertedOnTop(t.stack, scope);
    assert Under(0, scope, funcs, s, t);
    assert Alike(0, scope, funcs, ev(arg, s), ev(arg, t));
    if ev(arg, t).Ok? { InsertedOnTop(ev(arg, t).st.stack, scope); }
  }

  /** One binding of the let beside one argument of the list. */
  lemma {:induction false} BoundStep<W>(ev: Ev<W>, funcs: Funcs, params: seq<Ast>, args: seq<Ast>, i: nat,
      scope: Scope, s: State<W>, t: State<W>)
    requires |params| == |args| && i < |params| && Parameters(params)
    requires var r, q := ev(args[i], s), ev(args[i], t);
             r.Ok? == q.Ok? && (r.Err? ==> r.error == q.error) &&
             (r.Ok? ==>
                var name := params[i].tok.value;
                var scope' := if name in scope then scope else scope[name := r.value];
                && r.value == q.value && r.st.stack != []
                && BoundAlike(funcs, params[i + 1..], scope',
                     BindAll(ev, Pairs(params, args)[i + 1..], r.st.(stack := Alloc(r.st.stack, name, r.value))),
                     EvalList(ev, args[i + 1..], q.st)))
    ensures BoundAlike(funcs, params[i..], scope, BindAll(ev, Pairs(params, args)[i..], s), EvalList(ev, args[i..], t))
  {
    var pairs := Pairs(params, args)[i..];
    assert pairs[0] == Lst([params[i], args[i]]) && pairs[1..] == Pairs(params, args)[i + 1..];
    assert args[i..][1..] == args[i + 1..] && params[i..][1..] == params[i + 1..];
  }

  lemma {:induction false} AllocOnTop(scope: Scope, stack: seq<Scope>, name: string, v: Value)
    ensures Alloc([scope] + stack, name, v) == [if name in scope then scope else scope[name := v]] + stack
  {
    assert ([scope] + stack)[1..] == stack;
  }

  lemma {:induction false} NamesUpTo(params: seq<Ast>, i: nat)
    requires i < |params| && Parameters(params)
    ensures ParameterNames(params, i + 1) == ParameterNames(params, i) + {params[i].tok.value}
  {
  }

  lemma {:induction false} LetIsByValue<W(!new)>(env: Env<W>, ev: Ev<W>, params: seq<Ast>, args: seq<Ast>, body: Ast,
      vocabulary: seq<set<string>>, st: State<W>)
    requires |params| == |args| == |vocabulary| && Parameters(params)
    requires forall k :: 0 <= k < |args| ==> FreshArgument(env, st.funcs, params, k, args[k], vocabulary[k])
    requires BlindTo(env, ev, st.funcs)
    ensures SameOutcome(EvalLet(ev, Lst(Pairs(params, args)), [body], st), ByValue(ev, params, args, body, st))
  {
    BindByValue(env, ev, st.funcs, params, args, vocabulary, 0, map[], st.(stack := Push(st.stack)), st);
    assert Pairs(params, args)[0..] == Pairs(params, args) && args[0..] == args && params[0..] == params;
    var r, q := BindAll(ev, Pairs(params, args), st.(stack := Push(st.stack))), EvalList(ev, args, st);
    if r.Ok? {
      assert r.st == q.st.(stack := [Bound(map[], params, q.value)] + q.st.stack);
      ListOfOne(ev, body, r.st);
    }
  }

  lemma {:induction false} ListOfOne<W>(ev: Ev<W>, code: Ast, st: State<W>)
    ensures match ev(code, st)
            case Ok(v, st1) => EvalList(ev, [code], st) == Ok([v], st1)
            case Err(e, st1) => EvalList(ev, [code], st) == Err(e, st1)
  {
    assert [code][1..] == [] && [code][0] == code;
    match ev(code, st)
    case Ok(v, st1) =>
      assert EvalList(ev, [], st1) == Ok([], st1);
      assert [v] + [] == [v];
    case Err(_, _) =>
  }

  /** A user call whose arguments are fresh for the parameters before them is a call by value:
      same value, same variables in every scope, same functions, same world. */
  lemma {:induction false} UserCallIsByValue<W(!new)>(env: Env<W>, fuel: nat, code: Ast, name: string,
      params: seq<Ast>, body: Ast, vocabulary: seq<set<string>>, st: State<W>)
    requires Calls(env, code, name, st) && name !in env.builtins && name != "eval"
    requires "let" in env.builtins && env.builtins["let"] == Let && Unbound(env, "let", st)
    requires name in st.funcs && st.funcs[name] == (Lst(params), body) && Parameters(params)
    requires |params| == |code.items| - 1 == |vocabulary|
    requires forall k :: 0 <= k < |params| ==> FreshArgument(env, st.funcs, params, k, code.items[k + 1], vocabulary[k])
    ensures SameOutcome(Eval(env, fuel + 2, code, st), ByValue(Evaluator(env, fuel), params, code.items[1..], body, st))
  {
    UserCallIsSequentialLet(env, fuel, code, name, params, body, st);
    EvaluatorBlind(env, fuel, st.funcs);
    LetIsByValue(env, Evaluator(env, fuel), params, code.items[1..], body, vocabulary, st);
  }

  lemma {:induction false} UserCallIsSequentialLet<W>(env: Env<W>, fuel: nat, code: Ast, name: string,
      params: seq<Ast>, body: Ast, st: State<W>)
    requires Calls(env, code, name, st) && name !in env.builtins && name != "eval"
    requires "let" in env.builtins && env.builtins["let"] == Let && Unbound(env, "let", st)
    requires name in st.funcs && st.funcs[name] == (Lst(params), body) && |params| == |code.items| - 1
    ensures Eval(env, fuel + 2, code, st) ==
            EvalLet(Evaluator(env, fuel), Lst(Pairs(params, code.items[1..])), [body], st)
  {
    var args := code.items[1..];
    var form := LetForm(params, args, body);
    EvaluatorIs(env, fuel + 1, form, st);
    assert Eval(env, fuel + 2, code, st) == Eval(env, fuel + 1, form, st);
    LetFormDispatches(env, Evaluator(env, fuel), params, args, body, st);
  }

  lemma {:induction false} LetFormDispatches<W>(env: Env<W>, ev: Ev<W>, params: seq<Ast>, args: seq<Ast>, body: Ast,
      st: State<W>)
    requires |params| == |args|
    requires "let" in env.builtins && env.builtins["let"] == Let && Unbound(env, "let", st)
    ensures EvalLayer(env, ev, LetForm(params, args, body), st) == EvalLet(ev, Lst(Pairs(params, args)), [body], st)
  {
    var rest := [Lst(Pairs(params, args)), body];
    assert LetForm(params, args, body).items[1..] == rest;
    var names := MentionsAll(env, rest);
    MentionedPart(env, rest, 0);
    MentionedPart(env, rest, 1);
    LetConverts(env, ev, names, 1, rest, 0, None, st);
    var converted := ConvertArgs(ev, Let.Doc(), rest, 0, None, st).value;
    assert converted == [Code(rest[0]), Code(body)];
    assert Codes(converted[1..]) == [body];
  }

  // ----- plain symbols as arguments: exactly when -----

  /** A symbol that is looked up as it stands. */
  predicate PlainSymbol(a: Ast) {
    && a.Atom? && a.tok.kind == Sym && a.tok.value != "nil"
    && Base(a.tok.value) == a.tok.value && Member(a.tok.value) == None
  }

  predicate Known<W>(env: Env<W>, st: State<W>, a: Ast) {
    PlainSymbol(a) && Get(env, st.world, st.stack, a.tok.value).Some?
  }

  ghost predicate AllKnown<W>(env: Env<W>, st: State<W>, args: seq<Ast>) {
    forall k :: 0 <= k < |args| ==> Known(env, st, args[k])
  }

  /** What evaluation makes of known plain symbols: it looks them up. */
  ghost predicate ReadsSymbols<W(!new)>(env: Env<W>, ev: Ev<W>) {
    forall a, st :: Known(env, st, a) ==> ev(a, st) == Ok(Get(env, st.world, st.stack, a.tok.value).value, st)
  }

  lemma {:induction false} EvaluatorReads<W(!new)>(env: Env<W>, fuel: nat)
    requires fuel > 0
    ensures ReadsSymbols(env, Evaluator(env, fuel))
  {
    forall a, st | Known(env, st, a)
      ensures Evaluator(env, fuel)(a, st) == Ok(Get(env, st.world, st.stack, a.tok.value).value, st)
    {
      EvaluatorIs(env, fuel, a, st);
    }
  }

  /** What the caller's variables hold. */
  function CallerValues<W>(env: Env<W>, st: State<W>, args: seq<Ast>): (vs: seq<Value>)
    requires AllKnown(env, st, args)
    ensures |vs| == |args|
  {
    seq(|args|, k requires 0 <= k < |args| =>
      assert Known(env, st, args[k]); Get(env, st.world, st.stack, args[k].tok.value).value)
  }

  ghost predicate DistinctNames(params: seq<Ast>)
    requires Parameters(params)
  {
    forall j, k :: 0 <= j < k < |params| ==> params[j].tok.value != params[k].tok.value
  }

  /** Whenever an argument is the name of an earlier parameter, the caller has the same value in it
      as in that parameter's argument. */
  ghost predicate AgreesWhereShadowed<W>(env: Env<W>, st: State<W>, params: seq<Ast>, args: seq<Ast>)
    requires Parameters(params) && |params| == |args| && AllKnown(env, st, args)
  {
    var vs := CallerValues(env, st, args);
    forall j, k :: 0 <= j < k < |args| && Shadows(params[j], args[k]) ==> vs[k] == vs[j]
  }

  predicate Shadows(param: Ast, arg: Ast) {
    param.Atom? && arg.Atom? && param.tok.value == arg.tok.value
  }

  /** The earlier parameter of the given name, if there is one. */
  function Shadowing(params: seq<Ast>, name: string, n: nat): (j: Option<nat>)
    requires Parameters(params) && n <= |params|
    ensures j.Some? ==> j.value < n && params[j.value].tok.value == name
    ensures j.None? ==> forall k :: 0 <= k < n ==> params[k].tok.value != name
  {
    if n == 0 then None
    else if params[n - 1].tok.value == name then Some(n - 1)
    else Shadowing(params, name, n - 1)
  }

  /** What the let binds, one parameter after the other. */
  function LetValues<W>(env: Env<W>, st: State<W>, params: seq<Ast>, args: seq<Ast>, n: nat): (vs: seq<Value>)
    requires Parameters(params) && |params| == |args| && AllKnown(env, st, args) && n <= |args|
    ensures |vs| == n
  {
    if n == 0 then []
    else
      var front := LetValues(env, st, params, args, n - 1);
      assert Known(env, st, args[n - 1]);
      var j := Shadowing(params, args[n - 1].tok.value, n - 1);
      front + [if j.Some? then front[j.value] else CallerValues(env, st, args)[n - 1]]
  }

  /** The scope of the first n parameters. */
  function ScopeOf(params: seq<Ast>, vs: seq<Value>, n: nat): Scope
    requires Parameters(params) && n <= |params| && n <= |vs|
  {
    if n == 0 then map[] else ScopeOf(params, vs, n - 1)[params[n - 1].tok.value := vs[n - 1]]
  }

  lemma {:induction false} ScopeKeys(params: seq<Ast>, vs: seq<Value>, n: nat)
    requires Parameters(params) && n <= |params| && n <= |vs|
    ensures ScopeOf(params, vs, n).Keys == ParameterNames(params, n)
  {
    if n > 0 {
      ScopeKeys(params, vs, n - 1);
      NamesUpTo(params, n - 1);
    }
  }

  lemma {:induction false} ScopeHolds(params: seq<Ast>, vs: seq<Value>, n: nat, k: nat)
    requires Parameters(params) && DistinctNames(params) && k < n <= |params| && n <= |vs|
    ensures params[k].tok.value in ScopeOf(params, vs, n) && ScopeOf(params, vs, n)[params[k].tok.value] == vs[k]
  {
    if k < n - 1 {
      ScopeHolds(params, vs, n - 1, k);
      assert params[k].tok.value != params[n - 1].tok.value;
    }
  }

  lemma {:induction false} ScopeDepends(params: seq<Ast>, vs: seq<Value>, us: seq<Value>, n: nat)
    requires Parameters(params) && n <= |params| && n <= |vs| && n <= |us| && vs[..n] == us[..n]
    ensures ScopeOf(params, vs, n) == ScopeOf(params, us, n)
  {
    if n > 0 {
      assert vs[..n][..n - 1] == vs[..n - 1] && us[..n][..n - 1] == us[..n - 1];
      assert vs[..n][n - 1] == vs[n - 1] && us[..n][n - 1] == us[n - 1];
      ScopeDepends(params, vs, us, n - 1);
    }
  }

  /** Binding distinct parameters to values is the same front to back and back to front. */
  lemma {:induction false} BoundIsScope(params: seq<Ast>, vs: seq<Value>, i: nat)
    requires Parameters(params) && DistinctNames(params) && |params| == |vs| && i <= |params|
    ensures Bound(ScopeOf(params, vs, i), params[i..], vs[i..]) == ScopeOf(params, vs, |params|)
    decreases |params| - i
  {
    if i < |params| {
      ScopeKeys(params, vs, i);
      assert params[i].tok.value !in ParameterNames(params, i);
      assert params[i..][0] == params[i] && params[i..][1..] == params[i + 1..] && vs[i..][1..] == vs[i + 1..];
      BoundIsScope(params, vs, i + 1);
    }
  }

  /** The next argument, looked up below the parameters bound so far. */
  lemma {:induction false} ReadBelow<W(!new)>(env: Env<W>, ev: Ev<W>, st: State<W>, params: seq<Ast>, args: seq<Ast>,
      i: nat, scope: Scope)
    requires ReadsSymbols(env, ev)
    requires Parameters(params) && DistinctNames(params) && |params| == |args| && AllKnown(env, st, args)
    requires i < |args| && scope == ScopeOf(params, LetValues(env, st, params, args, i), i)
    ensures var below := st.(stack := [scope] + st.stack);
            ev(args[i], below) == Ok(LetValues(env, st, params, args, i + 1)[i], below)
  {
    var below := st.(stack := [scope] + st.stack);
    assert Known(env, st, args[i]);
    var name := args[i].tok.value;
    var front := LetValues(env, st, params, args, i);
    var j := Shadowing(params, name, i);
    assert below.stack[1..] == st.stack;
    ScopeKeys(params, front, i);
    if j.Some? { ScopeHolds(params, front, i, j.value); }
    assert Get(env, st.world, below.stack, name) == Some(LetValues(env, st, params, args, i + 1)[i]);
    assert Known(env, below, args[i]);
  }

  lemma {:induction false} LetValuesGrow<W>(env: Env<W>, st: State<W>, params: seq<Ast>, args: seq<Ast>, m: nat,
      n: nat)
    requires Parameters(params) && |params| == |args| && AllKnown(env, st, args) && m <= n <= |args|
    ensures LetValues(env, st, params, args, m) == LetValues(env, st, params, args, n)[..m]
  {
    if m < n { LetValuesGrow(env, st, params, args, m, n - 1); }
  }

  /** The state in which argument i is evaluated. */
  function Below<W>(env: Env<W>, st: State<W>, params: seq<Ast>, args: seq<Ast>, i: nat): State<W>
    requires Parameters(params) && |params| == |args| && AllKnown(env, st, args) && i <= |args|
  {
    st.(stack := [ScopeOf(params, LetValues(env, st, params, args, i), i)] + st.stack)
  }

  lemma {:induction false} BindNext<W(!new)>(env: Env<W>, ev: Ev<W>, st: State<W>, params: seq<Ast>, args: seq<Ast>,
      i: nat)
    requires ReadsSymbols(env, ev)
    requires Parameters(params) && DistinctNames(params) && |params| == |args| && AllKnown(env, st, args)
    requires i < |args|
    ensures BindAll(ev, Pairs(params, args)[i..], Below(env, st, params, args, i)) ==
            BindAll(ev, Pairs(params, args)[i + 1..], Below(env, st, params, args, i + 1))
  {
    var scope := ScopeOf(params, LetValues(env, st, params, args, i), i);
    ReadBelow(env, ev, st, params, args, i, scope);
    ScopeGrows(env, st, params, args, i);
    BindStep(ev, params, args, i, scope, LetValues(env, st, params, args, i + 1)[i], st);
  }

  lemma {:induction false} BindFrom<W(!new)>(env: Env<W>, ev: Ev<W>, st: State<W>, params: seq<Ast>, args: seq<Ast>,
      i: nat)
    requires ReadsSymbols(env, ev)
    requires Parameters(params) && DistinctNames(params) && |params| == |args| && AllKnown(env, st, args)
    requires i <= |args|
    ensures BindAll(ev, Pairs(params, args)[i..], Below(env, st, params, args, i)) ==
            Ok((), Below(env, st, params, args, |args|))
    decreases |args| - i
  {
    if i < |args| {
      BindNext(env, ev, st, params, args, i);
      BindFrom(env, ev, st, params, args, i + 1);
    }
  }

  lemma {:induction false} BindPlain<W(!new)>(env: Env<W>, ev: Ev<W>, st: State<W>, params: seq<Ast>, args: seq<Ast>)
    requires ReadsSymbols(env, ev)
    requires Parameters(params) && DistinctNames(params) && |params| == |args| && AllKnown(env, st, args)
    ensures BindAll(ev, Pairs(params, args), Below(env, st, params, args, 0)) ==
            Ok((), Below(env, st, params, args, |args|))
  {
    BindFrom(env, ev, st, params, args, 0);
    assert Pairs(params, args)[0..] == Pairs(params, args);
  }

  lemma {:induction false} ScopeGrows<W>(env: Env<W>, st: State<W>, params: seq<Ast>, args: seq<Ast>, i: nat)
    requires Parameters(params) && DistinctNames(params) && |params| == |args| && AllKnown(env, st, args) && i < |args|
    ensures var name := params[i].tok.value; var vs := LetValues(env, st, params, args, i + 1);
            var scope := ScopeOf(params, LetValues(env, st, params, args, i), i);
            name !in scope && ScopeOf(params, vs, i + 1) == scope[name := vs[i]]
  {
    LetValuesGrow(env, st, params, args, i, i + 1);
    ScopeDepends(params, LetValues(env, st, params, args, i), LetValues(env, st, params, args, i + 1), i);
    ScopeKeys(params, LetValues(env, st, params, args, i), i);
    assert params[i].tok.value !in ParameterNames(params, i);
  }

  /** Binding one more parameter. */
  lemma {:induction false} BindStep<W>(ev: Ev<W>, params: seq<Ast>, args: seq<Ast>, i: nat, scope: Scope, v: Value,
      st: State<W>)
    requires Parameters(params) && i < |params| == |args| && params[i].tok.value !in scope
    requires var below := st.(stack := [scope] + st.stack); ev(args[i], below) == Ok(v, below)
    ensures BindAll(ev, Pairs(params, args)[i..], st.(stack := [scope] + st.stack)) ==
            BindAll(ev, Pairs(params, args)[i + 1..], st.(stack := [scope[params[i].tok.value := v]] + st.stack))
  {
    var pairs := Pairs(params, args)[i..];
    assert pairs[0] == Lst([params[i], args[i]]) && pairs[1..] == Pairs(params, args)[i + 1..];
    AllocOnTop(scope, st.stack, params[i].tok.value, v);
  }

  lemma {:induction false} LetValuesAt<W>(env: Env<W>, st: State<W>, params: seq<Ast>, args: seq<Ast>, n: nat, k: nat)
    requires Parameters(params) && |params| == |args| && AllKnown(env, st, args) && k < n <= |args|
    ensures Known(env, st, args[k])
    ensures var vs := LetValues(env, st, params, args, n); var j := Shadowing(params, args[k].tok.value, k);
            vs[k] == if j.Some? then vs[j.value] else CallerValues(env, st, args)[k]
  {
    assert Known(env, st, args[k]);
    if k < n - 1 { LetValuesAt(env, st, params, args, n - 1, k); }
  }

  lemma {:induction false} AgreeingValues<W>(env: Env<W>, st: State<W>, params: seq<Ast>, args: seq<Ast>, k: nat)
    requires Parameters(params) && |params| == |args| && AllKnown(env, st, args) && k < |args|
    requires AgreesWhereShadowed(env, st, params, args)
    ensures LetValues(env, st, params, args, |args|)[k] == CallerValues(env, st, args)[k]
  {
    LetValuesAt(env, st, params, args, |args|, k);
    var j := Shadowing(params, args[k].tok.value, k);
    if j.Some? { AgreeingValues(env, st, params, args, j.value); }
  }

  /** With distinct parameters and known plain symbols as arguments, the let's scope is the one of
      call by value if and only if the caller's values agree wherever an argument is shadowed. */
  lemma {:induction false} LetIsParallelIff<W(!new)>(env: Env<W>, ev: Ev<W>, st: State<W>, params: seq<Ast>,
      args: seq<Ast>)
    requires ReadsSymbols(env, ev)
    requires Parameters(params) && DistinctNames(params) && |params| == |args| && AllKnown(env, st, args)
    ensures var r := BindAll(ev, Pairs(params, args), st.(stack := Push(st.stack)));
            && r.Ok? && r.st.stack != [] && r == Ok((), st.(stack := [r.st.stack[0]] + st.stack))
            && (r.st.stack[0] == Bound(map[], params, CallerValues(env, st, args)) <==>
                AgreesWhereShadowed(env, st, params, args))
  {
    var n := |args|;
    var us, vs := LetValues(env, st, params, args, n), CallerValues(env, st, args);
    BindPlain(env, ev, st, params, args);
    BoundIsScope(params, vs, 0);
    assert params[0..] == params && vs[0..] == vs;
    if AgreesWhereShadowed(env, st, params, args) {
      forall k | 0 <= k < n
        ensures us[k] == vs[k]
      {
        AgreeingValues(env, st, params, args, k);
      }
      assert us == vs;
    } else if ScopeOf(params, us, n) == ScopeOf(params, vs, n) {
      SameScopeAgrees(env, st, params, args);
    }
  }

  lemma {:induction false} SameScopeAgrees<W>(env: Env<W>, st: State<W>, params: seq<Ast>, args: seq<Ast>)
    requires Parameters(params) && DistinctNames(params) && |params| == |args| && AllKnown(env, st, args)
    requires var n := |args|;
             ScopeOf(params, LetValues(env, st, params, args, n), n) == ScopeOf(params, CallerValues(env, st, args), n)
    ensures AgreesWhereShadowed(env, st, params, args)
  {
    var n := |args|;
    var us, vs := LetValues(env, st, params, args, n), CallerValues(env, st, args);
    forall k | 0 <= k < n
      ensures us[k] == vs[k]
    {
      ScopeHolds(params, us, n, k);
      ScopeHolds(params, vs, n, k);
    }
    forall j, k | 0 <= j < k < n && Shadows(params[j], args[k])
      ensures vs[k] == vs[j]
    {
      LetValuesAt(env, st, params, args, n, k);
    }
  }

  lemma {:induction false} KnownList<W(!new)>(env: Env<W>, ev: Ev<W>, st: State<W>, args: seq<Ast>, i: nat)
    requires ReadsSymbols(env, ev)
    requires AllKnown(env, st, args) && i <= |args|
    ensures EvalList(ev, args[i..], st) == Ok(CallerValues(env, st, args)[i..], st)
    decreases |args| - i
  {
    if i < |args| {
      assert Known(env, st, args[i]);
      KnownList(env, ev, st, args, i + 1);
      var vs := CallerValues(env, st, args);
      assert args[i..][0] == args[i] && args[i..][1..] == args[i + 1..] && vs[i..] == [vs[i]] + vs[i + 1..];
      assert ev(args[i], st) == Ok(vs[i], st);
    } else {
      assert args[i..] == [] && CallerValues(env, st, args)[i..] == [];
    }
  }

  /** Such a call is a call by value whenever the caller's values agree where they are shadowed. */
  lemma {:induction false} PlainCallIsByValue<W(!new)>(env: Env<W>, fuel: nat, code: Ast, name: string,
      params: seq<Ast>, body: Ast, st: State<W>)
    requires Calls(env, code, name, st) && name !in env.builtins && name != "eval" && fuel > 0
    requires "let" in env.builtins && env.builtins["let"] == Let && Unbound(env, "let", st)
    requires name in st.funcs && st.funcs[name] == (Lst(params), body) && Parameters(params) && DistinctNames(params)
    requires |params| == |code.items| - 1 && AllKnown(env, st, code.items[1..])
    requires AgreesWhereShadowed(env, st, params, code.items[1..])
    ensures Eval(env, fuel + 2, code, st) == ByValue(Evaluator(env, fuel), params, code.items[1..], body, st)
  {
    UserCallIsSequentialLet(env, fuel, code, name, params, body, st);
    EvaluatorReads(env, fuel);
    KnownLetIsByValue(env, Evaluator(env, fuel), params, code.items[1..], body, st);
  }

  lemma {:induction false} KnownLetIsByValue<W(!new)>(env: Env<W>, ev: Ev<W>, params: seq<Ast>, args: seq<Ast>,
      body: Ast, st: State<W>)
    requires ReadsSymbols(env, ev)
    requires Parameters(params) && DistinctNames(params) && |params| == |args| && AllKnown(env, st, args)
    requires AgreesWhereShadowed(env, st, params, args)
    ensures EvalLet(ev, Lst(Pairs(params, args)), [body], st) == ByValue(ev, params, args, body, st)
  {
    LetIsParallelIff(env, ev, st, params, args);
    KnownList(env, ev, st, args, 0);
    PlainLetIsByValue(ev, params, args, body, CallerValues(env, st, args), st);
  }

  lemma {:induction false} PlainLetIsByValue<W>(ev: Ev<W>, params: seq<Ast>, args: seq<Ast>, body: Ast,
      vs: seq<Value>, st: State<W>)
    requires |params| == |args| == |vs| && Parameters(params)
    requires EvalList(ev, args[0..], st) == Ok(vs[0..], st)
    requires BindAll(ev, Pairs(params, args), st.(stack := Push(st.stack))) ==
             Ok((), st.(stack := [Bound(map[], params, vs)] + st.stack))
    ensures EvalLet(ev, Lst(Pairs(params, args)), [body], st) == ByValue(ev, params, args, body, st)
  {
    assert args[0..] == args && vs[0..] == vs;
    ListOfOne(ev, body, st.(stack := [Bound(map[], params, vs)] + st.stack));
  }

  ghost predicate PlainSymbols(params: seq<Ast>) {
    forall k :: 0 <= k < |params| ==> PlainSymbol(params[k])
  }

  /** Under a scope that holds the parameters, a parameter reads as what it holds. */
  lemma {:induction false} ParameterReads<W(!new)>(env: Env<W>, ev: Ev<W>, params: seq<Ast>, vs: seq<Value>, k: nat,
      st: State<W>)
    requires ReadsSymbols(env, ev)
    requires Parameters(params) && DistinctNames(params) && k < |params| == |vs| && PlainSymbol(params[k])
    ensures var inner := st.(stack := [ScopeOf(params, vs, |vs|)] + st.stack); ev(params[k], inner) == Ok(vs[k], inner)
  {
    var inner := st.(stack := [ScopeOf(params, vs, |vs|)] + st.stack);
    ScopeHolds(params, vs, |vs|, k);
    assert Get(env, st.world, inner.stack, params[k].tok.value) == Some(vs[k]);
    assert Known(env, inner, params[k]);
  }

  /** What becomes of a body that is one of the parameters. */
  lemma {:induction false} ReadingBody<W(!new)>(env: Env<W>, ev: Ev<W>, st: State<W>, params: seq<Ast>,
      args: seq<Ast>, k: nat)
    requires ReadsSymbols(env, ev)
    requires Parameters(params) && DistinctNames(params) && |params| == |args| && AllKnown(env, st, args)
    requires k < |params| && PlainSymbol(params[k])
    ensures EvalLet(ev, Lst(Pairs(params, args)), [params[k]], st) ==
            Ok(LetValues(env, st, params, args, |args|)[k], st)
    ensures ByValue(ev, params, args, params[k], st) == Ok(CallerValues(env, st, args)[k], st)
  {
    var us, vs := LetValues(env, st, params, args, |args|), CallerValues(env, st, args);
    BindPlain(env, ev, st, params, args);
    assert Below(env, st, params, args, 0) == st.(stack := Push(st.stack));
    ParameterReads(env, ev, params, us, k, st);
    ListOfOne(ev, params[k], st.(stack := [ScopeOf(params, us, |us|)] + st.stack));
    assert ([ScopeOf(params, us, |us|)] + st.stack)[1..] == st.stack;
    KnownList(env, ev, st, args, 0);
    BoundIsScope(params, vs, 0);
    assert params[0..] == params && vs[0..] == vs && args[0..] == args;
    ParameterReads(env, ev, params, vs, k, st);
    assert ([ScopeOf(params, vs, |vs|)] + st.stack)[1..] == st.stack;
  }

  lemma {:induction false} DifferentValue<W>(env: Env<W>, st: State<W>, params: seq<Ast>, args: seq<Ast>)
      returns (k: nat)
    requires Parameters(params) && DistinctNames(params) && |params| == |args| && AllKnown(env, st, args)
    requires !AgreesWhereShadowed(env, st, params, args)
    ensures k < |args| && LetValues(env, st, params, args, |args|)[k] != CallerValues(env, st, args)[k]
  {
    var us, vs := LetValues(env, st, params, args, |args|), CallerValues(env, st, args);
    if us == vs {
      SameScopeAgrees(env, st, params, args);
      assert false;
    }
    k :| 0 <= k < |args| && us[k] != vs[k];
  }

  /** The state in which the function has the given parameters and body. */
  function Defined<W>(st: State<W>, name: string, params: seq<Ast>, body: Ast): State<W> {
    st.(funcs := st.funcs[name := (Lst(params), body)])
  }

  /** A function whose parameters are plain symbols, called with plain symbols, is called by value
      whatever its body, exactly if the caller's values agree wherever an argument is shadowed. */
  lemma {:induction false} PlainCallIsByValueIff<W(!new)>(env: Env<W>, fuel: nat, code: Ast, name: string,
      params: seq<Ast>, st: State<W>)
    requires Calls(env, code, name, st) && name !in env.builtins && name != "eval" && fuel > 0
    requires "let" in env.builtins && env.builtins["let"] == Let && Unbound(env, "let", st)
    requires Parameters(params) && DistinctNames(params) && PlainSymbols(params)
    requires |params| == |code.items| - 1 && AllKnown(env, st, code.items[1..])
    ensures (forall body :: var s := Defined(st, name, params, body);
               Eval(env, fuel + 2, code, s) == ByValue(Evaluator(env, fuel), params, code.items[1..], body, s)) <==>
            AgreesWhereShadowed(env, st, params, code.items[1..])
  {
    var args := code.items[1..];
    if AgreesWhereShadowed(env, st, params, args) {
      forall body
        ensures var s := Defined(st, name, params, body);
                Eval(env, fuel + 2, code, s) == ByValue(Evaluator(env, fuel), params, args, body, s)
      {
        var s := Defined(st, name, params, body);
        FunctionsUnread(env, st, s, params, args);
        PlainCallIsByValue(env, fuel, code, name, params, body, s);
      }
    } else {
      var k := DifferentValue(env, st, params, args);
      var s := Defined(st, name, params, params[k]);
      FunctionsUnread(env, st, s, params, args);
      FunctionsUnreadByLet(env, st, s, params, args, |args|);
      UserCallIsSequentialLet(env, fuel, code, name, params, params[k], s);
      EvaluatorReads(env, fuel);
      ReadingBody(env, Evaluator(env, fuel), s, params, args, k);
    }
  }

  /** What variables hold does not depend on the functions there are. */
  lemma {:induction false} FunctionsUnread<W>(env: Env<W>, st: State<W>, s: State<W>, params: seq<Ast>,
      args: seq<Ast>)
    requires s.stack == st.stack && s.world == st.world && AllKnown(env, st, args)
    requires Parameters(params) && |params| == |args|
    ensures AllKnown(env, s, args) && CallerValues(env, s, args) == CallerValues(env, st, args)
    ensures AgreesWhereShadowed(env, s, params, args) <==> AgreesWhereShadowed(env, st, params, args)
  {
    assert forall k :: 0 <= k < |args| ==> (Known(env, st, args[k]) <==> Known(env, s, args[k]));
    assert CallerValues(env, s, args) == CallerValues(env, st, args);
  }

  lemma {:induction false} FunctionsUnreadByLet<W>(env: Env<W>, st: State<W>, s: State<W>, params: seq<Ast>,
      args: seq<Ast>, n: nat)
    requires s.stack == st.stack && s.world == st.world && AllKnown(env, st, args) && AllKnown(env, s, args)
    requires Parameters(params) && |params| == |args| && n <= |args|
    ensures LetValues(env, s, params, args, n) == LetValues(env, st, params, args, n)
  {
    if n > 0 {
      FunctionsUnreadByLet(env, st, s, params, args, n - 1);
      FunctionsUnread(env, st, s, params, args);
    }
  }

  // ----- without freshness -----

  const A := Token(Sym, "a", "", Some(1))
  const B := Token(Sym, "b", "", Some(1))

  lemma {:induction false} PlainName(name: string)
    requires name == "a" || name == "b" || name == "f" || name == "let"
    ensures Base(name) == name && Member(name) == None
  {
    if name == "let" {
      assert name[1..] == "et" && "et"[1..] == "t" && "t"[1..] == "";
      assert Base("t") == "t" && Base("et") == "et";
      assert Member("t") == None && Member("et") == None;
    } else {
      assert name[1..] == "";
    }
  }

  /** Reading a or b, from the innermost scope or the one below it. */
  lemma {:induction false} ReadName<W>(env: Env<W>, fuel: nat, tok: Token, st: State<W>)
    requires fuel > 0 && (tok == A || tok == B) && |st.stack| >= 1
    requires tok.value in st.stack[0] || (|st.stack| == 2 && tok.value in st.stack[1])
    ensures Evaluator(env, fuel)(Atom(tok), st) ==
            Ok(if tok.value in st.stack[0] then st.stack[0][tok.value] else st.stack[1][tok.value], st)
  {
    PlainName(tok.value);
    assert tok.value != "nil";
    var v := if tok.value in st.stack[0] then st.stack[0][tok.value] else st.stack[1][tok.value];
    if tok.value !in st.stack[0] {
      var below := st.stack[1..];
      assert below != [] && below[0] == st.stack[1];
      assert Get(env, st.world, below, tok.value) == Some(v);
    }
    assert Get(env, st.world, st.stack, tok.value) == Some(v);
    assert EvalToken(env, tok, st) == Ok(v, st);
    EvaluatorIs(env, fuel, Atom(tok), st);
  }

  const CALLER: Scope := map["a" := Int(1), "b" := Int(2)]

  const F := Token(Sym, "f", "", Some(1))
  const SECOND: Funcs := map["f" := (Lst([Atom(A), Atom(B)]), Atom(B))]

  /** Calling a function of a and b, which returns b, with the caller's b and a: the second argument
      reads the parameter just bound, so the call is not by value. */
  lemma {:induction false} SwappedArguments<W>(env: Env<W>, fuel: nat, world: W)
    requires fuel > 0 && "let" in env.builtins && env.builtins["let"] == Let && "f" !in env.builtins
    ensures var st := State([CALLER], SECOND, world);
            var params, args, body := [Atom(A), Atom(B)], [Atom(B), Atom(A)], Atom(B);
            && Eval(env, fuel + 2, Lst([Atom(F)] + args), st) == Ok(Int(2), st)
            && ByValue(Evaluator(env, fuel), params, args, body, st) == Ok(Int(1), st)
  {
    var st := State([CALLER], SECOND, world);
    var params, args, body := [Atom(A), Atom(B)], [Atom(B), Atom(A)], Atom(B);
    var code := Lst([Atom(F)] + args);
    PlainName("let");
    PlainName("f");
    assert st.stack[1..] == [];
    assert Unbound(env, "let", st) && Unbound(env, "f", st);
    assert code.items[1..] == args;
    UserCallIsSequentialLet(env, fuel, code, "f", params, body, st);
    SwappedLet(env, fuel, world);
    SwappedByValue(env, fuel, world);
  }

  /** Its arguments are shadowed, and the caller's values do not agree. */
  lemma {:induction false} SwappedIsShadowed<W>(env: Env<W>, world: W)
    ensures var st := State([CALLER], SECOND, world);
            var params, args := [Atom(A), Atom(B)], [Atom(B), Atom(A)];
            AllKnown(env, st, args) && !AgreesWhereShadowed(env, st, params, args)
  {
    var st := State([CALLER], SECOND, world);
    var params, args := [Atom(A), Atom(B)], [Atom(B), Atom(A)];
    PlainName("a");
    PlainName("b");
    assert Known(env, st, args[0]) && Known(env, st, args[1]);
    assert AllKnown(env, st, args);
    var vs := CallerValues(env, st, args);
    assert vs[0] == Int(2) && vs[1] == Int(1) && Shadows(params[0], args[1]);
  }

  // the let binds a to the caller's b, and then b to the new a
  lemma {:induction false} SwappedLet<W>(env: Env<W>, fuel: nat, world: W)
    requires fuel > 0
    ensures var st := State([CALLER], SECOND, world);
            var pairs := Pairs([Atom(A), Atom(B)], [Atom(B), Atom(A)]);
            EvalLet(Evaluator(env, fuel), Lst(pairs), [Atom(B)], st) == Ok(Int(2), st)
  {
    var ev := Evaluator(env, fuel);
    var s0 := State([map[], CALLER], SECOND, world);
    var s1 := State([map["a" := Int(2)], CALLER], SECOND, world);
    var s2 := State([map["a" := Int(2), "b" := Int(2)], CALLER], SECOND, world);
    ReadName(env, fuel, B, s0);
    ReadName(env, fuel, A, s1);
    ReadName(env, fuel, B, s2);
    var first, second := Lst([Atom(A), Atom(B)]), Lst([Atom(B), Atom(A)]);
    assert s0.stack[1..] == [CALLER] == s1.stack[1..];
    assert Alloc(s0.stack, "a", Int(2)) == s1.stack && Alloc(s1.stack, "b", Int(2)) == s2.stack;
    assert [first, second][1..] == [second] && [second][1..] == [];
    assert BindAll(ev, [second], s1) == Ok((), s2);
    assert BindAll(ev, [first, second], s0) == Ok((), s2);
    assert Pairs([Atom(A), Atom(B)], [Atom(B), Atom(A)]) == [first, second];
    assert Push([CALLER]) == s0.stack && s2.stack[1..] == [CALLER];
    ListOfOne(ev, Atom(B), s2);
  }

  lemma {:induction false} SwappedByValue<W>(env: Env<W>, fuel: nat, world: W)
    requires fuel > 0
    ensures var st := State([CALLER], SECOND, world);
            var params, args, body := [Atom(A), Atom(B)], [Atom(B), Atom(A)], Atom(B);
            ByValue(Evaluator(env, fuel), params, args, body, st) == Ok(Int(1), st)
  {
    var ev := Evaluator(env, fuel);
    var st := State([CALLER], SECOND, world);
    ReadName(env, fuel, A, st);
    ReadName(env, fuel, B, st);
    ListOfOne(ev, Atom(A), st);
    assert [Atom(B), Atom(A)][1..] == [Atom(A)] && [Int(2)] + [Int(1)] == [Int(2), Int(1)];
    assert EvalList(ev, [Atom(B), Atom(A)], st) == Ok([Int(2), Int(1)], st);
    var scope: Scope := map["a" := Int(2), "b" := Int(1)];
    assert [Atom(A), Atom(B)][1..] == [Atom(B)] && [Int(2), Int(1)][1..] == [Int(1)];
    assert Bound(map["a" := Int(2)], [Atom(B)], [Int(1)]) == scope;
    assert Bound(map[], [Atom(A), Atom(B)], [Int(2), Int(1)]) == scope;
    var inner := st.(stack := [scope] + st.stack);
    ReadName(env, fuel, B, inner);
    assert inner.stack[1..] == st.stack;
  }
}
