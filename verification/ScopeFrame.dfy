/** What evaluation leaves of the variable stack: its depth and the names of the outer scopes
    stay, and names of the innermost scope are only added. Which forms add none at all,
    and how a user call looks once it is rewritten into a let. */
module ScopeFrame {
  import opened Options
  import opened Grammars
  import opened PolicySyntax
  import opened Evaluation

  /** Same depth, same names in every scope. */
  ghost predicate SameNames(a: seq<Scope>, b: seq<Scope>) {
    |a| == |b| && forall k :: 0 <= k < |a| ==> a[k].Keys == b[k].Keys
  }

  /** Same depth; names are only ever added, and only to the innermost scope. */
  ghost predicate NamesGrow(a: seq<Scope>, b: seq<Scope>) {
    && |a| == |b|
    && (forall k :: 0 < k < |a| ==> a[k].Keys == b[k].Keys)
    && (a != [] ==> a[0].Keys <= b[0].Keys)
  }

  ghost predicate Framing<W(!new)>(ev: Ev<W>) {
    forall code, st :: ev(code, st).Ok? ==> NamesGrow(st.stack, ev(code, st).st.stack)
  }

  lemma {:induction false} AssignKeepsNames(stack: seq<Scope>, name: string, v: Value)
    ensures Assign(stack, name, v).Some? ==> SameNames(stack, Assign(stack, name, v).value)
  {
    if stack != [] && name !in stack[0] {
      AssignKeepsNames(stack[1..], name, v);
    }
  }

  lemma {:induction false} ListGrows<W(!new)>(ev: Ev<W>, items: seq<Ast>, st: State<W>)
    requires Framing(ev)
    ensures EvalList(ev, items, st).Ok? ==> NamesGrow(st.stack, EvalList(ev, items, st).st.stack)
  {
    if items != [] && ev(items[0], st).Ok? {
      ListGrows(ev, items[1..], ev(items[0], st).st);
    }
  }

  lemma {:induction false} ConvertGrows<W(!new)>(ev: Ev<W>, types: seq<ArgType>, args: seq<Ast>, i: nat,
      line: Option<int>, st: State<W>)
    requires Framing(ev) && types != [] && i <= |args| && ArityOk(types, |args|)
    ensures var r := ConvertArgs(ev, types, args, i, line, st); r.Ok? ==> NamesGrow(st.stack, r.st.stack)
    decreases |args| - i
  {
    if i < |args| {
      var r := ConvertArg(ev, TypeAt(types, i), args[i], line, st);
      assert ev(args[i], st).Ok? ==> NamesGrow(st.stack, ev(args[i], st).st.stack);
      if r.Ok? { ConvertGrows(ev, types, args, i + 1, line, r.st); }
    }
  }

  lemma {:induction false} BindGrows<W(!new)>(ev: Ev<W>, syms: seq<Ast>, st: State<W>)
    requires Framing(ev)
    ensures BindAll(ev, syms, st).Ok? ==> NamesGrow(st.stack, BindAll(ev, syms, st).st.stack)
  {
    if syms != [] && BindAll(ev, syms, st).Ok? {
      var name, r := syms[0].items[0], ev(syms[0].items[1], st);
      BindGrows(ev, syms[1..], r.st.(stack := Alloc(r.st.stack, name.tok.value, r.value)));
    }
  }

  /** A let leaves no trace in the set of visible names. */
  lemma {:induction false} LetKeepsNames<W(!new)>(ev: Ev<W>, syms: Ast, code: seq<Ast>, st: State<W>)
    requires Framing(ev)
    ensures EvalLet(ev, syms, code, st).Ok? ==> SameNames(st.stack, EvalLet(ev, syms, code, st).st.stack)
  {
    if EvalLet(ev, syms, code, st).Ok? {
      var inner := st.(stack := Push(st.stack));
      BindGrows(ev, syms.items, inner);
      var bound := BindAll(ev, syms.items, inner).st;
      ListGrows(ev, code, bound);
      var done := EvalList(ev, code, bound).st;
      assert NamesGrow(inner.stack, done.stack);
      assert forall k :: 0 <= k < |st.stack| ==>
                           st.stack[k] == inner.stack[k + 1] && done.stack[1..][k] == done.stack[k + 1];
    }
  }

  lemma {:induction false} WithKeepsNames<W(!new)>(ev: Ev<W>, items: seq<Value>, iterator_: string, code: Ast,
      st: State<W>)
    requires Framing(ev)
    ensures var r := EvalWithLoop(ev, items, iterator_, code, st); r.Ok? ==> SameNames(st.stack, r.st.stack)
  {
    if items != [] {
      var inner := st.(stack := [map[iterator_ := items[0]]] + st.stack);
      var r := ev(code, inner);
      if r.Ok? {
        var left := Leave(r.value, r.st).st;
        assert NamesGrow(inner.stack, r.st.stack);
        assert forall k :: 0 <= k < |st.stack| ==>
                             st.stack[k] == inner.stack[k + 1] && left.stack[k] == r.st.stack[k + 1];
        WithKeepsNames(ev, items[1..], iterator_, code, left);
      }
    }
  }

  lemma {:induction false} InvokeGrows<W(!new)>(env: Env<W>, ev: Ev<W>, name: string, b: Builtin, args: seq<Arg>,
      st: State<W>)
    requires Framing(ev)
    ensures var r := Invoke(env, ev, name, b, args, st); r.Ok? ==> NamesGrow(st.stack, r.st.stack)
    ensures var r := Invoke(env, ev, name, b, args, st);
            r.Ok? && (b.Let? || b.With?) ==> SameNames(st.stack, r.st.stack)
  {
    match b
    case Set =>
      if |args| == 2 && args[0].Name? && args[1].Val? { AssignKeepsNames(st.stack, args[0].name, args[1].value); }
    case Let =>
      if |args| >= 1 && args[0].Code? { LetKeepsNames(ev, args[0].code, Codes(args[1..]), st); }
    case With =>
      if |args| == 3 && args[0].Name? && args[1].Name? && args[2].Code? {
        var v := Get(env, st.world, st.stack, args[0].name);
        if v.Some? && env.iterate(v.value).Some? {
          WithKeepsNames(ev, env.iterate(v.value).value, args[1].name, args[2].code, st);
        }
      }
    case _ =>
  }

  lemma {:induction false} DispatchGrows<W(!new)>(env: Env<W>, ev: Ev<W>, name: string, b: Builtin, args: seq<Ast>,
      line: Option<int>, st: State<W>)
    requires Framing(ev)
    ensures var r := Dispatch(env, ev, name, b, args, line, st); r.Ok? ==> NamesGrow(st.stack, r.st.stack)
  {
    if ArityOk(b.Doc(), |args|) {
      ConvertGrows(ev, b.Doc(), args, 0, line, st);
      var r := ConvertArgs(ev, b.Doc(), args, 0, line, st);
      if r.Ok? { InvokeGrows(env, ev, name, b, r.value, r.st); }
    }
  }

  lemma {:induction false} LayerGrows<W(!new)>(env: Env<W>, ev: Ev<W>, code: Ast, st: State<W>)
    requires Framing(ev)
    ensures var r := EvalLayer(env, ev, code, st); r.Ok? ==> NamesGrow(st.stack, r.st.stack)
  {
    if code.Lst? && code.items != [] && code.items[0].Atom? && HeadName(env, code.items[0].tok).Some? {
      var name, args, line := HeadName(env, code.items[0].tok).value, code.items[1..], code.items[0].tok.line;
      ListGrows(ev, args, st);
      if name in env.builtins { DispatchGrows(env, ev, name, env.builtins[name], args, line, st); }
    }
  }

  /** Scope frame: an evaluation that returns normally leaves the stack as deep as it was, the
      outer scopes with the names they had, and the innermost scope with at least its names. */
  lemma {:induction false} EvalFrame<W(!new)>(env: Env<W>, fuel: nat, code: Ast, st: State<W>)
    ensures var r := Eval(env, fuel, code, st); r.Ok? ==> NamesGrow(st.stack, r.st.stack)
  {
    if fuel > 0 {
      EvaluatorFrames(env, fuel - 1);
      LayerGrows(env, Evaluator(env, fuel - 1), code, st);
    }
  }

  lemma {:induction false} EvaluatorFrames<W(!new)>(env: Env<W>, fuel: nat)
    ensures Framing(Evaluator(env, fuel))
    decreases fuel
  {
    var ev := Evaluator(env, fuel);
    forall code, st | ev(code, st).Ok?
      ensures NamesGrow(st.stack, ev(code, st).st.stack)
    {
      EvaluatorIs(env, fuel, code, st);
      if fuel > 0 {
        EvaluatorFrames(env, fuel - 1);
        LayerGrows(env, Evaluator(env, fuel - 1), code, st);
      }
    }
  }

  lemma {:induction false} EvaluatorIs<W>(env: Env<W>, fuel: nat, code: Ast, st: State<W>)
    ensures Evaluator(env, fuel)(code, st) == Eval(env, fuel, code, st)
  {
  }

  // ----- forms that open a scope -----

  ghost predicate Unbound<W>(env: Env<W>, name: string, st: State<W>) {
    Get(env, st.world, st.stack, name) == None || Get(env, st.world, st.stack, name) == Some(NoneValue)
  }

  /** A list form whose head is the given name, and no variable has that name. */
  ghost predicate Calls<W>(env: Env<W>, code: Ast, name: string, st: State<W>) {
    && code.Lst? && code.items != [] && code.items[0].Atom? && HeadName(env, code.items[0].tok) == Some(name)
    && Unbound(env, name, st)
  }

  /** let and with add no name at all: their docstrings leave every argument unevaluated until
      the new scope is in place. */
  lemma {:induction false} ScopedFormKeepsNames<W(!new)>(env: Env<W>, fuel: nat, code: Ast, name: string,
      st: State<W>)
    requires Calls(env, code, name, st) && name in env.builtins
    requires env.builtins[name].Let? || env.builtins[name].With?
    ensures var r := Eval(env, fuel, code, st); r.Ok? ==> SameNames(st.stack, r.st.stack)
  {
    if fuel > 0 {
      var ev := Evaluator(env, fuel - 1);
      EvaluatorFrames(env, fuel - 1);
      var b, args, line := env.builtins[name], code.items[1..], code.items[0].tok.line;
      if ArityOk(b.Doc(), |args|) {
        CodeArgsKeepState(ev, b.Doc(), args, 0, line, st);
        var r := ConvertArgs(ev, b.Doc(), args, 0, line, st);
        if r.Ok? { InvokeGrows(env, ev, name, b, r.value, r.st); }
      }
    }
  }

  lemma {:induction false} CodeArgsKeepState<W>(ev: Ev<W>, types: seq<ArgType>, args: seq<Ast>, i: nat,
      line: Option<int>, st: State<W>)
    requires |types| > 1 && i <= |args| && ArityOk(types, |args|)
    requires forall k :: 0 <= k < |types| && types[k] != Dots ==> types[k] == CodeArg || types[k] == SymbolArg
    requires forall k :: 0 <= k < |types| - 1 ==> types[k] != Dots
    ensures ConvertArgs(ev, types, args, i, line, st).st == st
    decreases |args| - i
  {
    if i < |args| { CodeArgsKeepState(ev, types, args, i + 1, line, st); }
  }

  /** Calling a user function adds no name to the caller's scopes, whatever the caller's
      variables are called. */
  lemma {:induction false} UserCallKeepsNames<W(!new)>(env: Env<W>, fuel: nat, code: Ast, name: string, st: State<W>)
    requires Calls(env, code, name, st) && name !in env.builtins && name != "eval"
    requires "let" in env.builtins && env.builtins["let"] == Let
    ensures var r := Eval(env, fuel, code, st); r.Ok? ==> SameNames(st.stack, r.st.stack)
  {
    if Eval(env, fuel, code, st).Ok? {
      var params, body := UserCallIsLet(env, fuel, code, name, st);
      if !Unbound(env, "let", st) { LetShadowedFails(env, fuel - 1, params, code.items[1..], body, st); }
      ScopedFormKeepsNames(env, fuel - 1, LetForm(params, code.items[1..], body), "let", st);
    }
  }

  lemma {:induction false} UserCallIsLet<W>(env: Env<W>, fuel: nat, code: Ast, name: string, st: State<W>)
      returns (params: seq<Ast>, body: Ast)
    requires Calls(env, code, name, st) && name !in env.builtins && name != "eval"
    requires Eval(env, fuel, code, st).Ok?
    ensures fuel > 0 && |params| == |code.items| - 1 && name in st.funcs && st.funcs[name] == (Lst(params), body)
    ensures Eval(env, fuel, code, st) == Eval(env, fuel - 1, LetForm(params, code.items[1..], body), st)
  {
    params, body := st.funcs[name].0.items, st.funcs[name].1;
    EvaluatorIs(env, fuel - 1, LetForm(params, code.items[1..], body), st);
  }

  /** A variable called let makes every user call fail: its first argument is no expression. */
  lemma {:induction false} LetShadowedFails<W>(env: Env<W>, fuel: nat, params: seq<Ast>, args: seq<Ast>, body: Ast,
      st: State<W>)
    requires |params| == |args| && !Unbound(env, "let", st)
    ensures Eval(env, fuel, LetForm(params, args, body), st).Err?
  {
    if fuel > 0 {
      var ev := Evaluator(env, fuel - 1);
      var scope := Lst(Pairs(params, args));
      EvaluatorIs(env, fuel - 1, scope, st);
      assert ev(scope, st).Err?;
      assert LetForm(params, args, body).items[1..] == [scope, body];
      assert EvalList(ev, [scope, body], st).Err?;
    }
  }
}
