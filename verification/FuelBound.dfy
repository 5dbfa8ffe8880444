/** The nesting bound of evaluation only ever cuts evaluation off; it never changes a result. A greater
    bound gives the same result and the same final state wherever the smaller one was enough,
    form by form. */
module FuelBound {
  import opened Options
  import opened Grammars
  import opened PolicySyntax
  import opened Evaluation

  /** r was cut off, or is the same as s. */
  ghost predicate CutOr<T, W>(r: Res<T, W>, s: Res<T, W>) {
    r == s || (r.Err? && r.error == NoFuel)
  }

  ghost predicate Below<W(!new)>(ev: Ev<W>, ev': Ev<W>) {
    forall code, st :: CutOr(ev(code, st), ev'(code, st))
  }

  lemma {:induction false} ListBelow<W(!new)>(ev: Ev<W>, ev': Ev<W>, items: seq<Ast>, st: State<W>)
    requires Below(ev, ev')
    ensures CutOr(EvalList(ev, items, st), EvalList(ev', items, st))
  {
    if items != [] {
      assert CutOr(ev(items[0], st), ev'(items[0], st));
      ListBelow(ev, ev', items[1..], ev(items[0], st).st);
    }
  }

  lemma {:induction false} ConvertBelow<W(!new)>(ev: Ev<W>, ev': Ev<W>, types: seq<ArgType>, args: seq<Ast>, i: nat,
      line: Option<int>, st: State<W>)
    requires Below(ev, ev') && types != [] && i <= |args| && ArityOk(types, |args|)
    ensures CutOr(ConvertArgs(ev, types, args, i, line, st), ConvertArgs(ev', types, args, i, line, st))
    decreases |args| - i
  {
    if i < |args| {
      assert CutOr(ev(args[i], st), ev'(args[i], st));
      var r := ConvertArg(ev, TypeAt(types, i), args[i], line, st);
      ConvertBelow(ev, ev', types, args, i + 1, line, r.st);
    }
  }

  lemma {:induction false} BindBelow<W(!new)>(ev: Ev<W>, ev': Ev<W>, syms: seq<Ast>, st: State<W>)
    requires Below(ev, ev')
    ensures CutOr(BindAll(ev, syms, st), BindAll(ev', syms, st))
  {
    if syms != [] && syms[0].Lst? && |syms[0].items| == 2 && syms[0].items[0].Atom? {
      var name, r := syms[0].items[0].tok.value, ev(syms[0].items[1], st);
      assert CutOr(r, ev'(syms[0].items[1], st));
      if r.Ok? && r.st.stack != [] {
        BindBelow(ev, ev', syms[1..], r.st.(stack := Alloc(r.st.stack, name, r.value)));
      }
    }
  }

  lemma {:induction false} LetBelow<W(!new)>(ev: Ev<W>, ev': Ev<W>, syms: Ast, code: seq<Ast>, st: State<W>)
    requires Below(ev, ev')
    ensures CutOr(EvalLet(ev, syms, code, st), EvalLet(ev', syms, code, st))
  {
    if syms.Lst? {
      var inner := st.(stack := Push(st.stack));
      BindBelow(ev, ev', syms.items, inner);
      ListBelow(ev, ev', code, BindAll(ev, syms.items, inner).st);
    }
  }

  lemma {:induction false} WithBelow<W(!new)>(ev: Ev<W>, ev': Ev<W>, items: seq<Value>, iterator_: string, code: Ast,
      st: State<W>)
    requires Below(ev, ev')
    ensures CutOr(EvalWithLoop(ev, items, iterator_, code, st), EvalWithLoop(ev', items, iterator_, code, st))
  {
    if items != [] {
      var inner := st.(stack := [map[iterator_ := items[0]]] + st.stack);
      assert CutOr(ev(code, inner), ev'(code, inner));
      var r := ev(code, inner);
      if r.Ok? { WithBelow(ev, ev', items[1..], iterator_, code, Leave(r.value, r.st).st); }
    }
  }

  lemma {:induction false} InvokeBelow<W(!new)>(env: Env<W>, ev: Ev<W>, ev': Ev<W>, name: string, b: Builtin,
      args: seq<Arg>, st: State<W>)
    requires Below(ev, ev')
    ensures CutOr(Invoke(env, ev, name, b, args, st), Invoke(env, ev', name, b, args, st))
  {
    match b
    case Let =>
      if |args| >= 1 && args[0].Code? { LetBelow(ev, ev', args[0].code, Codes(args[1..]), st); }
    case With =>
      if |args| == 3 && args[0].Name? && args[1].Name? && args[2].Code? {
        var v := Get(env, st.world, st.stack, args[0].name);
        if v.Some? && env.iterate(v.value).Some? {
          WithBelow(ev, ev', env.iterate(v.value).value, args[1].name, args[2].code, st);
        }
      }
    case If =>
      if |args| == 3 && args[0].Val? && args[1].Code? && args[2].Code? {
        var branch := if env.truthy(args[0].value) then args[1].code else args[2].code;
        assert CutOr(ev(branch, st), ev'(branch, st));
      }
    case _ =>
  }

  lemma {:induction false} DispatchBelow<W(!new)>(env: Env<W>, ev: Ev<W>, ev': Ev<W>, name: string, b: Builtin,
      args: seq<Ast>, line: Option<int>, st: State<W>)
    requires Below(ev, ev')
    ensures CutOr(Dispatch(env, ev, name, b, args, line, st), Dispatch(env, ev', name, b, args, line, st))
  {
    if ArityOk(b.Doc(), |args|) {
      ConvertBelow(ev, ev', b.Doc(), args, 0, line, st);
      var r := ConvertArgs(ev, b.Doc(), args, 0, line, st);
      if r.Ok? { InvokeBelow(env, ev, ev', name, b, r.value, r.st); }
    }
  }

  lemma {:induction false} DefaultBelow<W(!new)>(ev: Ev<W>, ev': Ev<W>, name: string, args: seq<Ast>,
      line: Option<int>, st: State<W>)
    requires Below(ev, ev')
    ensures CutOr(Default(ev, name, args, line, st), Default(ev', name, args, line, st))
  {
    if name == "eval" {
      ListBelow(ev, ev', args, st);
    } else if name in st.funcs && st.funcs[name].0.Lst? && |st.funcs[name].0.items| == |args| {
      var form := LetForm(st.funcs[name].0.items, args, st.funcs[name].1);
      assert CutOr(ev(form, st), ev'(form, st));
    }
  }

  lemma {:induction false} LayerBelow<W(!new)>(env: Env<W>, ev: Ev<W>, ev': Ev<W>, code: Ast, st: State<W>)
    requires Below(ev, ev')
    ensures CutOr(EvalLayer(env, ev, code, st), EvalLayer(env, ev', code, st))
  {
    if code.Lst? && code.items != [] && code.items[0].Atom? && HeadName(env, code.items[0].tok).Some? {
      var name, args, line := HeadName(env, code.items[0].tok).value, code.items[1..], code.items[0].tok.line;
      ListBelow(ev, ev', args, st);
      if name in env.builtins {
        DispatchBelow(env, ev, ev', name, env.builtins[name], args, line, st);
      }
      DefaultBelow(ev, ev', name, args, line, st);
    }
  }

  /** A larger bound gives the same result, unless the smaller one cut evaluation off. */
  lemma {:induction false} EvalBelow<W(!new)>(env: Env<W>, n: nat, m: nat, code: Ast, st: State<W>)
    requires n <= m
    ensures CutOr(Eval(env, n, code, st), Eval(env, m, code, st))
    decreases n
  {
    if n > 0 {
      var ev, ev' := Evaluator(env, n - 1), Evaluator(env, m - 1);
      forall c, s
        ensures CutOr(ev(c, s), ev'(c, s))
      {
        EvalBelow(env, n - 1, m - 1, c, s);
      }
      LayerBelow(env, ev, ev', code, st);
    }
  }

  /** The result of an evaluation that is not cut off does not depend on the bound. */
  lemma {:induction false} ResultIndependentOfBound<W(!new)>(env: Env<W>, n: nat, m: nat, code: Ast, st: State<W>)
    ensures var r, s := Eval(env, n, code, st), Eval(env, m, code, st);
            (r.Ok? || r.error != NoFuel) && (s.Ok? || s.error != NoFuel) ==> r == s
  {
    if n <= m { EvalBelow(env, n, m, code, st); } else { EvalBelow(env, m, n, code, st); }
  }
}
