/** What each form of the policy language evaluates to, stated on evaluation alone. */
module EvalLaws {
  import opened Options
  import opened Grammars
  import opened PolicySyntax
  import opened Evaluation
  import opened ScopeFrame
  import opened CallByValue

  // ----- one after the other -----

  /** The expressions evaluate to the values, each in the state the one before it has left. */
  ghost predicate InTurn<W>(ev: Ev<W>, codes: seq<Ast>, vs: seq<Value>, states: seq<State<W>>) {
    && |vs| == |codes| && |states| == |codes| + 1
    && forall k :: 0 <= k < |codes| ==> ev(codes[k], states[k]) == Ok(vs[k], states[k + 1])
  }

  lemma {:induction false} ListInTurn<W>(ev: Ev<W>, codes: seq<Ast>, vs: seq<Value>, states: seq<State<W>>, k: nat)
    requires InTurn(ev, codes, vs, states) && k <= |codes|
    ensures EvalList(ev, codes[k..], states[k]) == Ok(vs[k..], states[|codes|])
    decreases |codes| - k
  {
    if k < |codes| {
      ListInTurn(ev, codes, vs, states, k + 1);
      assert codes[k..][0] == codes[k] && codes[k..][1..] == codes[k + 1..] && vs[k..] == [vs[k]] + vs[k + 1..];
    } else {
      assert codes[k..] == [] && vs[k..] == [];
    }
  }

  lemma {:induction false} WholeListInTurn<W>(ev: Ev<W>, codes: seq<Ast>, vs: seq<Value>, states: seq<State<W>>)
    requires InTurn(ev, codes, vs, states)
    ensures EvalList(ev, codes, states[0]) == Ok(vs, states[|codes|])
  {
    ListInTurn(ev, codes, vs, states, 0);
    assert codes[0..] == codes && vs[0..] == vs;
  }

  /** The first of the expressions that fails ends the list, in the state it fails in. */
  lemma {:induction false} ListStops<W>(ev: Ev<W>, codes: seq<Ast>, n: nat, vs: seq<Value>, states: seq<State<W>>,
      k: nat)
    requires n < |codes| && InTurn(ev, codes[..n], vs, states) && ev(codes[n], states[n]).Err? && k <= n
    ensures var r := ev(codes[n], states[n]); EvalList(ev, codes[k..], states[k]) == Err(r.error, r.st)
    decreases n - k
  {
    assert codes[k..][0] == codes[k] && codes[k..][1..] == codes[k + 1..];
    if k < n {
      assert codes[..n][k] == codes[k];
      ListStops(ev, codes, n, vs, states, k + 1);
    }
  }

  lemma {:induction false} WholeListStops<W>(ev: Ev<W>, codes: seq<Ast>, n: nat, vs: seq<Value>,
      states: seq<State<W>>)
    requires n < |codes| && InTurn(ev, codes[..n], vs, states) && ev(codes[n], states[n]).Err?
    ensures var r := ev(codes[n], states[n]); EvalList(ev, codes, states[0]) == Err(r.error, r.st)
  {
    ListStops(ev, codes, n, vs, states, 0);
    assert codes[0..] == codes;
  }

  // ----- tokens -----

  /** A string token stands for what is between its quotes. */
  lemma {:induction false} StringIsUnquoted<W>(env: Env<W>, fuel: nat, tok: Token, open: char, s: string,
      close: char, st: State<W>)
    requires tok.kind == Str && tok.value == [open] + s + [close]
    ensures Eval(env, fuel + 1, Atom(tok), st) == Ok(Text(s), st)
  {
    assert tok.value[1..|tok.value| - 1] == s;
  }

  /** Scope k is the innermost one that has the name. */
  ghost predicate Innermost(stack: seq<Scope>, name: string, k: int) {
    0 <= k < |stack| && name in stack[k] && forall j :: 0 <= j < k ==> name !in stack[j]
  }

  ghost predicate Nowhere(name: string, stack: seq<Scope>) {
    forall k :: 0 <= k < |stack| ==> name !in stack[k]
  }

  /** A name without a dot. */
  predicate Plainly(name: string) {
    '.' !in name
  }

  lemma {:induction false} NoDot(name: string)
    requires Plainly(name)
    ensures Base(name) == name && Member(name) == None
  {
    if name != "" { NoDot(name[1..]); }
  }

  /** A dotted name. */
  lemma {:induction false} Dotted(front: string, back: string)
    requires Plainly(front)
    ensures Base(front + "." + back) == front && Member(front + "." + back) == Some(Base(back))
  {
    var name := front + "." + back;
    if front == "" {
      assert name[1..] == back;
    } else {
      assert name[1..] == front[1..] + "." + back;
      Dotted(front[1..], back);
    }
  }

  lemma {:induction false} GetInnermost<W>(env: Env<W>, world: W, stack: seq<Scope>, name: string, k: nat)
    requires Plainly(name) && Innermost(stack, name, k)
    ensures Get(env, world, stack, name) == Some(stack[k][name])
  {
    NoDot(name);
    if k > 0 { GetInnermost(env, world, stack[1..], name, k - 1); }
  }

  lemma {:induction false} NowhereGot<W>(env: Env<W>, world: W, stack: seq<Scope>, name: string)
    requires Plainly(name) && Nowhere(name, stack)
    ensures Get(env, world, stack, name) == None
  {
    if stack != [] {
      NoDot(name);
      assert forall k :: 0 <= k < |stack[1..]| ==> stack[1..][k] == stack[k + 1];
      NowhereGot(env, world, stack[1..], name);
    }
  }

  lemma {:induction false} NowhereUnbound<W>(env: Env<W>, name: string, st: State<W>)
    requires Plainly(name) && Nowhere(name, st.stack)
    ensures Get(env, st.world, st.stack, name) == None && Unbound(env, name, st)
  {
    NowhereGot(env, st.world, st.stack, name);
  }

  /** Scope k is the innermost one whose value of that name has the attribute. */
  ghost predicate InnermostWith<W>(env: Env<W>, world: W, stack: seq<Scope>, name: string, entry: string, k: nat) {
    && k < |stack| && name in stack[k] && env.attribute(world, stack[k][name], entry).Some?
    && forall j :: 0 <= j < k && name in stack[j] ==> env.attribute(world, stack[j][name], entry).None?
  }

  /** A dotted name is the attribute of the innermost value that has it; what follows a second dot
      is ignored. */
  lemma {:induction false} DottedIsAttribute<W>(env: Env<W>, world: W, stack: seq<Scope>, name: string,
      entry: string, rest: string, k: nat)
    requires Plainly(name) && Plainly(entry) && (rest == "" || rest[0] == '.')
    requires InnermostWith(env, world, stack, name, entry, k)
    ensures Get(env, world, stack, name + "." + (entry + rest)) == env.attribute(world, stack[k][name], entry)
  {
    Dotted(name, entry + rest);
    FirstPart(entry, rest);
    if k > 0 {
      assert forall j :: 0 <= j < |stack[1..]| ==> stack[1..][j] == stack[j + 1];
      DottedIsAttribute(env, world, stack[1..], name, entry, rest, k - 1);
    }
  }

  lemma {:induction false} FirstPart(entry: string, rest: string)
    requires Plainly(entry) && (rest == "" || rest[0] == '.')
    ensures Base(entry + rest) == entry
  {
    if entry == "" {
      assert entry + rest == rest;
    } else {
      assert (entry + rest)[1..] == entry[1..] + rest;
      FirstPart(entry[1..], rest);
    }
  }

  /** A symbol reads as the innermost variable of its name, nil as nothing, and an unknown one fails. */
  lemma {:induction false} SymbolReads<W>(env: Env<W>, fuel: nat, tok: Token, st: State<W>)
    requires tok.kind == Sym
    ensures tok.value == "nil" ==> Eval(env, fuel + 1, Atom(tok), st) == Ok(NoneValue, st)
    ensures forall k :: tok.value != "nil" && Plainly(tok.value) && Innermost(st.stack, tok.value, k) ==>
              Eval(env, fuel + 1, Atom(tok), st) == Ok(st.stack[k][tok.value], st)
    ensures tok.value != "nil" && Plainly(tok.value) && Nowhere(tok.value, st.stack) ==>
              Eval(env, fuel + 1, Atom(tok), st) == Err(if tok.line.Some? then PolicyError else OtherException, st)
  {
    forall k | tok.value != "nil" && Plainly(tok.value) && Innermost(st.stack, tok.value, k)
      ensures Get(env, st.world, st.stack, tok.value) == Some(st.stack[k][tok.value])
    {
      GetInnermost(env, st.world, st.stack, tok.value, k);
    }
    if Plainly(tok.value) && Nowhere(tok.value, st.stack) { NowhereGot(env, st.world, st.stack, tok.value); }
  }

  // ----- arguments -----

  /** A list that starts with the name, or with an operator that stands for it. */
  ghost predicate Headed<W>(env: Env<W>, code: Ast, name: string) {
    && code.Lst? && code.items != [] && code.items[0].Atom?
    && var tok := code.items[0].tok;
       || (tok.kind == Sym && tok.value == name)
       || (tok.kind == Operator && tok.value in env.operators && env.operators[tok.value] == name)
  }

  /** A form of the table, its name bound by no variable. */
  ghost predicate Form<W>(env: Env<W>, code: Ast, name: string, b: Builtin, st: State<W>) {
    Headed(env, code, name) && Unbound(env, name, st) && name in env.builtins && env.builtins[name] == b
  }

  /** Lists without a head that names something, and tokens that are no values, are errors. */
  lemma {:induction false} NothingNamed<W>(env: Env<W>, fuel: nat, code: Ast, st: State<W>)
    ensures code == Lst([]) ==> Eval(env, fuel + 1, code, st) == Err(OtherException, st)
    ensures code.Lst? && code.items != [] && code.items[0].Lst? ==>
              Eval(env, fuel + 1, code, st) == Err(PolicyError, st)
    ensures code.Lst? && code.items != [] && code.items[0].Atom? && code.items[0].tok.kind == Operator
            && code.items[0].tok.value !in env.operators ==>
              Eval(env, fuel + 1, code, st) == Err(OtherException, st)
    ensures code.Lst? && code.items != [] && code.items[0].Atom? && code.items[0].tok.kind != Operator
            && code.items[0].tok.kind != Sym ==>
              Eval(env, fuel + 1, code, st) ==
              Err(if code.items[0].tok.line.Some? then PolicyError else OtherException, st)
    ensures code.Atom? && code.tok.kind != Number && code.tok.kind != Str && code.tok.kind != Sym ==>
              Eval(env, fuel + 1, code, st) == Err(if code.tok.line.Some? then PolicyError else OtherException, st)
  {
  }

  /** How many arguments a form takes. */
  predicate FormTakes(b: Builtin, n: nat) {
    match b
    case Def => n == 3
    case With => n == 3
    case If => n == 3
    case Set => n == 2
    case Defvar => n == 2
    case Let => n >= 2
    case _ => true
  }

  /** With another number of arguments a form is an error before any of them is looked at. */
  lemma {:induction false} WrongCount<W>(env: Env<W>, fuel: nat, code: Ast, name: string, b: Builtin, st: State<W>)
    requires Form(env, code, name, b, st) && !FormTakes(b, |code.items| - 1)
    ensures Eval(env, fuel + 1, code, st) ==
            Err(if code.items[0].tok.line.Some? then PolicyError else OtherException, st)
  {
    FormDispatches(env, Evaluator(env, fuel), code, name, b, st);
  }

  lemma {:induction false} FormDispatches<W>(env: Env<W>, ev: Ev<W>, code: Ast, name: string, b: Builtin,
      st: State<W>)
    requires Form(env, code, name, b, st)
    ensures EvalLayer(env, ev, code, st) == Dispatch(env, ev, name, b, code.items[1..], code.items[0].tok.line, st)
  {
  }

  /** What becomes of arguments that are not evaluated. */
  function Unevaluated(types: seq<ArgType>, args: seq<Ast>): seq<Arg>
    requires types != [] && ArityOk(types, |args|)
  {
    seq(|args|, k requires 0 <= k < |args| =>
      if TypeAt(types, k) == CodeArg || !args[k].Atom? then Code(args[k]) else Name(args[k].tok.value))
  }

  ghost predicate NoneEvaluated(types: seq<ArgType>, args: seq<Ast>) {
    && types != [] && ArityOk(types, |args|)
    && forall k :: 0 <= k < |args| ==>
         TypeAt(types, k) == CodeArg || (TypeAt(types, k) == SymbolArg && args[k].Atom? && args[k].tok.kind == Sym)
  }

  lemma {:induction false} ConvertsUnevaluated<W>(ev: Ev<W>, types: seq<ArgType>, args: seq<Ast>, i: nat,
      line: Option<int>, st: State<W>)
    requires NoneEvaluated(types, args) && i <= |args|
    ensures ConvertArgs(ev, types, args, i, line, st) == Ok(Unevaluated(types, args)[i..], st)
    decreases |args| - i
  {
    var out := Unevaluated(types, args);
    if i < |args| {
      ConvertsUnevaluated(ev, types, args, i + 1, line, st);
      ConvertStep(ev, types, args, i, line, st);
      assert ConvertArg(ev, TypeAt(types, i), args[i], line, st) == Ok(out[i], st);
      assert out[i..] == [out[i]] + out[i + 1..];
    } else {
      assert out[i..] == [];
    }
  }

  lemma {:induction false} DispatchInvokes<W>(env: Env<W>, ev: Ev<W>, name: string, b: Builtin, args: seq<Ast>,
      line: Option<int>, st: State<W>)
    requires NoneEvaluated(b.Doc(), args)
    ensures Dispatch(env, ev, name, b, args, line, st) == Invoke(env, ev, name, b, Unevaluated(b.Doc(), args), st)
  {
    ConvertsUnevaluated(ev, b.Doc(), args, 0, line, st);
  }

  /** An evaluated argument, then arguments that are not. */
  lemma {:induction false} ConvertsFirst<W>(ev: Ev<W>, args: seq<Ast>, line: Option<int>, st: State<W>)
    requires |args| == 3
    ensures ConvertArgs(ev, [ValueArg, CodeArg, CodeArg], args, 0, line, st) ==
            match ev(args[0], st)
            case Err(e, st1) => Err(e, st1)
            case Ok(v, st1) => Ok([Val(v), Code(args[1]), Code(args[2])], st1)
  {
    var types := [ValueArg, CodeArg, CodeArg];
    ConvertStep(ev, types, args, 0, line, st);
    assert TypeAt(types, 0) == ValueArg && TypeAt(types, 1) == CodeArg && TypeAt(types, 2) == CodeArg;
    match ev(args[0], st)
    case Ok(v, st1) =>
      ConvertStep(ev, types, args, 1, line, st1);
      ConvertStep(ev, types, args, 2, line, st1);
      assert ConvertArgs(ev, types, args, 3, line, st1) == Ok([], st1);
      AfterEnd([Code(args[2])], st1);
      assert [Code(args[1])] + [Code(args[2])] == [Code(args[1]), Code(args[2])];
      assert [Val(v)] + [Code(args[1]), Code(args[2])] == [Val(v), Code(args[1]), Code(args[2])];
    case Err(_, _) =>
  }

  /** A name, then an evaluated argument. */
  lemma {:induction false} ConvertsSecond<W>(ev: Ev<W>, args: seq<Ast>, line: Option<int>, st: State<W>)
    requires |args| == 2 && args[0].Atom? && args[0].tok.kind == Sym
    ensures ConvertArgs(ev, [SymbolArg, ValueArg], args, 0, line, st) ==
            match ev(args[1], st)
            case Err(e, st1) => Err(e, st1)
            case Ok(v, st1) => Ok([Name(args[0].tok.value), Val(v)], st1)
  {
    var types := [SymbolArg, ValueArg];
    ConvertStep(ev, types, args, 0, line, st);
    ConvertStep(ev, types, args, 1, line, st);
    assert TypeAt(types, 0) == SymbolArg && TypeAt(types, 1) == ValueArg;
    match ev(args[1], st)
    case Ok(v, st1) =>
      var name := Name(args[0].tok.value);
      assert ConvertArgs(ev, types, args, 2, line, st1) == Ok([], st1);
      AfterEnd([Val(v)], st1);
      assert [name] + [Val(v)] == [name, Val(v)];
    case Err(_, _) =>
  }

  // ----- if -----

  lemma {:induction false} IfDispatches<W>(env: Env<W>, ev: Ev<W>, name: string, args: seq<Ast>, line: Option<int>,
      st: State<W>)
    requires |args| == 3
    ensures Dispatch(env, ev, name, If, args, line, st) ==
            match ev(args[0], st)
            case Err(e, st1) => Err(e, st1)
            case Ok(v, st1) => ev(if env.truthy(v) then args[1] else args[2], st1)
  {
    ConvertsFirst(ev, args, line, st);
  }

  /** The form ends exactly as the chosen branch does, in the state the condition has left; the other
      branch has no part in it. */
  lemma {:induction false} IfTakesBranch<W>(env: Env<W>, fuel: nat, code: Ast, name: string, st: State<W>)
    requires Form(env, code, name, If, st) && |code.items| == 4
    ensures match Eval(env, fuel, code.items[1], st)
            case Err(e, st1) => Eval(env, fuel + 1, code, st) == Err(e, st1)
            case Ok(v, st1) =>
              && (env.truthy(v) ==> Eval(env, fuel + 1, code, st) == Eval(env, fuel, code.items[2], st1))
              && (!env.truthy(v) ==> Eval(env, fuel + 1, code, st) == Eval(env, fuel, code.items[3], st1))
  {
    var ev := Evaluator(env, fuel);
    EvaluatorIs(env, fuel, code.items[1], st);
    FormDispatches(env, ev, code, name, If, st);
    IfDispatches(env, ev, name, code.items[1..], code.items[0].tok.line, st);
    match Eval(env, fuel, code.items[1], st)
    case Ok(v, st1) =>
      EvaluatorIs(env, fuel, code.items[2], st1);
      EvaluatorIs(env, fuel, code.items[3], st1);
    case Err(_, _) =>
  }

  // ----- set, defvar, def -----

  lemma {:induction false} AssignsInnermost(stack: seq<Scope>, name: string, v: Value, k: nat)
    requires Innermost(stack, name, k)
    ensures Assign(stack, name, v) == Some(stack[k := stack[k][name := v]])
  {
    if k > 0 {
      AssignsInnermost(stack[1..], name, v, k - 1);
      assert stack[k := stack[k][name := v]] == [stack[0]] + stack[1..][k - 1 := stack[k][name := v]];
    } else {
      assert stack[0 := stack[0][name := v]] == [stack[0][name := v]] + stack[1..];
    }
  }

  lemma {:induction false} AssignsNowhere(stack: seq<Scope>, name: string, v: Value)
    requires Nowhere(name, stack)
    ensures Assign(stack, name, v) == None
  {
    if stack != [] {
      assert forall k :: 0 <= k < |stack[1..]| ==> stack[1..][k] == stack[k + 1];
      AssignsNowhere(stack[1..], name, v);
    }
  }

  lemma {:induction false} SetDispatches<W>(env: Env<W>, ev: Ev<W>, name: string, args: seq<Ast>, line: Option<int>,
      st: State<W>)
    requires |args| == 2 && args[0].Atom? && args[0].tok.kind == Sym
    ensures Dispatch(env, ev, name, Set, args, line, st) ==
            match ev(args[1], st)
            case Err(e, st1) => Err(e, st1)
            case Ok(v, st1) =>
              match Assign(st1.stack, args[0].tok.value, v)
              case Some(stack) => Ok(v, st1.(stack := stack))
              case None => Err(PolicyError, st1)
  {
    ConvertsSecond(ev, args, line, st);
  }

  /** set gives the value to the innermost variable of that name, and is worth the value; without such a
      variable it is a policy error. */
  lemma {:induction false} SetAssigns<W>(env: Env<W>, fuel: nat, code: Ast, name: string, variable: string,
      st: State<W>)
    requires Form(env, code, name, Set, st) && |code.items| == 3
    requires code.items[1].Atom? && code.items[1].tok.kind == Sym && code.items[1].tok.value == variable
    ensures match Eval(env, fuel, code.items[2], st)
            case Err(e, st1) => Eval(env, fuel + 1, code, st) == Err(e, st1)
            case Ok(v, st1) =>
              && (forall k :: Innermost(st1.stack, variable, k) ==>
                    Eval(env, fuel + 1, code, st) ==
                    Ok(v, st1.(stack := st1.stack[k := st1.stack[k][variable := v]])))
              && (Nowhere(variable, st1.stack) ==> Eval(env, fuel + 1, code, st) == Err(PolicyError, st1))
  {
    EvaluatorIs(env, fuel, code.items[2], st);
    FormDispatches(env, Evaluator(env, fuel), code, name, Set, st);
    SetDispatches(env, Evaluator(env, fuel), name, code.items[1..], code.items[0].tok.line, st);
    match Eval(env, fuel, code.items[2], st)
    case Ok(v, st1) =>
      forall k | Innermost(st1.stack, variable, k)
        ensures Assign(st1.stack, variable, v) == Some(st1.stack[k := st1.stack[k][variable := v]])
      {
        AssignsInnermost(st1.stack, variable, v, k);
      }
      if Nowhere(variable, st1.stack) { AssignsNowhere(st1.stack, variable, v); }
    case Err(_, _) =>
  }

  /** after is before with the name bound in the innermost scope, unless it was bound there. */
  ghost predicate Declared(before: seq<Scope>, name: string, v: Value, after: seq<Scope>) {
    && before != [] && |after| == |before| && after[1..] == before[1..]
    && (name in before[0] ==> after[0] == before[0])
    && (name !in before[0] ==> after[0].Keys == before[0].Keys + {name} && after[0][name] == v)
    && (forall n :: n in before[0] ==> n in after[0] && after[0][n] == before[0][n])
  }

  lemma {:induction false} AllocDeclares(stack: seq<Scope>, name: string, v: Value, stack': seq<Scope>)
    requires stack != []
    ensures Declared(stack, name, v, stack') <==> stack' == Alloc(stack, name, v)
  {
    if Declared(stack, name, v, stack') {
      assert stack'[0] == Alloc(stack, name, v)[0];
      assert stack' == [stack'[0]] + stack'[1..];
    }
  }

  lemma {:induction false} DefvarDispatches<W>(env: Env<W>, ev: Ev<W>, name: string, args: seq<Ast>,
      line: Option<int>, st: State<W>)
    requires |args| == 2 && args[0].Atom? && args[0].tok.kind == Sym
    ensures Dispatch(env, ev, name, Defvar, args, line, st) ==
            match ev(args[1], st)
            case Err(e, st1) => Err(e, st1)
            case Ok(v, st1) =>
              if st1.stack == [] then Err(OtherException, st1)
              else
                var stack := Alloc(st1.stack, args[0].tok.value, v);
                Ok(stack[0][args[0].tok.value], st1.(stack := stack))
  {
    ConvertsSecond(ev, args, line, st);
  }

  /** defvar binds the name in the innermost scope unless it is bound there, and is worth what stands there. */
  lemma {:induction false} DefvarDeclares<W>(env: Env<W>, fuel: nat, code: Ast, name: string, variable: string,
      st: State<W>)
    requires Form(env, code, name, Defvar, st) && |code.items| == 3
    requires code.items[1].Atom? && code.items[1].tok.kind == Sym && code.items[1].tok.value == variable
    ensures match Eval(env, fuel, code.items[2], st)
            case Err(e, st1) => Eval(env, fuel + 1, code, st) == Err(e, st1)
            case Ok(v, st1) =>
              st1.stack != [] ==>
                var r := Eval(env, fuel + 1, code, st);
                && r.Ok? && Declared(st1.stack, variable, v, r.st.stack) && r.st == st1.(stack := r.st.stack)
                && variable in r.st.stack[0] && r.value == r.st.stack[0][variable]
  {
    EvaluatorIs(env, fuel, code.items[2], st);
    FormDispatches(env, Evaluator(env, fuel), code, name, Defvar, st);
    DefvarDispatches(env, Evaluator(env, fuel), name, code.items[1..], code.items[0].tok.line, st);
    match Eval(env, fuel, code.items[2], st)
    case Ok(v, st1) =>
      if st1.stack != [] { AllocDeclares(st1.stack, variable, v, Alloc(st1.stack, variable, v)); }
    case Err(_, _) =>
  }

  lemma {:induction false} ThreeUnevaluated(types: seq<ArgType>, args: seq<Ast>)
    requires |types| == |args| == 3 && args[0].Atom? && types[0] == SymbolArg && types[2] == CodeArg
    requires types[1] == CodeArg || (types[1] == SymbolArg && args[1].Atom?)
    ensures Unevaluated(types, args) ==
            [Name(args[0].tok.value), if types[1] == CodeArg then Code(args[1]) else Name(args[1].tok.value),
             Code(args[2])]
  {
  }

  lemma {:induction false} DefDispatches<W>(env: Env<W>, ev: Ev<W>, name: string, args: seq<Ast>, line: Option<int>,
      st: State<W>)
    requires |args| == 3 && args[0].Atom? && args[0].tok.kind == Sym
    ensures Dispatch(env, ev, name, Def, args, line, st) ==
            Ok(Text(args[0].tok.value), st.(funcs := st.funcs[args[0].tok.value := (args[1], args[2])]))
  {
    DispatchInvokes(env, ev, name, Def, args, line, st);
    ThreeUnevaluated(Def.Doc(), args);
  }

  /** def records parameters and body unevaluated, and is worth the function's name. */
  lemma {:induction false} DefRecords<W>(env: Env<W>, fuel: nat, code: Ast, name: string, function_: string,
      st: State<W>)
    requires Form(env, code, name, Def, st) && |code.items| == 4
    requires code.items[1].Atom? && code.items[1].tok.kind == Sym && code.items[1].tok.value == function_
    ensures Eval(env, fuel + 1, code, st) ==
            Ok(Text(function_), st.(funcs := st.funcs[function_ := (code.items[2], code.items[3])]))
  {
    FormDispatches(env, Evaluator(env, fuel), code, name, Def, st);
    DefDispatches(env, Evaluator(env, fuel), name, code.items[1..], code.items[0].tok.line, st);
  }

  // ----- let -----

  /** The bindings of a let in turn: each value is evaluated where the bindings before it have led, and
      declared in the innermost scope; mids are the states in between. */
  ghost predicate BindsInTurn<W>(ev: Ev<W>, syms: seq<Ast>, vs: seq<Value>, mids: seq<State<W>>,
      states: seq<State<W>>) {
    && |vs| == |mids| == |syms| && |states| == |syms| + 1
    && forall k :: 0 <= k < |syms| ==> Binds(ev, syms[k], vs[k], mids[k], states[k], states[k + 1])
  }

  ghost predicate Binds<W>(ev: Ev<W>, sym: Ast, v: Value, mid: State<W>, before: State<W>, after: State<W>) {
    && Binding(sym) && ev(sym.items[1], before) == Ok(v, mid)
    && Declared(mid.stack, sym.items[0].tok.value, v, after.stack) && after == mid.(stack := after.stack)
  }

  /** A list of a symbol and an expression. */
  predicate Binding(sym: Ast) {
    sym.Lst? && |sym.items| == 2 && sym.items[0].Atom? && sym.items[0].tok.kind == Sym
  }

  lemma {:induction false} BindsOn<W>(ev: Ev<W>, syms: seq<Ast>, vs: seq<Value>, mids: seq<State<W>>,
      states: seq<State<W>>, k: nat)
    requires BindsInTurn(ev, syms, vs, mids, states) && k <= |syms|
    ensures BindAll(ev, syms[k..], states[k]) == Ok((), states[|syms|])
    decreases |syms| - k
  {
    if k < |syms| {
      BindsOn(ev, syms, vs, mids, states, k + 1);
      assert syms[k..][0] == syms[k] && syms[k..][1..] == syms[k + 1..];
      assert Binds(ev, syms[k], vs[k], mids[k], states[k], states[k + 1]);
      AllocDeclares(mids[k].stack, syms[k].items[0].tok.value, vs[k], states[k + 1].stack);
    }
  }

  /** The next binding fails where the ones before it have led. */
  lemma {:induction false} BindingStops<W>(ev: Ev<W>, syms: seq<Ast>, n: nat, vs: seq<Value>, mids: seq<State<W>>,
      states: seq<State<W>>, k: nat)
    requires n < |syms| && BindsInTurn(ev, syms[..n], vs, mids, states) && k <= n
    requires Binding(syms[n]) && ev(syms[n].items[1], states[n]).Err?
    ensures var r := ev(syms[n].items[1], states[n]); BindAll(ev, syms[k..], states[k]) == Err(r.error, r.st)
    decreases n - k
  {
    assert syms[k..][0] == syms[k] && syms[k..][1..] == syms[k + 1..];
    if k < n {
      assert syms[..n][k] == syms[k];
      assert Binds(ev, syms[k], vs[k], mids[k], states[k], states[k + 1]);
      AllocDeclares(mids[k].stack, syms[k].items[0].tok.value, vs[k], states[k + 1].stack);
      BindingStops(ev, syms, n, vs, mids, states, k + 1);
    }
  }

  /** Without the innermost scope. */
  function Outer(stack: seq<Scope>): seq<Scope> {
    if stack == [] then [] else stack[1..]
  }

  lemma {:induction false} LetInTurn<W>(ev: Ev<W>, syms: seq<Ast>, codes: seq<Ast>, st: State<W>, vs: seq<Value>,
      mids: seq<State<W>>, states: seq<State<W>>, ws: seq<Value>, ends: seq<State<W>>)
    requires BindsInTurn(ev, syms, vs, mids, states) && states[0] == st.(stack := [map[]] + st.stack)
    requires codes != [] && InTurn(ev, codes, ws, ends) && ends[0] == states[|syms|]
    ensures EvalLet(ev, Lst(syms), codes, st) ==
            Ok(ws[|codes| - 1], ends[|codes|].(stack := Outer(ends[|codes|].stack)))
  {
    BindsOn(ev, syms, vs, mids, states, 0);
    assert syms[0..] == syms;
    WholeListInTurn(ev, codes, ws, ends);
  }

  lemma {:induction false} LetDispatches<W>(env: Env<W>, ev: Ev<W>, name: string, args: seq<Ast>, line: Option<int>,
      st: State<W>)
    requires |args| >= 2
    ensures Dispatch(env, ev, name, Let, args, line, st) == EvalLet(ev, args[0], args[1..], st)
  {
    assert forall k :: 0 <= k < |args| ==> TypeAt(Let.Doc(), k) == CodeArg;
    DispatchInvokes(env, ev, name, Let, args, line, st);
    var out := Unevaluated(Let.Doc(), args);
    assert Evaluation.Codes(out[1..]) == args[1..];
  }

  /** A let is worth its last expression: bindings one after the other in a new scope, then the expressions
      one after the other; and the scope is gone. */
  lemma {:induction false} LetIsLast<W>(env: Env<W>, fuel: nat, code: Ast, name: string, st: State<W>,
      vs: seq<Value>, mids: seq<State<W>>, states: seq<State<W>>, ws: seq<Value>, ends: seq<State<W>>)
    requires Form(env, code, name, Let, st) && |code.items| >= 3 && code.items[1].Lst?
    requires var ev := Evaluator(env, fuel); var syms := code.items[1].items;
             BindsInTurn(ev, syms, vs, mids, states) && states[0] == st.(stack := [map[]] + st.stack)
             && InTurn(ev, code.items[2..], ws, ends) && ends[0] == states[|syms|]
    ensures var n := |code.items| - 2;
            Eval(env, fuel + 1, code, st) == Ok(ws[n - 1], ends[n].(stack := Outer(ends[n].stack)))
  {
    var ev := Evaluator(env, fuel);
    FormDispatches(env, ev, code, name, Let, st);
    LetDispatches(env, ev, name, code.items[1..], code.items[0].tok.line, st);
    assert code.items[1..][1..] == code.items[2..];
    LetInTurn(ev, code.items[1].items, code.items[2..], st, vs, mids, states, ws, ends);
  }

  /** A binding or an expression that fails ends the let where it fails, with the scope still there. */
  lemma {:induction false} LetStops<W>(env: Env<W>, fuel: nat, code: Ast, name: string, st: State<W>, n: nat,
      vs: seq<Value>, mids: seq<State<W>>, states: seq<State<W>>)
    requires Form(env, code, name, Let, st) && |code.items| >= 3 && code.items[1].Lst?
    requires var ev := Evaluator(env, fuel); var syms := code.items[1].items;
             && n <= |syms| && BindsInTurn(ev, syms[..n], vs, mids, states)
             && states[0] == st.(stack := [map[]] + st.stack)
    ensures var ev := Evaluator(env, fuel); var syms := code.items[1].items;
            && (n < |syms| && Binding(syms[n]) && ev(syms[n].items[1], states[n]).Err? ==>
                  var r := ev(syms[n].items[1], states[n]); Eval(env, fuel + 1, code, st) == Err(r.error, r.st))
            && (n == |syms| && EvalList(ev, code.items[2..], states[n]).Err? ==>
                  var r := EvalList(ev, code.items[2..], states[n]);
                  Eval(env, fuel + 1, code, st) == Err(r.error, r.st))
  {
    var ev, syms := Evaluator(env, fuel), code.items[1].items;
    FormDispatches(env, ev, code, name, Let, st);
    LetDispatches(env, ev, name, code.items[1..], code.items[0].tok.line, st);
    assert code.items[1..][1..] == code.items[2..] && syms[0..] == syms;
    if n == |syms| {
      assert syms[..n] == syms;
      BindsOn(ev, syms, vs, mids, states, 0);
    } else if Binding(syms[n]) && ev(syms[n].items[1], states[n]).Err? {
      BindingStops(ev, syms, n, vs, mids, states, 0);
    }
  }

  // ----- with -----

  /** The body for each item in turn, each time in a new scope that holds the item alone; the scope is
      gone after it. */
  ghost predicate LoopsInTurn<W>(ev: Ev<W>, items: seq<Value>, item: string, code: Ast, vs: seq<Value>,
      outs: seq<State<W>>, states: seq<State<W>>) {
    && |vs| == |outs| == |items| && |states| == |items| + 1
    && forall k :: 0 <= k < |items| ==>
         && ev(code, states[k].(stack := [map[item := items[k]]] + states[k].stack)) == Ok(vs[k], outs[k])
         && states[k + 1] == outs[k].(stack := Outer(outs[k].stack))
  }

  lemma {:induction false} LoopsOn<W>(ev: Ev<W>, items: seq<Value>, item: string, code: Ast, vs: seq<Value>,
      outs: seq<State<W>>, states: seq<State<W>>, k: nat)
    requires LoopsInTurn(ev, items, item, code, vs, outs, states) && k <= |items|
    ensures EvalWithLoop(ev, items[k..], item, code, states[k]) == Ok(vs[k..], states[|items|])
    decreases |items| - k
  {
    if k < |items| {
      LoopsOn(ev, items, item, code, vs, outs, states, k + 1);
      assert items[k..][0] == items[k] && items[k..][1..] == items[k + 1..] && vs[k..] == [vs[k]] + vs[k + 1..];
    }
  }

  lemma {:induction false} LoopStops<W>(ev: Ev<W>, items: seq<Value>, item: string, code: Ast, n: nat,
      vs: seq<Value>, outs: seq<State<W>>, states: seq<State<W>>, k: nat)
    requires n < |items| && LoopsInTurn(ev, items[..n], item, code, vs, outs, states) && k <= n
    requires ev(code, states[n].(stack := [map[item := items[n]]] + states[n].stack)).Err?
    ensures var r := ev(code, states[n].(stack := [map[item := items[n]]] + states[n].stack));
            EvalWithLoop(ev, items[k..], item, code, states[k]) == Err(r.error, r.st)
    decreases n - k
  {
    assert items[k..][0] == items[k] && items[k..][1..] == items[k + 1..];
    if k < n {
      assert items[..n][k] == items[k];
      LoopStops(ev, items, item, code, n, vs, outs, states, k + 1);
    }
  }

  lemma {:induction false} WithDispatches<W>(env: Env<W>, ev: Ev<W>, name: string, args: seq<Ast>, line: Option<int>,
      st: State<W>)
    requires |args| == 3 && args[0].Atom? && args[0].tok.kind == Sym && args[1].Atom? && args[1].tok.kind == Sym
    ensures Dispatch(env, ev, name, With, args, line, st) ==
            EvalWithForm(env, ev, args[0].tok.value, args[1].tok.value, args[2], st)
  {
    DispatchInvokes(env, ev, name, With, args, line, st);
    ThreeUnevaluated(With.Doc(), args);
  }

  ghost predicate WithForm<W>(env: Env<W>, code: Ast, name: string, st: State<W>) {
    && Form(env, code, name, With, st) && |code.items| == 4
    && code.items[1].Atom? && code.items[1].tok.kind == Sym && code.items[2].Atom? && code.items[2].tok.kind == Sym
  }

  /** with is worth the list of what its body is worth for the items; a body that fails ends it there. */
  lemma {:induction false} WithIsEach<W>(env: Env<W>, fuel: nat, code: Ast, name: string, st: State<W>,
      items: seq<Value>, n: nat, vs: seq<Value>, outs: seq<State<W>>, states: seq<State<W>>)
    requires WithForm(env, code, name, st)
    requires var v := Get(env, st.world, st.stack, code.items[1].tok.value);
             v.Some? && env.iterate(v.value) == Some(items)
    requires n <= |items| && states != [] && states[0] == st
    requires LoopsInTurn(Evaluator(env, fuel), items[..n], code.items[2].tok.value, code.items[3], vs, outs, states)
    ensures var item := code.items[2].tok.value;
            if n == |items| then Eval(env, fuel + 1, code, st) == Ok(ListOf(vs), states[n])
            else
              var r := Eval(env, fuel, code.items[3], states[n].(stack := [map[item := items[n]]] + states[n].stack));
              r.Err? ==> Eval(env, fuel + 1, code, st) == Err(r.error, r.st)
  {
    var ev, item, body := Evaluator(env, fuel), code.items[2].tok.value, code.items[3];
    FormDispatches(env, ev, code, name, With, st);
    WithDispatches(env, ev, name, code.items[1..], code.items[0].tok.line, st);
    assert items[0..] == items;
    if n == |items| {
      assert items[..n] == items && vs[0..] == vs;
      LoopsOn(ev, items, item, body, vs, outs, states, 0);
    } else {
      var inner := states[n].(stack := [map[item := items[n]]] + states[n].stack);
      EvaluatorIs(env, fuel, body, inner);
      if ev(body, inner).Err? { LoopStops(ev, items, item, body, n, vs, outs, states, 0); }
    }
  }

  // ----- braces, builtins on values, variables that are called -----

  /** Braces are worth the last of their expressions. */
  lemma {:induction false} EvalIsLast<W>(env: Env<W>, fuel: nat, code: Ast, st: State<W>, vs: seq<Value>,
      states: seq<State<W>>)
    requires Headed(env, code, "eval") && Unbound(env, "eval", st) && "eval" !in env.builtins && |code.items| >= 2
    requires InTurn(Evaluator(env, fuel), code.items[1..], vs, states) && states[0] == st
    ensures var n := |code.items| - 1; Eval(env, fuel + 1, code, st) == Ok(vs[n - 1], states[n])
  {
    WholeListInTurn(Evaluator(env, fuel), code.items[1..], vs, states);
  }

  predicate OnValues(b: Builtin) {
    b.Unary? || b.Binary? || b.AtLeastOne? || b.AnyNumber?
  }

  /** How many arguments a builtin on values takes. */
  predicate Takes(b: Builtin, n: nat)
    requires OnValues(b)
  {
    match b
    case Unary => n == 1
    case Binary => n == 2
    case AtLeastOne => n >= 1
    case _ => true
  }

  function Vals(vs: seq<Value>): seq<Arg> {
    seq(|vs|, k requires 0 <= k < |vs| => Val(vs[k]))
  }

  lemma {:induction false} ConvertsValues<W>(ev: Ev<W>, types: seq<ArgType>, args: seq<Ast>, line: Option<int>,
      vs: seq<Value>, states: seq<State<W>>, i: nat)
    requires types != [] && ArityOk(types, |args|) && i <= |args| && InTurn(ev, args, vs, states)
    requires forall k :: 0 <= k < |args| ==> TypeAt(types, k) == ValueArg || TypeAt(types, k) == Dots
    ensures ConvertArgs(ev, types, args, i, line, states[i]) == Ok(Vals(vs)[i..], states[|args|])
    decreases |args| - i
  {
    if i < |args| {
      ConvertsValues(ev, types, args, line, vs, states, i + 1);
      ConvertStep(ev, types, args, i, line, states[i]);
      assert Vals(vs)[i..] == [Val(vs[i])] + Vals(vs)[i + 1..];
    } else {
      assert Vals(vs)[i..] == [];
    }
  }

  lemma {:induction false} TakesIsArity(b: Builtin, n: nat)
    requires OnValues(b)
    ensures ArityOk(b.Doc(), n) <==> Takes(b, n)
    ensures Takes(b, n) ==> forall k :: 0 <= k < n ==> TypeAt(b.Doc(), k) == ValueArg || TypeAt(b.Doc(), k) == Dots
  {
  }

  lemma {:induction false} InvokesPrimitive<W>(env: Env<W>, ev: Ev<W>, name: string, b: Builtin, vs: seq<Value>,
      st: State<W>)
    requires OnValues(b)
    ensures Invoke(env, ev, name, b, Vals(vs), st) ==
            match env.primitive(name, vs)
            case Some(v) => Ok(v, st)
            case None => Err(OtherException, st)
  {
    assert Values(Vals(vs)) == vs;
  }

  /** A builtin on values gets all its arguments, evaluated from left to right; with a wrong number of
      arguments it is an error before any is evaluated. The head may be the builtin's name or its operator. */
  lemma {:induction false} ValuesInTurn<W>(env: Env<W>, fuel: nat, code: Ast, name: string, b: Builtin, st: State<W>,
      vs: seq<Value>, states: seq<State<W>>)
    requires Form(env, code, name, b, st) && OnValues(b)
    requires InTurn(Evaluator(env, fuel), code.items[1..], vs, states) && states[0] == st
    ensures var n := |code.items| - 1; var v := env.primitive(name, vs);
            && (Takes(b, n) ==> Eval(env, fuel + 1, code, st) ==
                                if v.Some? then Ok(v.value, states[n]) else Err(OtherException, states[n]))
            && (!Takes(b, n) ==> Eval(env, fuel + 1, code, st) == Err(RaiseAt(code.items[0].tok.line), st))
  {
    var ev, args, line := Evaluator(env, fuel), code.items[1..], code.items[0].tok.line;
    FormDispatches(env, ev, code, name, b, st);
    TakesIsArity(b, |args|);
    if Takes(b, |args|) {
      ConvertsValues(ev, b.Doc(), args, line, vs, states, 0);
      assert Vals(vs)[0..] == Vals(vs);
      InvokesPrimitive(env, ev, name, b, vs, states[|args|]);
    }
  }

  /** A variable that holds something to call is called with the arguments, evaluated from left to right,
      whatever builtins and functions have its name. */
  lemma {:induction false} VariableIsCalled<W>(env: Env<W>, fuel: nat, code: Ast, name: string, f: Value, st: State<W>,
      vs: seq<Value>, states: seq<State<W>>)
    requires Headed(env, code, name)
    requires Get(env, st.world, st.stack, name) == Some(f) && f != NoneValue
    requires InTurn(Evaluator(env, fuel), code.items[1..], vs, states) && states[0] == st
    ensures var last := states[|code.items| - 1]; var (v, world) := env.call(f, vs, last.world);
            Eval(env, fuel + 1, code, st) ==
            if v.Some? then Ok(v.value, last.(world := world)) else Err(OtherException, last.(world := world))
  {
    WholeListInTurn(Evaluator(env, fuel), code.items[1..], vs, states);
  }

  /** A call of no variable, builtin or function fails, and so does one with a wrong number of arguments,
      before anything is evaluated. */
  lemma {:induction false} CallFails<W>(env: Env<W>, fuel: nat, code: Ast, name: string, st: State<W>)
    requires Headed(env, code, name) && Unbound(env, name, st) && name !in env.builtins && name != "eval"
    ensures name !in st.funcs ==> Eval(env, fuel + 1, code, st) == Err(OtherException, st)
    ensures name in st.funcs && st.funcs[name].0.Lst? && |st.funcs[name].0.items| != |code.items| - 1 ==>
              Eval(env, fuel + 1, code, st) ==
              Err(if code.items[0].tok.line.Some? then PolicyError else OtherException, st)
  {
  }
  // ----- operators -----

  /** Python 2 rounds the quotient of two integers down. */
  function FloorDiv(x: int, y: int): int
    requires y != 0
  {
    if y > 0 then x / y else -x / -y
  }

  /** What the c_ methods give for two integers. */
  function OfIntegers(name: string, x: int, y: int): Option<Value> {
    if name == "add" then Some(Int(x + y))
    else if name == "sub" then Some(Int(x - y))
    else if name == "mul" then Some(Int(x * y))
    else if name == "div" then if y == 0 then None else Some(Int(FloorDiv(x, y)))
    else if name == "lt" then Some(Bool(x < y))
    else if name == "gt" then Some(Bool(x > y))
    else if name == "lte" then Some(Bool(x <= y))
    else if name == "gte" then Some(Bool(x >= y))
    else if name == "eq" then Some(Bool(x == y))
    else if name == "neq" then Some(Bool(x != y))
    else None
  }

  predicate OnIntegers(name: string) {
    || name == "add" || name == "sub" || name == "mul" || name == "div" || name == "lt" || name == "gt"
    || name == "lte" || name == "gte" || name == "eq" || name == "neq"
  }

  ghost predicate Integers<W>(env: Env<W>) {
    && env.operators == OPERATORS && env.builtins == BUILTINS
    && forall name, x, y :: OnIntegers(name) ==> env.primitive(name, [Int(x), Int(y)]) == OfIntegers(name, x, y)
  }

  lemma {:induction false} BinaryOnIntegers(name: string)
    requires OnIntegers(name)
    ensures name in BUILTINS && BUILTINS[name] == Binary
  {
  }

  lemma {:induction false} Arithmetic()
    ensures "+" in OPERATORS && OPERATORS["+"] == "add" && "-" in OPERATORS && OPERATORS["-"] == "sub"
    ensures "*" in OPERATORS && OPERATORS["*"] == "mul" && "/" in OPERATORS && OPERATORS["/"] == "div"
  {
  }

  lemma {:induction false} Comparisons()
    ensures "<" in OPERATORS && OPERATORS["<"] == "lt" && ">" in OPERATORS && OPERATORS[">"] == "gt"
    ensures "<=" in OPERATORS && OPERATORS["<="] == "lte" && ">=" in OPERATORS && OPERATORS[">="] == "gte"
    ensures "==" in OPERATORS && OPERATORS["=="] == "eq" && "!=" in OPERATORS && OPERATORS["!="] == "neq"
  {
  }

  /** The operands evaluate to integers, one after the other. */
  ghost predicate Operation<W>(env: Env<W>, fuel: nat, code: Ast, op: string, x: int, y: int, st: State<W>,
      states: seq<State<W>>) {
    && code.Lst? && |code.items| == 3 && code.items[0].Atom? && code.items[0].tok.kind == Operator
    && code.items[0].tok.value == op && (op in OPERATORS ==> Unbound(env, OPERATORS[op], st))
    && InTurn(Evaluator(env, fuel), code.items[1..], [Int(x), Int(y)], states) && states[0] == st
  }

  lemma {:induction false} OperationRuns<W>(env: Env<W>, fuel: nat, code: Ast, op: string, name: string, x: int,
      y: int, st: State<W>, states: seq<State<W>>)
    requires Integers(env) && Operation(env, fuel, code, op, x, y, st, states)
    requires op in OPERATORS && OPERATORS[op] == name && OnIntegers(name)
    ensures var v := OfIntegers(name, x, y);
            Eval(env, fuel + 1, code, st) == if v.Some? then Ok(v.value, states[2]) else Err(OtherException, states[2])
  {
    BinaryOnIntegers(name);
    ValuesInTurn(env, fuel, code, name, Binary, st, [Int(x), Int(y)], states);
  }

  /** On integers an operator of the policy language does what it does in Python. */
  lemma {:induction false} OperatorOnIntegers<W>(env: Env<W>, fuel: nat, code: Ast, op: string, x: int, y: int,
      st: State<W>, states: seq<State<W>>)
    requires Integers(env) && Operation(env, fuel, code, op, x, y, st, states)
    ensures var r, last := Eval(env, fuel + 1, code, st), states[2];
            && (op == "+" ==> r == Ok(Int(x + y), last))
            && (op == "-" ==> r == Ok(Int(x - y), last))
            && (op == "*" ==> r == Ok(Int(x * y), last))
            && (op == "/" && y == 0 ==> r == Err(OtherException, last))
            && (op == "/" && y > 0 ==> r.Ok? && r.st == last && r.value.Int? && r.value.i * y <= x < r.value.i * y + y)
            && (op == "/" && y < 0 ==> r.Ok? && r.st == last && r.value.Int? && r.value.i * y >= x > r.value.i * y + y)
            && (op == "<" ==> r == Ok(Bool(x < y), last))
            && (op == ">" ==> r == Ok(Bool(x > y), last))
            && (op == "<=" ==> r == Ok(Bool(x <= y), last))
            && (op == ">=" ==> r == Ok(Bool(x >= y), last))
            && (op == "==" ==> r == Ok(Bool(x == y), last))
            && (op == "!=" ==> r == Ok(Bool(x != y), last))
  {
    Arithmetic();
    Comparisons();
    if op in OPERATORS && OnIntegers(OPERATORS[op]) {
      OperationRuns(env, fuel, code, op, OPERATORS[op], x, y, st, states);
    }
    if y != 0 { FloorDivIs(x, y); }
  }

  lemma {:induction false} FloorDivIs(x: int, y: int)
    requires y != 0
    ensures var q := FloorDiv(x, y); if y > 0 then q * y <= x < q * y + y else q * y >= x > q * y + y
  {
  }
}
