/** The evaluator as it runs: a variable stack and a function table updated in place,
    each method proved against the corresponding specification function. */
module Interpreter {
  import opened Options
  import opened Grammars
  import opened PolicySyntax
  import opened Evaluation
  import ScopeFrame

  datatype Outcome<+T> = Returned(value: T) | Raised(error: Error)

  class VariableStack {
    var stack: seq<Scope>

    constructor ()
      ensures stack == []
    {
      stack := [];
    }

    method EnterScope()
      modifies this
      ensures stack == Push(old(stack))
    {
      stack := [map[]] + stack;
    }

    method LeaveScope()
      modifies this
      ensures stack == if old(stack) == [] then [] else old(stack)[1..]
    {
      stack := if stack == [] then [] else stack[1..];
    }

    method Lookup<W>(env: Env<W>, world: W, name: string) returns (r: Option<Value>)
      ensures r == Get(env, world, stack, name)
    {
      var obj, member := Base(name), Member(name);
      var i := 0;
      while i < |stack|
        invariant i <= |stack|
        invariant Get(env, world, stack, name) == Get(env, world, stack[i..], name)
      {
        assert stack[i..][1..] == stack[i + 1..];
        if obj in stack[i] {
          match member {
            case None =>
              return Some(stack[i][obj]);
            case Some(a) =>
              var v := env.attribute(world, stack[i][obj], a);
              if v.Some? {
                return v;
              }
          }
        }
        i := i + 1;
      }
      return None;
    }

    /** Bind in the innermost scope; a name bound there already keeps its value. */
    method Allocate(name: string, value: Value) returns (v: Value)
      requires stack != []
      modifies this
      ensures stack == Alloc(old(stack), name, value) && name in stack[0] && v == stack[0][name]
    {
      if name !in stack[0] {
        stack := stack[0 := stack[0][name := value]];
        assert stack == [old(stack)[0][name := value]] + old(stack)[1..];
      }
      v := stack[0][name];
    }

    /** Assign in the innermost scope that has the name. */
    method SetExisting(name: string, value: Value) returns (found: bool)
      modifies this
      ensures found <==> Assign(old(stack), name, value).Some?
      ensures stack == if found then Assign(old(stack), name, value).value else old(stack)
    {
      var i := 0;
      assert stack[..0] == [] && stack[0..] == stack;
      AboveNothing(Assign(stack, name, value));
      while i < |stack|
        invariant i <= |stack| && stack == old(stack)
        invariant Assign(stack, name, value) == Above(stack[..i], Assign(stack[i..], name, value))
      {
        AssignStep(stack, i, name, value);
        if name in stack[i] {
          stack := stack[i := stack[i][name := value]];
          return true;
        }
        i := i + 1;
      }
      return false;
    }
  }

  function Above(front: seq<Scope>, r: Option<seq<Scope>>): Option<seq<Scope>> {
    if r.None? then None else Some(front + r.value)
  }

  lemma {:induction false} AboveNothing(r: Option<seq<Scope>>)
    ensures Above([], r) == r
  {
    if r.Some? { assert [] + r.value == r.value; }
  }

  lemma {:induction false} AssignStep(stack: seq<Scope>, i: nat, name: string, v: Value)
    requires i < |stack|
    ensures Above(stack[..i], Assign(stack[i..], name, v)) ==
            if name in stack[i] then Some(stack[i := stack[i][name := v]])
            else Above(stack[..i + 1], Assign(stack[i + 1..], name, v))
  {
    assert stack[i..][1..] == stack[i + 1..];
    if name in stack[i] {
      assert stack[..i] + ([stack[i][name := v]] + stack[i + 1..]) == stack[i := stack[i][name := v]];
    } else if rest :| Assign(stack[i + 1..], name, v) == Some(rest) {
      assert stack[..i] + ([stack[i]] + rest) == stack[..i + 1] + rest;
    }
  }

  // ----- a loop that has gone part of the way -----

  /** Popping the declared types keeps the type at hand the declared one. */
  lemma {:induction false} TypePopped(doc: seq<ArgType>, i: nat, types: seq<ArgType>, n: nat)
    requires doc != [] && i < n && ArityOk(doc, n) && forall k :: 0 <= k < |doc| - 1 ==> doc[k] != Dots
    requires types == Left(doc, i) && types != []
    ensures types[0] != Dots ==> TypeAt(doc, i) == types[0] && types[1..] == Left(doc, i + 1)
    ensures types[0] == Dots ==>
              TypeAt(doc, i) == (if i == 0 then Dots else TypeAt(doc, i - 1)) && types == Left(doc, i + 1)
  {
  }

  /** The types left after i arguments: the dots are never popped. */
  function Left(doc: seq<ArgType>, i: nat): seq<ArgType>
    requires doc != []
  {
    if doc[|doc| - 1] == Dots && i >= |doc| - 1 then [Dots]
    else if i <= |doc| then doc[i..] else []
  }

  lemma {:induction false} NewScope(stack: seq<Scope>, name: string, v: Value)
    ensures Alloc(Push(stack), name, v) == [map[name := v]] + stack
  {
    assert Push(stack)[1..] == stack;
  }

  lemma {:induction false} WithStep<W>(ev: Ev<W>, items: seq<Value>, i: nat, name: string, code: Ast, st: State<W>)
    requires i < |items|
    ensures EvalWithLoop(ev, items[i..], name, code, st) ==
            match ev(code, st.(stack := [map[name := items[i]]] + st.stack))
            case Err(e, st1) => Err(e, st1)
            case Ok(v, st1) => After([v], EvalWithLoop(ev, items[i + 1..], name, code, Leave(v, st1).st))
  {
    assert items[i..][1..] == items[i + 1..];
  }

  lemma {:induction false} ListStep<W>(ev: Ev<W>, items: seq<Ast>, i: nat, st: State<W>)
    requires i < |items|
    ensures EvalList(ev, items[i..], st) ==
            match ev(items[i], st)
            case Err(e, st1) => Err(e, st1)
            case Ok(v, st1) => After([v], EvalList(ev, items[i + 1..], st1))
  {
    assert items[i..][1..] == items[i + 1..];
  }

  class PolicyEvaluator<W(!new)> {
    const env: Env<W>
    const vars: VariableStack
    var funcs: Funcs
    var world: W

    /** A fresh evaluator knows the external functions, in its outermost scope. */
    constructor (env: Env<W>, externs: Scope, world: W)
      ensures this.env == env && fresh(vars)
      ensures St() == State([externs], map[], world)
    {
      this.env, this.world, this.funcs := env, world, map[];
      vars := new VariableStack();
      new;
      vars.EnterScope();
      vars.stack := [externs];
    }

    ghost function St(): State<W>
      reads this, vars
    {
      State(vars.stack, funcs, world)
    }

    /** The method ended the way the specification says, in the state it says. */
    ghost predicate Ends<T>(r: Outcome<T>, spec: Res<T, W>)
      reads this, vars
    {
      St() == spec.st &&
      match spec
      case Ok(v, _) => r == Returned(v)
      case Err(e, _) => r == Raised(e)
    }

    method EvalAtom(tok: Token) returns (r: Outcome<Value>)
      ensures Ends(r, EvalToken(env, tok, St()))
    {
      match tok.kind {
        case Number =>
          var v := env.number(tok);
          return if v.Some? then Returned(v.value) else Raised(OtherException);
        case Str =>
          return Returned(Text(Unquote(tok.value)));
        case Sym =>
          if tok.value == "nil" {
            return Returned(NoneValue);
          }
          var v := vars.Lookup(env, world, tok.value);
          return if v.Some? then Returned(v.value) else Raised(RaiseAt(tok.line));
        case _ =>
          return Raised(RaiseAt(tok.line));
      }
    }

    // map(self.eval, items)
    method EvalItems(items: seq<Ast>, fuel: nat) returns (r: Outcome<seq<Value>>)
      modifies this, vars
      ensures Ends(r, EvalList(Evaluator(env, fuel), items, old(St())))
      decreases fuel, 1
    {
      ghost var ev := Evaluator(env, fuel);
      var done: seq<Value> := [];
      var i := 0;
      assert items[0..] == items;
      AfterStart(EvalList(ev, items, St()));
      while i < |items|
        invariant i <= |items|
        invariant EvalList(ev, items, old(St())) == After(done, EvalList(ev, items[i..], St()))
      {
        ListStep(ev, items, i, St());
        var v := Evaluate(items[i], fuel);
        if v.Raised? {
          return Raised(v.error);
        }
        AfterStep(done, v.value, EvalList(ev, items[i + 1..], St()));
        done := done + [v.value];
        i := i + 1;
      }
      AfterEnd(done, St());
      return Returned(done);
    }

    /** eval */
    method Evaluate(code: Ast, fuel: nat) returns (r: Outcome<Value>)
      modifies this, vars
      ensures Ends(r, Eval(env, fuel, code, old(St())))
      decreases fuel, 0
    {
      if fuel == 0 {
        return Raised(NoFuel);
      }
      match code {
        case Atom(tok) =>
          r := EvalAtom(tok);
        case Lst(items) =>
          if items == [] {
            return Raised(OtherException);
          }
          if items[0].Lst? {
            return Raised(PolicyError);
          }
          var node := items[0].tok;
          var name := HeadName(env, node);
          if name.None? {
            return Raised(HeadError(node));
          }
          r := Apply(name.value, items[1..], node.line, fuel - 1);
      }
    }

    // a variable that can be called, a builtin, or a user function, in this order
    method Apply(name: string, args: seq<Ast>, line: Option<int>, fuel: nat) returns (r: Outcome<Value>)
      modifies this, vars
      ensures Ends(r, EvalForm(env, Evaluator(env, fuel), name, args, line, old(St())))
      decreases fuel, 5
    {
      var f := vars.Lookup(env, world, name);
      if f.Some? && f.value != NoneValue {
        var vs := EvalItems(args, fuel);
        if vs.Raised? {
          return Raised(vs.error);
        }
        var (v, world') := env.call(f.value, vs.value, world);
        world := world';
        r := if v.Some? then Returned(v.value) else Raised(OtherException);
      } else if name in env.builtins {
        r := DispatchCall(name, env.builtins[name], args, line, fuel);
      } else {
        r := CallDefault(name, args, line, fuel);
      }
    }

    method CallDefault(name: string, args: seq<Ast>, line: Option<int>, fuel: nat) returns (r: Outcome<Value>)
      modifies this, vars
      ensures Ends(r, Default(Evaluator(env, fuel), name, args, line, old(St())))
      decreases fuel, 4
    {
      if name == "eval" {
        var vs := EvalItems(args, fuel);
        if vs.Raised? {
          return Raised(vs.error);
        }
        return if vs.value == [] then Raised(OtherException) else Returned(vs.value[|vs.value| - 1]);
      }
      if name !in funcs {
        return Raised(OtherException);
      }
      var (params, body) := funcs[name];
      if !params.Lst? {
        return Raised(OtherException);
      }
      if |params.items| != |args| {
        return Raised(RaiseAt(line));
      }
      var scope: seq<Ast> := [];
      var i := 0;
      while i < |params.items|
        invariant i <= |params.items| && scope == Pairs(params.items, args)[..i]
      {
        scope := scope + [Lst([params.items[i], args[i]])];
        i := i + 1;
      }
      assert scope == Pairs(params.items, args);
      ScopeFrame.EvaluatorIs(env, fuel, LetForm(params.items, args, body), St());
      r := Evaluate(Lst([Atom(LET_TOKEN), Lst(scope), body]), fuel);
    }

    // _dispatch: check the number of arguments against the docstring, convert them by its types
    method DispatchCall(name: string, b: Builtin, args: seq<Ast>, line: Option<int>, fuel: nat)
        returns (r: Outcome<Value>)
      modifies this, vars
      ensures Ends(r, Dispatch(env, Evaluator(env, fuel), name, b, args, line, old(St())))
      decreases fuel, 4
    {
      var types := b.Doc();
      var last := types[|types| - 1];
      if |types| != |args| && last != Dots {
        return Raised(RaiseAt(line));
      } else if last == Dots && |types| > |args| + 1 {
        return Raised(RaiseAt(line));
      }
      var converted := Convert(types, args, line, fuel);
      if converted.Raised? {
        return Raised(converted.error);
      }
      r := InvokeBuiltin(name, b, converted.value, fuel);
    }

    // The types are popped off one by one; the last named one is kept for the rest.
    method Convert(doc: seq<ArgType>, args: seq<Ast>, line: Option<int>, fuel: nat) returns (r: Outcome<seq<Arg>>)
      requires doc != [] && ArityOk(doc, |args|) && forall k :: 0 <= k < |doc| - 1 ==> doc[k] != Dots
      modifies this, vars
      ensures Ends(r, ConvertArgs(Evaluator(env, fuel), doc, args, 0, line, old(St())))
      decreases fuel, 2
    {
      ghost var ev := Evaluator(env, fuel);
      var types := doc;
      var ty := doc[0];
      var converted: seq<Arg> := [];
      var i := 0;
      AfterStart(ConvertArgs(ev, doc, args, 0, line, St()));
      while types != [] && i < |args|
        invariant i <= |args| && types == Left(doc, i)
        invariant i > 0 ==> ty == TypeAt(doc, i - 1)
        invariant ConvertArgs(ev, doc, args, 0, line, old(St())) ==
                  After(converted, ConvertArgs(ev, doc, args, i, line, St()))
        decreases |args| - i
      {
        types, ty := PopType(doc, types, ty, i, |args|);
        ConvertStep(ev, doc, args, i, line, St());
        var arg := ConvertOne(ty, args[i], line, fuel);
        if arg.Raised? {
          return Raised(arg.error);
        }
        AfterStep(converted, arg.value, ConvertArgs(ev, doc, args, i + 1, line, St()));
        converted := converted + [arg.value];
        i := i + 1;
      }
      AfterEnd(converted, St());
      return Returned(converted);
    }

    // the type of the next argument; the dots stay, and stand for the type before them
    method PopType(ghost doc: seq<ArgType>, types: seq<ArgType>, ty: ArgType, i: nat, ghost n: nat)
        returns (types': seq<ArgType>, ty': ArgType)
      requires doc != [] && i < n && ArityOk(doc, n) && forall k :: 0 <= k < |doc| - 1 ==> doc[k] != Dots
      requires types == Left(doc, i) && types != [] && (i > 0 ==> ty == TypeAt(doc, i - 1))
      ensures types' == Left(doc, i + 1) && ty' == TypeAt(doc, i)
    {
      TypePopped(doc, i, types, n);
      types', ty' := types, ty;
      if types[0] != Dots {
        ty' := types[0];
        types' := types[1..];
      } else if i == 0 {
        ty' := types[0];
      }
    }

    method ConvertOne(ty: ArgType, arg: Ast, line: Option<int>, fuel: nat) returns (r: Outcome<Arg>)
      modifies this, vars
      ensures Ends(r, ConvertArg(Evaluator(env, fuel), ty, arg, line, old(St())))
      decreases fuel, 1
    {
      match ty {
        case CodeArg =>
          r := Returned(Code(arg));
        case SymbolArg =>
          r := if arg.Atom? && arg.tok.kind == Sym then Returned(Name(arg.tok.value)) else Raised(RaiseAt(line));
        case _ =>
          var v := Evaluate(arg, fuel);
          r := if v.Returned? then Returned(Val(v.value)) else Raised(v.error);
      }
    }

    method InvokeBuiltin(name: string, b: Builtin, args: seq<Arg>, fuel: nat) returns (r: Outcome<Value>)
      modifies this, vars
      ensures Ends(r, Invoke(env, Evaluator(env, fuel), name, b, args, old(St())))
      decreases fuel, 3
    {
      match b {
        case Def =>
          if |args| == 3 && args[0].Name? && args[1].Code? && args[2].Code? {
            funcs := funcs[args[0].name := (args[1].code, args[2].code)];
            return Returned(Text(args[0].name));
          }
        case Set =>
          if |args| == 2 && args[0].Name? && args[1].Val? {
            var found := vars.SetExisting(args[0].name, args[1].value);
            return if found then Returned(args[1].value) else Raised(PolicyError);
          }
        case Defvar =>
          if |args| == 2 && args[0].Name? && args[1].Val? && vars.stack != [] {
            var v := vars.Allocate(args[0].name, args[1].value);
            return Returned(v);
          }
        case Let =>
          if |args| >= 1 && args[0].Code? {
            r := CLet(args[0].code, Codes(args[1..]), fuel);
            return;
          }
        case With =>
          if |args| == 3 && args[0].Name? && args[1].Name? && args[2].Code? {
            r := CWith(args[0].name, args[1].name, args[2].code, fuel);
            return;
          }
        case If =>
          if |args| == 3 && args[0].Val? && args[1].Code? && args[2].Code? {
            if env.truthy(args[0].value) {
              r := Evaluate(args[1].code, fuel);
            } else {
              r := Evaluate(args[2].code, fuel);
            }
            return;
          }
        case _ =>
          var v := env.primitive(name, Values(args));
          return if v.Some? then Returned(v.value) else Raised(OtherException);
      }
      return Raised(OtherException);
    }

    method CLet(syms: Ast, code: seq<Ast>, fuel: nat) returns (r: Outcome<Value>)
      modifies this, vars
      ensures Ends(r, EvalLet(Evaluator(env, fuel), syms, code, old(St())))
      decreases fuel, 2
    {
      if !syms.Lst? {
        return Raised(PolicyError);
      }
      vars.EnterScope();
      var bound := BindSymbols(syms.items, fuel);
      if bound.Raised? {
        return Raised(bound.error);
      }
      var vs := EvalItems(code, fuel);
      if vs.Raised? {
        return Raised(vs.error);
      }
      if vs.value == [] {
        return Raised(OtherException);
      }
      vars.LeaveScope();
      return Returned(vs.value[|vs.value| - 1]);
    }

    method BindSymbols(syms: seq<Ast>, fuel: nat) returns (r: Outcome<()>)
      modifies this, vars
      ensures Ends(r, BindAll(Evaluator(env, fuel), syms, old(St())))
      decreases fuel, 1
    {
      ghost var ev := Evaluator(env, fuel);
      var i := 0;
      assert syms[0..] == syms;
      while i < |syms|
        invariant i <= |syms|
        invariant BindAll(ev, syms, old(St())) == BindAll(ev, syms[i..], St())
      {
        assert syms[i..][1..] == syms[i + 1..];
        var sym := syms[i];
        if !sym.Lst? || |sym.items| != 2 {
          return Raised(PolicyError);
        }
        var name, value := sym.items[0], sym.items[1];
        if !name.Atom? {
          return Raised(OtherException);
        }
        if name.tok.kind != Sym {
          return Raised(PolicyError);
        }
        var v := Evaluate(value, fuel);
        if v.Raised? {
          return Raised(v.error);
        }
        if vars.stack == [] {
          return Raised(OtherException);
        }
        var _ := vars.Allocate(name.tok.value, v.value);
        i := i + 1;
      }
      return Returned(());
    }

    method CWith(iterable: string, iterator_: string, code: Ast, fuel: nat) returns (r: Outcome<Value>)
      modifies this, vars
      ensures Ends(r, EvalWithForm(env, Evaluator(env, fuel), iterable, iterator_, code, old(St())))
      decreases fuel, 2
    {
      ghost var ev := Evaluator(env, fuel);
      var list := vars.Lookup(env, world, iterable);
      if list.None? || env.iterate(list.value).None? {
        return Raised(OtherException);
      }
      var items := env.iterate(list.value).value;
      var result: seq<Value> := [];
      var i := 0;
      assert items[0..] == items;
      AfterStart(EvalWithLoop(ev, items, iterator_, code, St()));
      while i < |items|
        invariant i <= |items|
        invariant EvalWithLoop(ev, items, iterator_, code, old(St())) ==
                  After(result, EvalWithLoop(ev, items[i..], iterator_, code, St()))
      {
        WithStep(ev, items, i, iterator_, code, St());
        var v := WithItem(iterator_, items[i], code, fuel);
        if v.Raised? {
          return Raised(v.error);
        }
        AfterStep(result, v.value, EvalWithLoop(ev, items[i + 1..], iterator_, code, St()));
        result := result + [v.value];
        i := i + 1;
      }
      AfterEnd(result, St());
      return Returned(ListOf(result));
    }

    // one turn of a with loop, in a scope of its own
    method WithItem(name: string, item: Value, code: Ast, fuel: nat) returns (r: Outcome<Value>)
      modifies this, vars
      ensures var st := old(St());
              match Evaluator(env, fuel)(code, st.(stack := [map[name := item]] + st.stack))
              case Err(e, st1) => Ends(r, Err(e, st1))
              case Ok(v, st1) => Ends(r, Leave(v, st1))
      decreases fuel, 1
    {
      NewScope(vars.stack, name, item);
      vars.EnterScope();
      var _ := vars.Allocate(name, item);
      r := Evaluate(code, fuel);
      if r.Returned? {
        vars.LeaveScope();
      }
    }
  }
}
