/** What a docstring promises about the arguments of a builtin, stated without the dispatcher's loop: one
    way of taking arguments for each list of declared types, determined by the list, and followed
    by the conversion. */
module Dispatching {
  import opened Options
  import opened Grammars
  import opened PolicySyntax
  import opened Evaluation

  /** The argument types that a docstring names, without the closing dots. */
  function Named(doc: seq<ArgType>): seq<ArgType>
    requires doc != []
  {
    if doc[|doc| - 1] == Dots then doc[..|doc| - 1] else doc
  }

  /** Exactly the named arguments, or at least those if the docstring ends in dots. */
  predicate Accepts(doc: seq<ArgType>, n: nat)
    requires doc != []
  {
    if doc[|doc| - 1] == Dots then n >= |Named(doc)| else n == |Named(doc)|
  }

  /** Argument i has the i-th named type, or the last one; with dots alone every argument is a value. */
  function Promised(doc: seq<ArgType>, i: nat): ArgType
    requires doc != []
  {
    var named := Named(doc);
    if named == [] then ValueArg else if i < |named| then named[i] else named[|named| - 1]
  }

  /** One argument taken as its type says: code unevaluated, a symbol as its name, anything else
      evaluated, once. Only evaluation changes the state. */
  ghost predicate Taken<W>(ev: Ev<W>, t: ArgType, arg: Ast, before: State<W>, a: Arg, after: State<W>) {
    match t
    case CodeArg => a == Code(arg) && after == before
    case SymbolArg => arg.Atom? && arg.tok.kind == Sym && a == Name(arg.tok.value) && after == before
    case _ => a.Val? && ev(arg, before) == Ok(a.value, after)
  }

  /** One argument refused: it is no symbol, or its evaluation failed. */
  ghost predicate Refused<W>(ev: Ev<W>, t: ArgType, arg: Ast, before: State<W>, line: Option<int>, e: Error,
      after: State<W>) {
    match t
    case CodeArg => false
    case SymbolArg => !(arg.Atom? && arg.tok.kind == Sym) && e == RaiseAt(line) && after == before
    case _ => ev(arg, before) == Err(e, after)
  }

  /** The arguments taken so far, from left to right: states[i] is the state argument i is taken in. */
  ghost predicate TakenInOrder<W>(ev: Ev<W>, doc: seq<ArgType>, args: seq<Ast>, taken: seq<Arg>,
      states: seq<State<W>>)
    requires doc != []
  {
    && |taken| <= |args| && |states| == |taken| + 1
    && forall i :: 0 <= i < |taken| ==> Taken(ev, Promised(doc, i), args[i], states[i], taken[i], states[i + 1])
  }

  /** The arguments in front were taken, the next one was refused. */
  ghost predicate Stopped<W>(ev: Ev<W>, doc: seq<ArgType>, args: seq<Ast>, line: Option<int>, taken: seq<Arg>,
      states: seq<State<W>>, e: Error, after: State<W>)
    requires doc != []
  {
    && TakenInOrder(ev, doc, args, taken, states) && |taken| < |args|
    && var k := |taken|; Refused(ev, Promised(doc, k), args[k], states[k], line, e, after)
  }

  /** Taking the arguments ended this way: all of them were taken, or one was refused. */
  ghost predicate Concluded<W>(ev: Ev<W>, doc: seq<ArgType>, args: seq<Ast>, line: Option<int>, taken: seq<Arg>,
      states: seq<State<W>>, r: Res<seq<Arg>, W>)
    requires doc != []
  {
    && TakenInOrder(ev, doc, args, taken, states)
    && (r.Ok? ==> |taken| == |args| && r == Ok(taken, states[|args|]))
    && (r.Err? ==> Stopped(ev, doc, args, line, taken, states, r.error, r.st))
  }

  /** A type list as docstrings have it: dots come last, if at all. */
  ghost predicate DotsLast(doc: seq<ArgType>) {
    doc != [] && forall i :: 0 <= i < |doc| - 1 ==> doc[i] != Dots
  }

  lemma {:induction false} PromisedType(doc: seq<ArgType>, n: nat, i: nat)
    requires DotsLast(doc) && ArityOk(doc, n) && i < n
    ensures var t, u := TypeAt(doc, i), Promised(doc, i); t == u || (t == Dots && u == ValueArg)
  {
  }

  lemma {:induction false} ConversionIsTaking<W>(ev: Ev<W>, doc: seq<ArgType>, args: seq<Ast>, line: Option<int>,
      taken: seq<Arg>, states: seq<State<W>>) returns (taken': seq<Arg>, states': seq<State<W>>)
    requires DotsLast(doc) && ArityOk(doc, |args|) && TakenInOrder(ev, doc, args, taken, states)
    ensures taken <= taken' && states <= states'
    ensures Concluded(ev, doc, args, line, taken', states',
                      After(taken, ConvertArgs(ev, doc, args, |taken|, line, states[|taken|])))
    decreases |args| - |taken|
  {
    var i := |taken|;
    taken', states' := taken, states;
    if i == |args| {
      AfterEnd(taken, states[i]);
    } else {
      var one := ConvertArg(ev, TypeAt(doc, i), args[i], line, states[i]);
      TakeOne(ev, doc, args, line, taken, states);
      ConvertStep(ev, doc, args, i, line, states[i]);
      if one.Ok? {
        taken', states' := ConversionIsTaking(ev, doc, args, line, taken + [one.value], states + [one.st]);
        AfterStep(taken, one.value, ConvertArgs(ev, doc, args, i + 1, line, one.st));
      }
    }
  }

  /** The dispatcher converts the next argument exactly when it can be taken. */
  lemma {:induction false} TakeOne<W>(ev: Ev<W>, doc: seq<ArgType>, args: seq<Ast>, line: Option<int>,
      taken: seq<Arg>, states: seq<State<W>>)
    requires DotsLast(doc) && ArityOk(doc, |args|) && TakenInOrder(ev, doc, args, taken, states) && |taken| < |args|
    ensures var i := |taken|; var one := ConvertArg(ev, TypeAt(doc, i), args[i], line, states[i]);
            if one.Ok? then TakenInOrder(ev, doc, args, taken + [one.value], states + [one.st])
            else Stopped(ev, doc, args, line, taken, states, one.error, one.st)
  {
    PromisedType(doc, |args|, |taken|);
  }

  /** Taking is deterministic: two ways of taking arguments agree as far as both go. */
  lemma {:induction false} TakingIsDetermined<W>(ev: Ev<W>, doc: seq<ArgType>, args: seq<Ast>, taken: seq<Arg>,
      states: seq<State<W>>, taken': seq<Arg>, states': seq<State<W>>, n: nat)
    requires doc != [] && TakenInOrder(ev, doc, args, taken, states) && TakenInOrder(ev, doc, args, taken', states')
    requires states[0] == states'[0] && n <= |taken| && n <= |taken'|
    ensures taken[..n] == taken'[..n] && states[n] == states'[n]
  {
    if n > 0 {
      TakingIsDetermined(ev, doc, args, taken, states, taken', states', n - 1);
      assert Taken(ev, Promised(doc, n - 1), args[n - 1], states[n - 1], taken[n - 1], states[n]);
      assert Taken(ev, Promised(doc, n - 1), args[n - 1], states'[n - 1], taken'[n - 1], states'[n]);
      assert taken[..n] == taken[..n - 1] + [taken[n - 1]] && taken'[..n] == taken'[..n - 1] + [taken'[n - 1]];
    }
  }

  /** No way of taking arguments gets past the one that another way refuses. */
  lemma {:induction false} NoneGoesFurther<W>(ev: Ev<W>, doc: seq<ArgType>, args: seq<Ast>, line: Option<int>,
      taken: seq<Arg>, states: seq<State<W>>, r: Res<seq<Arg>, W>, taken': seq<Arg>, states': seq<State<W>>)
    requires doc != [] && Concluded(ev, doc, args, line, taken, states, r)
    requires TakenInOrder(ev, doc, args, taken', states') && states[0] == states'[0]
    ensures |taken'| <= |taken|
  {
    var n := |taken|;
    if |taken'| > n {
      TakingIsDetermined(ev, doc, args, taken, states, taken', states', n);
      NotBoth(ev, Promised(doc, n), args[n], states[n], taken'[n], states'[n + 1], line, r);
    }
  }

  lemma {:induction false} NotBoth<W>(ev: Ev<W>, t: ArgType, arg: Ast, before: State<W>, a: Arg, after: State<W>,
      line: Option<int>, r: Res<seq<Arg>, W>)
    requires Taken(ev, t, arg, before, a, after)
    ensures r.Err? ==> !Refused(ev, t, arg, before, line, r.error, r.st)
  {
  }

  lemma {:induction false} OneOutcome<W>(ev: Ev<W>, doc: seq<ArgType>, args: seq<Ast>, line: Option<int>,
      taken: seq<Arg>, states: seq<State<W>>, r: Res<seq<Arg>, W>, taken': seq<Arg>, states': seq<State<W>>,
      r': Res<seq<Arg>, W>)
    requires doc != [] && states != [] && states' != [] && states[0] == states'[0]
    requires Concluded(ev, doc, args, line, taken, states, r) && Concluded(ev, doc, args, line, taken', states', r')
    ensures r == r'
  {
    NoneGoesFurther(ev, doc, args, line, taken, states, r, taken', states');
    NoneGoesFurther(ev, doc, args, line, taken', states', r', taken, states);
    TakingIsDetermined(ev, doc, args, taken, states, taken', states', |taken|);
    assert taken[..|taken|] == taken && taken'[..|taken'|] == taken';
  }

  /** Some way of taking the arguments from state st ends in r. */
  ghost predicate Takes<W(!new)>(ev: Ev<W>, doc: seq<ArgType>, args: seq<Ast>, line: Option<int>, st: State<W>,
      r: Res<seq<Arg>, W>)
    requires doc != []
  {
    exists taken, states: seq<State<W>> ::
      states != [] && states[0] == st && Concluded(ev, doc, args, line, taken, states, r)
  }

  /** Under any type list with its dots last, taking the arguments has exactly one outcome, and the
      dispatcher's conversion comes to it; and it accepts exactly the numbers of arguments promised. */
  lemma {:induction false} ConversionFollowsDoc<W(!new)>(ev: Ev<W>, doc: seq<ArgType>, args: seq<Ast>,
      line: Option<int>, st: State<W>)
    requires DotsLast(doc)
    ensures ArityOk(doc, |args|) <==> Accepts(doc, |args|)
    ensures Accepts(doc, |args|) ==>
              forall r :: Takes(ev, doc, args, line, st, r) <==> r == ConvertArgs(ev, doc, args, 0, line, st)
  {
    if Accepts(doc, |args|) {
      var taking := ConvertArgs(ev, doc, args, 0, line, st);
      var taken, states := ConversionIsTaking(ev, doc, args, line, [], [st]);
      AfterStart(taking);
      forall r | Takes(ev, doc, args, line, st, r)
        ensures r == taking
      {
        var taken', states': seq<State<W>> :|
          states' != [] && states'[0] == st && Concluded(ev, doc, args, line, taken', states', r);
        OneOutcome(ev, doc, args, line, taken, states, taking, taken', states', r);
      }
    }
  }

  /** A builtin runs exactly on the arguments taken as its docstring promises. If one was refused,
      its error is the result. A wrong number of arguments is an error before anything is evaluated. */
  lemma {:induction false} DispatchFollowsDoc<W(!new)>(env: Env<W>, ev: Ev<W>, name: string, b: Builtin,
      args: seq<Ast>, line: Option<int>, st: State<W>)
    ensures !Accepts(b.Doc(), |args|) ==> Dispatch(env, ev, name, b, args, line, st) == Err(RaiseAt(line), st)
    ensures Accepts(b.Doc(), |args|) ==> exists r :: Takes(ev, b.Doc(), args, line, st, r)
    ensures Accepts(b.Doc(), |args|) ==> forall r :: Takes(ev, b.Doc(), args, line, st, r) ==>
              Dispatch(env, ev, name, b, args, line, st) ==
              if r.Ok? then Invoke(env, ev, name, b, r.value, r.st) else Err(r.error, r.st)
  {
    ConversionFollowsDoc(ev, b.Doc(), args, line, st);
    if Accepts(b.Doc(), |args|) {
      assert Takes(ev, b.Doc(), args, line, st, ConvertArgs(ev, b.Doc(), args, 0, line, st));
    }
  }
}
