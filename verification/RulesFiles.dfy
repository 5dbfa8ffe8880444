/** The shipped rules files, evaluated: what their code, run by the evaluator on a host and its guests,
    makes of the host-free number and the targets. */
module RulesFiles {
  import opened Options
  import opened Grammars
  import opened PolicySyntax
  import opened Evaluation
  import opened ScopeFrame
  import opened CallByValue
  import opened EvalLaws
  import PolicyReader
  import Policies
  import Ledger
  import IBalloon
  import PolicyStore

  // ----- the code of such a file -----

  /** A function of the file: it calls one method of the guest it is given. */
  datatype Step = Step(name: string, entry: string, args: seq<string>, call: real -> Policies.Call)

  function Word(name: string): Ast {
    Atom(Token(Sym, name, "", Some(1)))
  }

  function Words(names: seq<string>): seq<Ast> {
    seq(|names|, k requires 0 <= k < |names| => Word(names[k]))
  }

  /** (guest.Dd_policy6 host_mem_pressure guest) */
  function MethodCall(p: Step): Ast {
    Lst([Word("guest." + p.entry)] + Words(p.args))
  }

  function Assignment(name: string, value: Ast): Ast {
    Lst([Word("defvar"), Word(name), value])
  }

  /** { (defvar tmp ...) } */
  function Body(p: Step): Ast {
    Lst([Atom(EVAL_TOKEN), Assignment("tmp", MethodCall(p))])
  }

  function Definition(p: Step): Ast {
    Lst([Word("def"), Word(p.name), Lst([Word("guest")]), Body(p)])
  }

  function Application(p: Step): Ast {
    Lst([Word(p.name), Word("guest")])
  }

  function Loop(p: Step): Ast {
    Lst([Word("with"), Word("Guests"), Word("guest"), Application(p)])
  }

  const COMMAND := Atom(Token(Str, "\"get_hostpressure\"", "", Some(1)))

  /** (Host.Dd_command "get_hostpressure") */
  function HostCall(entry: string): Ast {
    Lst([Word("Host." + entry), COMMAND])
  }

  const READ_PRESSURE := Assignment("host_mem_pressure", HostCall("Dd_command"))

  /** The step passes the pressure on. */
  predicate Uses(p: Step) {
    "host_mem_pressure" in p.args
  }

  // ----- what the evaluator is given -----

  type World = Ledger.Progress

  /** The forms the files use are those of the evaluator's table. */
  ghost predicate Forms(env: Env<World>) {
    && "def" in env.builtins && env.builtins["def"] == Def
    && "defvar" in env.builtins && env.builtins["defvar"] == Defvar
    && "with" in env.builtins && env.builtins["with"] == With
    && "let" in env.builtins && env.builtins["let"] == Let
    && "eval" !in env.builtins
  }

  lemma {:induction false} TableHasForms(env: Env<World>)
    requires env.builtins == BUILTINS
    ensures Forms(env)
  {
    PolicyBuiltins();
    DefiningForms();
    assert "with" in BUILTINS && BUILTINS["with"] == With;
  }

  lemma {:induction false} DefiningForms()
    ensures "def" in BUILTINS && BUILTINS["def"] == Def && "defvar" in BUILTINS && BUILTINS["defvar"] == Defvar
  {
  }

  function ArgValue(name: string, guest: Value, pressure: real): Value {
    if name == "guest" then guest else Float(pressure)
  }

  function ArgValues(names: seq<string>, guest: Value, pressure: real): seq<Value> {
    seq(|names|, k requires 0 <= k < |names| => ArgValue(names[k], guest, pressure))
  }

  /** Calling the step's method of guest number i does what the policy decides; it raises exactly if
      the policy fails. */
  ghost predicate Answers(env: Env<World>, p: Step, i: nat, guest: Value, v: Policies.View, pressure: real) {
    forall w: World {:trigger env.attribute(w, guest, p.entry)} :: w.ok && i < |w.targets| ==>
      var m := env.attribute(w, guest, p.entry);
      && m.Some? && m.value != NoneValue
      && var (r, w') := env.call(m.value, ArgValues(p.args, guest, pressure), w);
         w' == Ledger.Take(Ledger.Turn(i, p.call(pressure)), v, w) && (r.Some? <==> w'.ok)
  }

  const LOCALS := {"guest", "tmp", "host_mem_pressure"}

  ghost predicate StepOk(env: Env<World>, p: Step) {
    && Plainly(p.name) && p.name !in env.builtins && p.name != "eval" && p.name !in LOCALS
    && Plainly(p.entry)
    && forall k :: 0 <= k < |p.args| ==> p.args[k] == "guest" || p.args[k] == "host_mem_pressure"
  }

  // ----- how a result relates to the ledger -----

  /** The world has become w; what has not failed has left everything else alone. */
  ghost predicate Ends<T>(r: Res<T, World>, st: State<World>, w: World) {
    r.st.world == w && (r.Ok? <==> w.ok) && (r.Ok? ==> r.st == st.(world := w))
  }

  // ----- one form at a time -----

  /** A form of the table, its name bound by no variable. */
  lemma {:induction false} WordDispatches(env: Env<World>, ev: Ev<World>, name: string, args: seq<Ast>,
      st: State<World>)
    requires Plainly(name) && Nowhere(name, st.stack) && name in env.builtins
    ensures EvalLayer(env, ev, Lst([Word(name)] + args), st) ==
            Dispatch(env, ev, name, env.builtins[name], args, Some(1), st)
  {
    NowhereUnbound(env, name, st);
    assert ([Word(name)] + args)[1..] == args;
  }

  lemma {:induction false} DefinitionRuns(env: Env<World>, ev: Ev<World>, p: Step, st: State<World>)
    requires Forms(env) && Nowhere("def", st.stack)
    ensures EvalLayer(env, ev, Definition(p), st) ==
            Ok(Text(p.name), st.(funcs := st.funcs[p.name := (Lst([Word("guest")]), Body(p))]))
  {
    var args := [Word(p.name), Lst([Word("guest")]), Body(p)];
    assert Definition(p) == Lst([Word("def")] + args);
    WordDispatches(env, ev, "def", args, st);
    DefDispatches(env, ev, "def", args, Some(1), st);
  }

  lemma {:induction false} LoopRuns(env: Env<World>, ev: Ev<World>, p: Step, st: State<World>)
    requires Forms(env) && Nowhere("with", st.stack)
    ensures EvalLayer(env, ev, Loop(p), st) == EvalWithForm(env, ev, "Guests", "guest", Application(p), st)
  {
    var args := [Word("Guests"), Word("guest"), Application(p)];
    assert Loop(p) == Lst([Word("with")] + args);
    WordDispatches(env, ev, "with", args, st);
    WithDispatches(env, ev, "with", args, Some(1), st);
  }

  /** Assigning what an expression gives. */
  function Assigned(name: string, r: Res<Value, World>): Res<Value, World> {
    match r
    case Err(e, st) => Err(e, st)
    case Ok(v, st) =>
      if st.stack == [] then Err(OtherException, st)
      else var stack := Alloc(st.stack, name, v); Ok(stack[0][name], st.(stack := stack))
  }

  lemma {:induction false} AssignmentRuns(env: Env<World>, ev: Ev<World>, name: string, value: Ast, st: State<World>)
    requires Forms(env) && Nowhere("defvar", st.stack)
    ensures EvalLayer(env, ev, Assignment(name, value), st) == Assigned(name, ev(value, st))
  {
    var args := [Word(name), value];
    assert Assignment(name, value) == Lst([Word("defvar")] + args);
    WordDispatches(env, ev, "defvar", args, st);
    DefvarDispatches(env, ev, "defvar", args, Some(1), st);
  }

  /** Braces evaluate what is between them. */
  lemma {:induction false} BracesRun(env: Env<World>, ev: Ev<World>, code: Ast, st: State<World>)
    requires Forms(env) && Nowhere("eval", st.stack)
    ensures EvalLayer(env, ev, Lst([Atom(EVAL_TOKEN), code]), st) == ev(code, st)
  {
    NowhereUnbound(env, "eval", st);
    var form := Lst([Atom(EVAL_TOKEN), code]);
    assert form.items[1..] == [code];
    assert EvalLayer(env, ev, form, st) == Default(ev, "eval", [code], None, st);
    ListOfOne(ev, code, st);
  }

  // ----- a step's function on one guest -----

  /** Inside the function: its parameter in the innermost scope, the file's variables further out. */
  ghost predicate Inside(stack: seq<Scope>, guest: Value, pressure: real, p: Step) {
    && |stack| == 3 && "guest" in stack[0] && stack[0]["guest"] == guest
    && "host_mem_pressure" !in stack[0] && "host_mem_pressure" !in stack[1]
    && (Uses(p) ==> Holds(stack[2], pressure))
  }

  ghost predicate Holds(scope: Scope, pressure: real) {
    "host_mem_pressure" in scope && scope["host_mem_pressure"] == Float(pressure)
  }

  lemma {:induction false} ArgumentsKnown(env: Env<World>, p: Step, guest: Value, pressure: real, st: State<World>)
    requires StepOk(env, p) && Inside(st.stack, guest, pressure, p)
    ensures AllKnown(env, st, Words(p.args))
    ensures CallerValues(env, st, Words(p.args)) == ArgValues(p.args, guest, pressure)
  {
    forall k | 0 <= k < |p.args|
      ensures Known(env, st, Words(p.args)[k])
      ensures Get(env, st.world, st.stack, p.args[k]) == Some(ArgValue(p.args[k], guest, pressure))
    {
      if p.args[k] == "guest" {
        GuestKnown(env, guest, pressure, p, st);
      } else {
        PressureKnown(env, guest, pressure, p, st);
      }
    }
  }

  lemma {:induction false} GuestKnown(env: Env<World>, guest: Value, pressure: real, p: Step, st: State<World>)
    requires Inside(st.stack, guest, pressure, p)
    ensures Base("guest") == "guest" && Member("guest") == None
    ensures Get(env, st.world, st.stack, "guest") == Some(guest)
  {
    NoDot("guest");
  }

  lemma {:induction false} PressureKnown(env: Env<World>, guest: Value, pressure: real, p: Step, st: State<World>)
    requires Inside(st.stack, guest, pressure, p) && Uses(p)
    ensures Base("host_mem_pressure") == "host_mem_pressure" && Member("host_mem_pressure") == None
    ensures Get(env, st.world, st.stack, "host_mem_pressure") == Some(Float(pressure))
  {
    NoDot("host_mem_pressure");
    var outer := st.stack[2..];
    assert outer[0] == st.stack[2] && st.stack[1..][1..] == outer && st.stack[1..][0] == st.stack[1];
    assert Get(env, st.world, outer, "host_mem_pressure") == Some(Float(pressure));
    assert Get(env, st.world, st.stack[1..], "host_mem_pressure") == Some(Float(pressure));
  }

  lemma {:induction false} MethodFound(env: Env<World>, p: Step, guest: Value, st: State<World>)
    requires Plainly(p.entry) && st.stack != [] && "guest" in st.stack[0] && st.stack[0]["guest"] == guest
    requires env.attribute(st.world, guest, p.entry).Some?
    ensures Get(env, st.world, st.stack, "guest." + p.entry) == env.attribute(st.world, guest, p.entry)
  {
    Dotted("guest", p.entry);
    NoDot(p.entry);
    assert "guest" + "." == "guest.";
  }

  lemma {:induction false} MethodCallRuns(env: Env<World>, ev: Ev<World>, p: Step, i: nat, guest: Value,
      v: Policies.View, pressure: real, st: State<World>)
    requires ReadsSymbols(env, ev) && StepOk(env, p) && Answers(env, p, i, guest, v, pressure)
    requires Inside(st.stack, guest, pressure, p) && st.world.ok && i < |st.world.targets|
    ensures Ends(EvalLayer(env, ev, MethodCall(p), st), st,
                 Ledger.Take(Ledger.Turn(i, p.call(pressure)), v, st.world))
  {
    assert env.attribute(st.world, guest, p.entry).Some?;
    MethodFound(env, p, guest, st);
    var args := Words(p.args);
    assert ([Word("guest." + p.entry)] + args)[1..] == args;
    ArgumentsKnown(env, p, guest, pressure, st);
    KnownList(env, ev, st, args, 0);
    assert args[0..] == args && CallerValues(env, st, args)[0..] == CallerValues(env, st, args);
  }

  /** The world has become w; what has not failed has left one more scope than there was in st. */
  ghost predicate BodyEnds(r: Res<Value, World>, st: State<World>, w: World) {
    && r.st.world == w && (r.Ok? <==> w.ok)
    && (r.Ok? ==> r.st.funcs == st.funcs && r.st.stack != [] && r.st.stack[1..] == st.stack)
  }

  /** The function's body. */
  lemma {:induction false} BodyRuns(env: Env<World>, fuel: nat, p: Step, i: nat, guest: Value, v: Policies.View,
      pressure: real, st: State<World>)
    requires fuel > 4 && Forms(env) && StepOk(env, p) && Answers(env, p, i, guest, v, pressure)
    requires Inside(st.stack, guest, pressure, p) && Nowhere("eval", st.stack) && Nowhere("defvar", st.stack)
    requires st.world.ok && i < |st.world.targets|
    ensures BodyEnds(Evaluator(env, fuel)(Body(p), st), st.(stack := st.stack[1..]),
                     Ledger.Take(Ledger.Turn(i, p.call(pressure)), v, st.world))
  {
    var call, assignment := MethodCall(p), Assignment("tmp", MethodCall(p));
    EvaluatorIs(env, fuel, Body(p), st);
    BracesRun(env, Evaluator(env, fuel - 1), assignment, st);
    EvaluatorIs(env, fuel - 1, assignment, st);
    AssignmentRuns(env, Evaluator(env, fuel - 2), "tmp", call, st);
    EvaluatorIs(env, fuel - 2, call, st);
    EvaluatorReads(env, fuel - 3);
    MethodCallRuns(env, Evaluator(env, fuel - 3), p, i, guest, v, pressure, st);
  }

  /** The scopes around an application inside a loop over the guests. */
  ghost predicate Around(stack: seq<Scope>, guest: Value, pressure: real, p: Step) {
    && |stack| == 2 && stack[0] == map["guest" := guest]
    && (Uses(p) ==> Holds(stack[1], pressure)) && Unnamed(stack[1], p)
  }

  /** No variable has the name of a form or of the step's function. */
  ghost predicate Unnamed(scope: Scope, p: Step) {
    "defvar" !in scope && "with" !in scope && "let" !in scope && "eval" !in scope && p.name !in scope
  }

  /** Binding the function's parameter. */
  lemma {:induction false} ParameterBound(env: Env<World>, ev: Ev<World>, guest: Value, pressure: real, p: Step,
      st: State<World>)
    requires ReadsSymbols(env, ev) && Around(st.stack, guest, pressure, p)
    ensures BindAll(ev, Pairs([Word("guest")], [Word("guest")]), st.(stack := Push(st.stack))) ==
            Ok((), st.(stack := [map["guest" := guest]] + st.stack))
  {
    var inner := st.(stack := Push(st.stack));
    var syms := Pairs([Word("guest")], [Word("guest")]);
    NoDot("guest");
    assert inner.stack[1..] == st.stack;
    assert Get(env, st.world, st.stack, "guest") == Some(guest);
    assert Get(env, st.world, inner.stack, "guest") == Some(guest);
    assert Known(env, inner, Word("guest"));
    assert syms == [Lst([Word("guest"), Word("guest")])] && syms[1..] == [];
    var bound: Scope := map["guest" := guest];
    assert Alloc(inner.stack, "guest", guest) == [bound] + st.stack;
    assert BindAll(ev, [], st.(stack := [bound] + st.stack)) == Ok((), st.(stack := [bound] + st.stack));
  }

  /** Applying the step's function to one guest is one turn of the plan. */
  lemma {:induction false} ApplicationRuns(env: Env<World>, fuel: nat, p: Step, i: nat, guest: Value,
      v: Policies.View, pressure: real, st: State<World>)
    requires fuel > 6 && Forms(env) && StepOk(env, p) && Answers(env, p, i, guest, v, pressure)
    requires Around(st.stack, guest, pressure, p) && p.name in st.funcs
    requires st.funcs[p.name] == (Lst([Word("guest")]), Body(p)) && st.world.ok && i < |st.world.targets|
    ensures Ends(Evaluator(env, fuel)(Application(p), st), st,
                 Ledger.Take(Ledger.Turn(i, p.call(pressure)), v, st.world))
  {
    var w := Ledger.Take(Ledger.Turn(i, p.call(pressure)), v, st.world);
    ApplicationCalls(env, p, guest, pressure, st);
    CallIsLet(env, fuel - 2, Application(p), p.name, [Word("guest")], [Word("guest")], Body(p), st);
    EvaluatorReads(env, fuel - 2);
    BodyRunsAround(env, fuel - 2, p, i, guest, v, pressure, st);
    ApplicationEnds(env, Evaluator(env, fuel - 2), p, guest, pressure, st, w);
  }

  lemma {:induction false} BodyRunsAround(env: Env<World>, fuel: nat, p: Step, i: nat, guest: Value, v: Policies.View,
      pressure: real, st: State<World>)
    requires fuel > 4 && Forms(env) && StepOk(env, p) && Answers(env, p, i, guest, v, pressure)
    requires Around(st.stack, guest, pressure, p) && st.world.ok && i < |st.world.targets|
    ensures BodyEnds(Evaluator(env, fuel)(Body(p), st.(stack := [map["guest" := guest]] + st.stack)), st,
                     Ledger.Take(Ledger.Turn(i, p.call(pressure)), v, st.world))
  {
    var inner := st.(stack := [map["guest" := guest]] + st.stack);
    assert inner.stack[1..] == st.stack;
    assert inner.(stack := inner.stack[1..]) == st;
    BodyRuns(env, fuel, p, i, guest, v, pressure, inner);
  }

  lemma {:induction false} ApplicationEnds(env: Env<World>, ev: Ev<World>, p: Step, guest: Value, pressure: real,
      st: State<World>, w: World)
    requires ReadsSymbols(env, ev) && Around(st.stack, guest, pressure, p)
    requires BodyEnds(ev(Body(p), st.(stack := [map["guest" := guest]] + st.stack)), st, w)
    ensures Ends(EvalLet(ev, Lst(Pairs([Word("guest")], [Word("guest")])), [Body(p)], st), st, w)
  {
    var inner := st.(stack := [map["guest" := guest]] + st.stack);
    ParameterBound(env, ev, guest, pressure, p, st);
    assert inner.stack[1..] == st.stack;
    LetEnds(ev, Pairs([Word("guest")], [Word("guest")]), Body(p), st, inner, w);
  }

  /** A let whose scope is gone again when it is left. */
  lemma {:induction false} LetEnds(ev: Ev<World>, syms: seq<Ast>, body: Ast, st: State<World>, inner: State<World>,
      w: World)
    requires BindAll(ev, syms, st.(stack := Push(st.stack))) == Ok((), inner)
    requires inner.funcs == st.funcs && inner.stack != [] && inner.stack[1..] == st.stack
    requires BodyEnds(ev(body, inner), st, w)
    ensures Ends(EvalLet(ev, Lst(syms), [body], st), st, w)
  {
    ListOfOne(ev, body, inner);
  }

  lemma {:induction false} ApplicationCalls(env: Env<World>, p: Step, guest: Value, pressure: real, st: State<World>)
    requires StepOk(env, p) && Around(st.stack, guest, pressure, p)
    ensures Calls(env, Application(p), p.name, st) && Unbound(env, "let", st)
    ensures Application(p).items[1..] == [Word("guest")]
  {
    NowhereUnbound(env, "let", st);
    NowhereUnbound(env, p.name, st);
  }

  lemma {:induction false} CallIsLet(env: Env<World>, fuel: nat, code: Ast, name: string, params: seq<Ast>,
      args: seq<Ast>, body: Ast, st: State<World>)
    requires Forms(env) && Calls(env, code, name, st) && name !in env.builtins && name != "eval"
    requires Unbound(env, "let", st) && name in st.funcs && st.funcs[name] == (Lst(params), body)
    requires code.items[1..] == args && |params| == |args|
    ensures Evaluator(env, fuel + 2)(code, st) == EvalLet(Evaluator(env, fuel), Lst(Pairs(params, args)), [body], st)
  {
    EvaluatorIs(env, fuel + 2, code, st);
    UserCallIsSequentialLet(env, fuel, code, name, params, body, st);
  }

  // ----- the loops -----

  /** The turns of guests i to n - 1. */
  function GuestTurns(call: Policies.Call, i: nat, n: nat): (turns: seq<Ledger.Turn>)
    ensures forall k :: 0 <= k < |turns| ==> turns[k].guest < n
    decreases n - i
  {
    if i >= n then [] else [Ledger.Turn(i, call)] + GuestTurns(call, i + 1, n)
  }

  ghost predicate AllAnswer(env: Env<World>, p: Step, guests: seq<Value>, views: seq<Policies.View>, pressure: real) {
    |guests| == |views| && forall i :: 0 <= i < |guests| ==> Answers(env, p, i, guests[i], views[i], pressure)
  }

  /** Outside any function: the file's variables, and the functions it has defined. */
  ghost predicate AtTop(st: State<World>, pressure: real, p: Step) {
    && |st.stack| == 1 && (Uses(p) ==> Holds(st.stack[0], pressure)) && Unnamed(st.stack[0], p)
    && p.name in st.funcs && st.funcs[p.name] == (Lst([Word("guest")]), Body(p))
  }

  lemma {:induction false} LoopFrom(env: Env<World>, fuel: nat, p: Step, guests: seq<Value>,
      views: seq<Policies.View>, pressure: real, i: nat, st: State<World>)
    requires fuel > 6 && Forms(env) && StepOk(env, p) && AllAnswer(env, p, guests, views, pressure)
    requires AtTop(st, pressure, p) && st.world.ok && |st.world.targets| == |views| && i <= |guests|
    ensures Ledger.Plan(views, GuestTurns(p.call(pressure), i, |views|)).Valid()
    ensures Ends(EvalWithLoop(Evaluator(env, fuel), guests[i..], "guest", Application(p), st), st,
                 Ledger.StateFrom(views, GuestTurns(p.call(pressure), i, |views|), st.world))
    decreases |guests| - i
  {
    if i < |guests| {
      var inner := st.(stack := [map["guest" := guests[i]]] + st.stack);
      ApplicationRuns(env, fuel, p, i, guests[i], views[i], pressure, inner);
      var turns := GuestTurns(p.call(pressure), i, |views|);
      assert turns[0] == Ledger.Turn(i, p.call(pressure)) && turns[1..] == GuestTurns(p.call(pressure), i + 1, |views|);
      assert guests[i..][0] == guests[i] && guests[i..][1..] == guests[i + 1..];
      assert inner.stack[1..] == st.stack;
      var w := Ledger.Take(turns[0], views[i], st.world);
      if w.ok {
        LoopFrom(env, fuel, p, guests, views, pressure, i + 1, st.(world := w));
      }
    }
  }

  // ----- the file -----

  function Definitions(ps: seq<Step>): seq<Ast> {
    seq(|ps|, k requires 0 <= k < |ps| => Definition(ps[k]))
  }

  function Loops(ps: seq<Step>): seq<Ast> {
    seq(|ps|, k requires 0 <= k < |ps| => Loop(ps[k]))
  }

  function Preface(asks: bool, defs: seq<Step>): seq<Ast> {
    (if asks then [READ_PRESSURE] else []) + Definitions(defs)
  }

  /** A file reads the pressure, if it needs it, defines its functions, and goes over the guests once for
      each step. */
  function File(asks: bool, defs: seq<Step>, steps: seq<Step>): seq<Ast> {
    Preface(asks, defs) + Loops(steps)
  }

  /** What the steps ask for, one guest after the other in each. */
  function StepTurns(steps: seq<Step>, pressure: real, n: nat): (turns: seq<Ledger.Turn>)
    ensures forall k :: 0 <= k < |turns| ==> turns[k].guest < n
  {
    if steps == [] then [] else GuestTurns(steps[0].call(pressure), 0, n) + StepTurns(steps[1..], pressure, n)
  }

  /** The host's command that reads the free number. */
  ghost predicate HostAnswers(env: Env<World>, host: Value, entry: string) {
    forall w: World {:trigger env.attribute(w, host, entry)} ::
      var m := env.attribute(w, host, entry);
      && m.Some? && m.value != NoneValue
      && env.call(m.value, [Text("get_hostpressure")], w) == (Some(Float(w.free)), w)
  }

  /** The evaluator's first scope: the host and the guests, and nothing by the name of a form. */
  ghost predicate TopScope(env: Env<World>, scope: Scope, host: Value, guests: seq<Value>) {
    && "Host" in scope && scope["Host"] == host
    && "Guests" in scope && env.iterate(scope["Guests"]) == Some(guests)
    && "def" !in scope && "defvar" !in scope && "with" !in scope && "let" !in scope && "eval" !in scope
    && "host_mem_pressure" !in scope
  }

  lemma {:induction false} CommandRuns(env: Env<World>, fuel: nat, host: Value, entry: string, st: State<World>)
    requires fuel > 2 && HostAnswers(env, host, entry) && Plainly(entry) && |st.stack| == 1
    requires "Host" in st.stack[0] && st.stack[0]["Host"] == host
    ensures Evaluator(env, fuel)(HostCall(entry), st) == Ok(Float(st.world.free), st)
  {
    EvaluatorIs(env, fuel, HostCall(entry), st);
    EvaluatorIs(env, fuel - 1, COMMAND, st);
    CommandText(env, Evaluator(env, fuel - 2), st);
    CommandAnswered(env, Evaluator(env, fuel - 1), host, entry, st);
  }

  lemma {:induction false} CommandText(env: Env<World>, ev: Ev<World>, st: State<World>)
    ensures EvalLayer(env, ev, COMMAND, st) == Ok(Text("get_hostpressure"), st)
  {
    assert Unquote("\"get_hostpressure\"") == "get_hostpressure";
  }

  lemma {:induction false} CommandAnswered(env: Env<World>, ev: Ev<World>, host: Value, entry: string,
      st: State<World>)
    requires HostAnswers(env, host, entry) && Plainly(entry) && |st.stack| == 1
    requires "Host" in st.stack[0] && st.stack[0]["Host"] == host
    requires ev(COMMAND, st) == Ok(Text("get_hostpressure"), st)
    ensures EvalLayer(env, ev, HostCall(entry), st) == Ok(Float(st.world.free), st)
  {
    CommandFound(env, host, entry, st);
    assert HostCall(entry).items[1..] == [COMMAND];
    ListOfOne(ev, COMMAND, st);
  }

  lemma {:induction false} CommandFound(env: Env<World>, host: Value, entry: string, st: State<World>)
    requires HostAnswers(env, host, entry) && Plainly(entry) && |st.stack| == 1
    requires "Host" in st.stack[0] && st.stack[0]["Host"] == host
    ensures Get(env, st.world, st.stack, "Host." + entry) == env.attribute(st.world, host, entry)
    ensures env.attribute(st.world, host, entry).Some?
  {
    Dotted("Host", entry);
    NoDot(entry);
    assert "Host" + "." == "Host.";
    assert env.attribute(st.world, host, entry).Some?;
  }

  lemma {:induction false} PressureRead(env: Env<World>, fuel: nat, host: Value, guests: seq<Value>, scope: Scope,
      st: State<World>)
    requires fuel > 3 && Forms(env) && HostAnswers(env, host, "Dd_command") && TopScope(env, scope, host, guests)
    requires st.stack == [scope]
    ensures var after := st.(stack := [scope["host_mem_pressure" := Float(st.world.free)]]);
            Evaluator(env, fuel)(READ_PRESSURE, st) == Ok(Float(st.world.free), after)
  {
    EvaluatorIs(env, fuel, READ_PRESSURE, st);
    AssignmentRuns(env, Evaluator(env, fuel - 1), "host_mem_pressure", HostCall("Dd_command"), st);
    CommandRuns(env, fuel - 1, host, "Dd_command", st);
    AssignedAtTop("host_mem_pressure", Float(st.world.free), scope, st);
  }

  lemma {:induction false} AssignedAtTop(name: string, v: Value, scope: Scope, st: State<World>)
    requires st.stack == [scope] && name !in scope
    ensures Assigned(name, Ok(v, st)) == Ok(v, st.(stack := [scope[name := v]]))
  {
    assert Alloc(st.stack, name, v) == [scope[name := v]];
  }

  /** The functions after the first k definitions. */
  function FuncsAfter(funcs: Funcs, defs: seq<Step>, k: nat): Funcs
    requires k <= |defs|
  {
    if k == 0 then funcs
    else
      var p := defs[k - 1];
      FuncsAfter(funcs, defs, k - 1)[p.name := (Lst([Word("guest")]), Body(p))]
  }

  lemma {:induction false} OneDefinition(env: Env<World>, fuel: nat, p: Step, st: State<World>)
    requires fuel > 0 && Forms(env) && Nowhere("def", st.stack)
    ensures EvalList(Evaluator(env, fuel), [Definition(p)], st) ==
            Ok([Text(p.name)], st.(funcs := st.funcs[p.name := (Lst([Word("guest")]), Body(p))]))
  {
    EvaluatorIs(env, fuel, Definition(p), st);
    DefinitionRuns(env, Evaluator(env, fuel - 1), p, st);
    ListOfOne(Evaluator(env, fuel), Definition(p), st);
  }

  lemma {:induction false} DefinitionsRun(env: Env<World>, fuel: nat, defs: seq<Step>, k: nat, st: State<World>)
    requires fuel > 0 && Forms(env) && Nowhere("def", st.stack) && k <= |defs|
    ensures var start := st.(funcs := FuncsAfter(st.funcs, defs, k));
            var r := EvalList(Evaluator(env, fuel), Definitions(defs)[k..], start);
            r.Ok? && r.st == st.(funcs := FuncsAfter(st.funcs, defs, |defs|))
    decreases |defs| - k
  {
    var code := Definitions(defs)[k..];
    if k < |defs| {
      var start := st.(funcs := FuncsAfter(st.funcs, defs, k));
      assert code == [Definition(defs[k])] + Definitions(defs)[k + 1..];
      OneDefinition(env, fuel, defs[k], start);
      ListJoins(Evaluator(env, fuel), [Definition(defs[k])], Definitions(defs)[k + 1..], start);
      DefinitionsRun(env, fuel, defs, k + 1, st);
    }
  }

  /** Every step's function is among those defined, each under its own name. */
  ghost predicate Defines(defs: seq<Step>, steps: seq<Step>) {
    && (forall j, k :: 0 <= j < k < |defs| ==> defs[j].name != defs[k].name)
    && (forall k :: 0 <= k < |steps| ==> steps[k] in defs)
  }

  lemma {:induction false} DefinedFound(funcs: Funcs, defs: seq<Step>, j: nat, k: nat)
    requires forall m, n :: 0 <= m < n < |defs| ==> defs[m].name != defs[n].name
    requires j < k <= |defs|
    ensures var fs := FuncsAfter(funcs, defs, k);
            defs[j].name in fs && fs[defs[j].name] == (Lst([Word("guest")]), Body(defs[j]))
  {
    if j < k - 1 { DefinedFound(funcs, defs, j, k - 1); }
  }

  /** One loop over the guests. */
  lemma {:induction false} OneLoop(env: Env<World>, fuel: nat, p: Step, guests: seq<Value>, views: seq<Policies.View>,
      pressure: real, st: State<World>)
    requires fuel > 7 && Forms(env) && StepOk(env, p) && AllAnswer(env, p, guests, views, pressure)
    requires AtTop(st, pressure, p) && st.world.ok && |st.world.targets| == |views|
    requires "Guests" in st.stack[0] && env.iterate(st.stack[0]["Guests"]) == Some(guests)
    ensures Ends(Evaluator(env, fuel)(Loop(p), st), st,
                 Ledger.StateFrom(views, GuestTurns(p.call(pressure), 0, |views|), st.world))
  {
    EvaluatorIs(env, fuel, Loop(p), st);
    LoopRuns(env, Evaluator(env, fuel - 1), p, st);
    LoopFrom(env, fuel - 1, p, guests, views, pressure, 0, st);
    assert guests[0..] == guests;
    LoopEnds(env, Evaluator(env, fuel - 1), Application(p), guests, st,
             Ledger.StateFrom(views, GuestTurns(p.call(pressure), 0, |views|), st.world));
  }

  lemma {:induction false} LoopEnds(env: Env<World>, ev: Ev<World>, code: Ast, guests: seq<Value>, st: State<World>,
      w: World)
    requires |st.stack| == 1 && "Guests" in st.stack[0] && env.iterate(st.stack[0]["Guests"]) == Some(guests)
    requires Ends(EvalWithLoop(ev, guests, "guest", code, st), st, w)
    ensures Ends(EvalWithForm(env, ev, "Guests", "guest", code, st), st, w)
  {
    NoDot("Guests");
    assert Get(env, st.world, st.stack, "Guests") == Some(st.stack[0]["Guests"]);
  }

  // ----- a whole file -----

  /** What the file's functions and steps ask of their surroundings. */
  ghost predicate Runnable(env: Env<World>, asks: bool, defs: seq<Step>, steps: seq<Step>, host: Value,
      guests: seq<Value>, views: seq<Policies.View>, scope: Scope, free: real) {
    && Forms(env) && TopScope(env, scope, host, guests) && Defines(defs, steps)
    && (asks ==> HostAnswers(env, host, "Dd_command"))
    && forall k :: 0 <= k < |steps| ==>
         && StepOk(env, steps[k]) && (Uses(steps[k]) ==> asks) && steps[k].name !in scope
         && AllAnswer(env, steps[k], guests, views, free)
  }

  /** The loops from step k on. */
  lemma {:induction false} LoopsFrom(env: Env<World>, fuel: nat, steps: seq<Step>, k: nat, guests: seq<Value>,
      views: seq<Policies.View>, pressure: real, st: State<World>)
    requires fuel > 7 && Forms(env) && k <= |steps| && |st.stack| == 1
    requires forall j :: 0 <= j < |steps| ==>
               && StepOk(env, steps[j]) && AtTop(st, pressure, steps[j])
               && AllAnswer(env, steps[j], guests, views, pressure)
    requires "Guests" in st.stack[0] && env.iterate(st.stack[0]["Guests"]) == Some(guests)
    requires st.world.ok && |st.world.targets| == |views|
    ensures Ledger.Plan(views, StepTurns(steps[k..], pressure, |views|)).Valid()
    ensures Ends(EvalList(Evaluator(env, fuel), Loops(steps)[k..], st), st,
                 Ledger.StateFrom(views, StepTurns(steps[k..], pressure, |views|), st.world))
    decreases |steps| - k
  {
    if k < |steps| {
      var p, code := steps[k], Loops(steps)[k..];
      assert code[0] == Loop(p) && code[1..] == Loops(steps)[k + 1..];
      assert steps[k..][0] == p && steps[k..][1..] == steps[k + 1..];
      OneLoop(env, fuel, p, guests, views, pressure, st);
      var first := GuestTurns(p.call(pressure), 0, |views|);
      var w := Ledger.StateFrom(views, first, st.world);
      Ledger.StateFromJoins(views, first, StepTurns(steps[k + 1..], pressure, |views|), st.world);
      if w.ok {
        LoopsFrom(env, fuel, steps, k + 1, guests, views, pressure, st.(world := w));
      } else {
        Ledger.StateFromStops(views, StepTurns(steps[k + 1..], pressure, |views|), w);
      }
    }
  }

  lemma {:induction false} ListJoins(ev: Ev<World>, a: seq<Ast>, b: seq<Ast>, st: State<World>)
    ensures EvalList(ev, a + b, st) ==
            match EvalList(ev, a, st)
            case Err(e, st1) => Err(e, st1)
            case Ok(vs, st1) => After(vs, EvalList(ev, b, st1))
  {
    if a == [] {
      assert a + b == b;
      AfterStart(EvalList(ev, b, st));
    } else {
      assert (a + b)[0] == a[0] && (a + b)[1..] == a[1..] + b;
      var r := ev(a[0], st);
      if r.Ok? {
        ListJoins(ev, a[1..], b, r.st);
        var q := EvalList(ev, a[1..], r.st);
        if q.Ok? { Regrouped(r.value, q.value, EvalList(ev, b, q.st)); }
      }
    }
  }

  lemma {:induction false} Regrouped(v: Value, vs: seq<Value>, r: Res<seq<Value>, World>)
    ensures r.Ok? ==> [v] + (vs + r.value) == ([v] + vs) + r.value
  {
  }

  /** What the file has done before its first loop. */
  function Ready(asks: bool, defs: seq<Step>, scope: Scope, start: State<World>): State<World> {
    State([if asks then scope["host_mem_pressure" := Float(start.world.free)] else scope],
          FuncsAfter(start.funcs, defs, |defs|), start.world)
  }

  lemma {:induction false} PrefaceRuns(env: Env<World>, fuel: nat, asks: bool, defs: seq<Step>, host: Value,
      guests: seq<Value>, scope: Scope, start: State<World>)
    requires fuel > 7 && Forms(env) && TopScope(env, scope, host, guests) && start.stack == [scope]
    requires asks ==> HostAnswers(env, host, "Dd_command")
    ensures var r := EvalList(Evaluator(env, fuel), Preface(asks, defs), start);
            r.Ok? && r.st == Ready(asks, defs, scope, start)
  {
    var ev := Evaluator(env, fuel);
    assert Definitions(defs)[0..] == Definitions(defs);
    if asks {
      ListJoins(ev, [READ_PRESSURE], Definitions(defs), start);
      PressureRead(env, fuel, host, guests, scope, start);
      ListOfOne(ev, READ_PRESSURE, start);
      DefinitionsRun(env, fuel, defs, 0, start.(stack := [scope["host_mem_pressure" := Float(start.world.free)]]));
    } else {
      Empty(Definitions(defs));
      DefinitionsRun(env, fuel, defs, 0, start);
    }
  }

  /** Evaluating such a file on a host and its guests comes to the evaluation of its plan in the ledger:
      one call for each guest and step, the pressure being the free number at the start. It raises
      exactly if some call fails. */
  lemma {:induction false} FileRuns(env: Env<World>, fuel: nat, asks: bool, defs: seq<Step>, steps: seq<Step>,
      host: Value, guests: seq<Value>, views: seq<Policies.View>, scope: Scope, free: real)
    requires fuel > 7 && Runnable(env, asks, defs, steps, host, guests, views, scope, free)
    ensures var start := State([scope], map[], Ledger.Progress(free, Ledger.NoTargets(|views|), true));
            var r := EvalList(Evaluator(env, fuel), File(asks, defs, steps), start);
            var p := Ledger.Plan(views, StepTurns(steps, free, |views|));
            p.Valid() && r.st.world == Ledger.Evaluate(p, free) && (r.Ok? <==> Ledger.Evaluate(p, free).ok)
  {
    var start := State([scope], map[], Ledger.Progress(free, Ledger.NoTargets(|views|), true));
    var ready := Ready(asks, defs, scope, start);
    ListJoins(Evaluator(env, fuel), Preface(asks, defs), Loops(steps), start);
    PrefaceRuns(env, fuel, asks, defs, host, guests, scope, start);
    forall k | 0 <= k < |steps|
      ensures AtTop(ready, free, steps[k])
    {
      ReadyForStep(asks, defs, steps, scope, k, start);
    }
    LoopsFrom(env, fuel, steps, 0, guests, views, free, ready);
    assert steps[0..] == steps && Loops(steps)[0..] == Loops(steps);
    var p := Ledger.Plan(views, StepTurns(steps, free, |views|));
    Ledger.StateFromIsStateAfter(p, free, |p.turns|);
    assert p.turns[..|p.turns|] == p.turns;
  }

  lemma {:induction false} ReadyForStep(asks: bool, defs: seq<Step>, steps: seq<Step>, scope: Scope, k: nat,
      start: State<World>)
    requires Defines(defs, steps) && k < |steps| && steps[k].name !in scope && steps[k].name !in LOCALS
    requires "defvar" !in scope && "with" !in scope && "let" !in scope && "eval" !in scope
    requires Uses(steps[k]) ==> asks
    ensures AtTop(Ready(asks, defs, scope, start), start.world.free, steps[k])
  {
    var j :| 0 <= j < |defs| && defs[j] == steps[k];
    DefinedFound(start.funcs, defs, j, |defs|);
  }

  // ----- files with one call for each guest -----

  /** The rules files that apply one policy: they define apply_guest and go over the guests once. */
  function Applying(entry: string, args: seq<string>, call: real -> Policies.Call): Step {
    Step("apply_guest", entry, args, call)
  }

  lemma {:induction false} TurnsOfOne(p: Step, pressure: real, n: nat)
    ensures StepTurns([p], pressure, n) == GuestTurns(p.call(pressure), 0, n)
  {
    assert [p][1..] == [];
    assert StepTurns([], pressure, n) == [];
  }

  lemma {:induction false} TurnInOrder(call: Policies.Call, i: nat, n: nat)
    requires i <= n
    ensures GuestTurns(call, i, n) == seq(n - i, k requires 0 <= k < n - i => Ledger.Turn(i + k, call))
    decreases n - i
  {
    if i < n { TurnInOrder(call, i + 1, n); }
  }

  /** With one call for each guest, the free number falls by exactly what the standing targets take,
      whether or not a call fails on the way. */
  lemma {:induction false} OneStepConserves(p: Step, views: seq<Policies.View>, free: real)
    ensures var plan := Ledger.Plan(views, StepTurns([p], free, |views|));
            && plan.Valid() && Ledger.OnceEach(plan)
            && var s := Ledger.Evaluate(plan, free); s.free == free - Ledger.Demand(Ledger.Sizes(views), s.targets)
  {
    TurnsOfOne(p, free, |views|);
    TurnInOrder(p.call(free), 0, |views|);
    var plan := Ledger.Plan(views, StepTurns([p], free, |views|));
    Ledger.OnceEachReplacesNothing(plan);
    Ledger.EvaluationDebits(plan, free, |plan.turns|);
  }

  // ----- iballoon.rules -----

  const NORMAL := Step("shrink_normal_guest", "Dd_policy8_shrink_normal", ["guest"],
                       _ => Policies.Policy8(Policies.ShrinkNormal))
  const CRITICAL := Step("grow_critical_guest", "Dd_policy8_grow_critical", [],
                         _ => Policies.Policy8(Policies.GrowCritical))
  const GROW := Step("grow_warn_guest", "Dd_policy8_grow_warn", [], _ => Policies.Policy8(Policies.GrowWarn))
  const SHRINK := Step("shrink_warn_guest", "Dd_policy8_shrink_warn", [], _ => Policies.Policy8(Policies.ShrinkWarn))

  const IBALLOON_DEFS := [NORMAL, SHRINK, CRITICAL, GROW]
  const IBALLOON_STEPS := [NORMAL, CRITICAL, GROW, SHRINK]

  /** The plan of iballoon.rules is that of the four passes. */
  lemma {:induction false} IBalloonTurns(pressure: real, n: nat)
    ensures StepTurns(IBALLOON_STEPS, pressure, n) == IBalloon.Passes(4, n)
  {
    TurnsOfMore(NORMAL, [CRITICAL, GROW, SHRINK], pressure, n);
    TurnsOfMore(CRITICAL, [GROW, SHRINK], pressure, n);
    TurnsOfMore(GROW, [SHRINK], pressure, n);
    TurnsOfOne(SHRINK, pressure, n);
    PassIsGuestTurns(0, n);
    PassIsGuestTurns(1, n);
    PassIsGuestTurns(2, n);
    PassIsGuestTurns(3, n);
    FourJoined(IBalloon.PassTurns(0, n), IBalloon.PassTurns(1, n), IBalloon.PassTurns(2, n), IBalloon.PassTurns(3, n));
    FourPassesJoined(n);
  }

  lemma {:induction false} FourPassesJoined(n: nat)
    ensures IBalloon.Passes(4, n) == [] + IBalloon.PassTurns(0, n) + IBalloon.PassTurns(1, n)
                                     + IBalloon.PassTurns(2, n) + IBalloon.PassTurns(3, n)
  {
    assert IBalloon.Passes(0, n) == [];
    assert IBalloon.Passes(1, n) == [] + IBalloon.PassTurns(0, n);
    assert IBalloon.Passes(2, n) == IBalloon.Passes(1, n) + IBalloon.PassTurns(1, n);
    assert IBalloon.Passes(3, n) == IBalloon.Passes(2, n) + IBalloon.PassTurns(2, n);
  }

  lemma {:induction false} TurnsOfMore(p: Step, rest: seq<Step>, pressure: real, n: nat)
    ensures StepTurns([p] + rest, pressure, n) == GuestTurns(p.call(pressure), 0, n) + StepTurns(rest, pressure, n)
  {
    assert ([p] + rest)[1..] == rest;
  }

  lemma {:induction false} PassIsGuestTurns(q: nat, n: nat)
    ensures GuestTurns(Policies.Policy8(IBalloon.PassAt(q)), 0, n) == IBalloon.PassTurns(q, n)
  {
    TurnInOrder(Policies.Policy8(IBalloon.PassAt(q)), 0, n);
  }

  lemma {:induction false} FourJoined<T>(a: seq<T>, b: seq<T>, c: seq<T>, d: seq<T>)
    ensures a + (b + (c + d)) == [] + a + b + c + d
  {
  }

  /** Evaluating iballoon.rules comes to the four passes of the ledger. */
  lemma {:induction false} IBalloonFileRuns(env: Env<World>, fuel: nat, host: Value, guests: seq<Value>,
      views: seq<Policies.View>, scope: Scope, free: real)
    requires fuel > 7 && Runnable(env, true, IBALLOON_DEFS, IBALLOON_STEPS, host, guests, views, scope, free)
    ensures var start := State([scope], map[], Ledger.Progress(free, Ledger.NoTargets(|views|), true));
            var r := EvalList(Evaluator(env, fuel), File(true, IBALLOON_DEFS, IBALLOON_STEPS), start);
            && IBalloon.FourPasses(views).Valid()
            && r.st.world == Ledger.Evaluate(IBalloon.FourPasses(views), free) && (r.Ok? <==> r.st.world.ok)
  {
    FileRuns(env, fuel, true, IBALLOON_DEFS, IBALLOON_STEPS, host, guests, views, scope, free);
    IBalloonTurns(free, |views|);
    IBalloon.FourPassesValid(views);
  }

  // ----- such surroundings exist -----

  /** The guests are objects, their methods pairs of guest and step. */
  function GuestValues(n: nat): seq<Value> {
    seq(n, i => Object(i))
  }

  function EntryIndex(steps: seq<Step>, entry: string, n: nat): (k: Option<nat>)
    requires n <= |steps|
    ensures k.Some? ==> k.value < n && steps[k.value].entry == entry
    ensures k.None? ==> forall j :: 0 <= j < n ==> steps[j].entry != entry
  {
    if n == 0 then None else if steps[n - 1].entry == entry then Some(n - 1) else EntryIndex(steps, entry, n - 1)
  }

  function AttributeOf(steps: seq<Step>, v: Value, name: string): Option<Value> {
    if v == Text("host") then Some(Text("command"))
    else
      match EntryIndex(steps, name, |steps|)
      case None => None
      case Some(k) => Some(ListOf([v, Int(k)]))
  }

  function CallOf(steps: seq<Step>, views: seq<Policies.View>, pressure: real, m: Value, w: World)
    : (Option<Value>, World)
  {
    if m == Text("command") then (Some(Float(w.free)), w)
    else if m.ListOf? && |m.items| == 2 && m.items[0].Object? && m.items[1].Int? then
      var i, k := m.items[0].id, m.items[1].i;
      if 0 <= i < |views| && 0 <= k < |steps| && i < |w.targets| then
        var w' := Ledger.Take(Ledger.Turn(i, steps[k].call(pressure)), views[i], w);
        (if w'.ok then Some(NoneValue) else None, w')
      else (None, w)
    else (None, w)
  }

  function ServingEnv(steps: seq<Step>, views: seq<Policies.View>, pressure: real): Env<World> {
    Env(OPERATORS, BUILTINS, (_, _) => None, _ => None, _ => true,
        (v: Value) => if v.ListOf? then Some(v.items) else None,
        (_, v, name) => AttributeOf(steps, v, name),
        (m, _, w) => CallOf(steps, views, pressure, m, w))
  }

  /** The guests answer the calls of a step as the policies decide. */
  lemma {:induction false} ServingEnvAnswers(steps: seq<Step>, views: seq<Policies.View>, pressure: real, k: nat)
    requires k < |steps| && forall i, j :: 0 <= i < j < |steps| ==> steps[i].entry != steps[j].entry
    ensures AllAnswer(ServingEnv(steps, views, pressure), steps[k], GuestValues(|views|), views, pressure)
  {
    var env, p := ServingEnv(steps, views, pressure), steps[k];
    forall i | 0 <= i < |views|
      ensures Answers(env, p, i, Object(i), views[i], pressure)
    {
      forall w: World
        ensures env.attribute(w, Object(i), p.entry) == Some(ListOf([Object(i), Int(k)]))
      {
      }
    }
  }

  lemma {:induction false} LongIsNoBuiltin(name: string)
    requires |name| > 6
    ensures name !in BUILTINS
  {
  }

  /** The names of iballoon.rules are fit for it. */
  lemma {:induction false} IBalloonNames(env: Env<World>, k: nat)
    requires env.builtins == BUILTINS && k < |IBALLOON_STEPS|
    ensures StepOk(env, IBALLOON_STEPS[k])
  {
    EarlyNamesPlain();
    LateNamesPlain();
    EntriesPlain();
    LongIsNoBuiltin(IBALLOON_STEPS[k].name);
  }

  lemma {:induction false} EarlyNamesPlain()
    ensures Plainly(NORMAL.name) && Plainly(CRITICAL.name)
  {
  }

  lemma {:induction false} LateNamesPlain()
    ensures Plainly(GROW.name) && Plainly(SHRINK.name)
  {
  }

  lemma {:induction false} EntriesPlain()
    ensures Plainly(NORMAL.entry) && Plainly(CRITICAL.entry) && Plainly(GROW.entry) && Plainly(SHRINK.entry)
  {
  }

  lemma {:induction false} EntriesDistinct()
    ensures forall i, j :: 0 <= i < j < |IBALLOON_STEPS| ==> IBALLOON_STEPS[i].entry != IBALLOON_STEPS[j].entry
  {
    assert |NORMAL.entry| == 24 && |CRITICAL.entry| == 24 && |GROW.entry| == 20 && |SHRINK.entry| == 22;
    assert NORMAL.entry[11] != CRITICAL.entry[11];
  }

  lemma {:induction false} IBalloonDefines()
    ensures Defines(IBALLOON_DEFS, IBALLOON_STEPS)
  {
    assert IBALLOON_DEFS[0] == NORMAL && IBALLOON_DEFS[1] == SHRINK;
    assert IBALLOON_DEFS[2] == CRITICAL && IBALLOON_DEFS[3] == GROW;
  }

  function ServingScope(n: nat): Scope {
    map["Host" := Text("host"), "Guests" := ListOf(GuestValues(n))]
  }

  lemma {:induction false} ServingScopeIsTop(env: Env<World>, n: nat)
    requires env.iterate(ListOf(GuestValues(n))) == Some(GuestValues(n))
    ensures TopScope(env, ServingScope(n), Text("host"), GuestValues(n))
    ensures forall name: string :: |name| > 6 ==> name !in ServingScope(n)
  {
  }

  lemma {:induction false} ServingHostAnswers(steps: seq<Step>, views: seq<Policies.View>, pressure: real,
      entry: string)
    ensures HostAnswers(ServingEnv(steps, views, pressure), Text("host"), entry)
  {
  }

  /** Over any snapshots and any free number there are a host and guests on which such a file runs. */
  lemma {:induction false} ServingIsRunnable(defs: seq<Step>, steps: seq<Step>, views: seq<Policies.View>, free: real)
    requires Defines(defs, steps) && forall i, j :: 0 <= i < j < |steps| ==> steps[i].entry != steps[j].entry
    requires var env := ServingEnv(steps, views, free);
             forall k :: 0 <= k < |steps| ==> StepOk(env, steps[k]) && |steps[k].name| > 6
    ensures Runnable(ServingEnv(steps, views, free), true, defs, steps, Text("host"), GuestValues(|views|), views,
                     ServingScope(|views|), free)
  {
    var env := ServingEnv(steps, views, free);
    TableHasForms(env);
    ServingScopeIsTop(env, |views|);
    ServingHostAnswers(steps, views, free, "Dd_command");
    forall k | 0 <= k < |steps|
      ensures AllAnswer(env, steps[k], GuestValues(|views|), views, free)
    {
      ServingEnvAnswers(steps, views, free, k);
    }
  }

  lemma {:induction false} IBalloonIsRunnable(views: seq<Policies.View>, free: real)
    ensures Runnable(ServingEnv(IBALLOON_STEPS, views, free), true, IBALLOON_DEFS, IBALLOON_STEPS, Text("host"),
                     GuestValues(|views|), views, ServingScope(|views|), free)
  {
    var steps := IBALLOON_STEPS;
    IBalloonDefines();
    EntriesDistinct();
    forall k | 0 <= k < |steps|
      ensures StepOk(ServingEnv(steps, views, free), steps[k]) && |steps[k].name| > 6
    {
      IBalloonNames(ServingEnv(steps, views, free), k);
    }
    ServingIsRunnable(IBALLOON_DEFS, steps, views, free);
  }

  // ----- from the policy store to the ledger -----

  /** The code of such a file is what the parser makes of its tokens. */
  lemma {:induction false} FileReads(asks: bool, defs: seq<Step>, steps: seq<Step>)
    requires defs != []
    ensures Read(PolicyReader.PrintAll(File(asks, defs, steps))) == Some(File(asks, defs, steps))
  {
    var code := File(asks, defs, steps);
    forall k | 0 <= k < |code|
      ensures PolicyReader.Printable(code[k])
    {
      var front := if asks then 1 else 0;
      if k < front {
        assert PolicyReader.Printable(HostCall("Dd_command"));
      } else if k < front + |defs| {
        DefinitionPrintable(defs[k - front]);
      } else {
        LoopPrintable(steps[k - front - |defs|]);
      }
    }
    PolicyReader.PrintedProgramReads(code);
  }

  lemma {:induction false} DefinitionPrintable(p: Step)
    ensures PolicyReader.Printable(Definition(p))
  {
    var call := MethodCall(p);
    assert forall k :: 0 <= k < |call.items| ==> call.items[k].Atom? && call.items[k].tok.kind == Sym;
    assert PolicyReader.Printable(call);
    assert PolicyReader.Printable(Assignment("tmp", call));
    assert PolicyReader.Printable(Body(p));
    assert PolicyReader.Printable(Lst([Word("guest")]));
  }

  lemma {:induction false} LoopPrintable(p: Step)
    ensures PolicyReader.Printable(Loop(p))
  {
    assert PolicyReader.Printable(Application(p));
  }

  /** The store's evaluation, when its code is that of such a file. */
  method EvaluateFile(policy: PolicyStore.Policy, env: Env<World>, externs: Scope, host: Value, guests: Value,
      fuel: nat, free: real, ghost asks: bool, ghost defs: seq<Step>, ghost steps: seq<Step>,
      views: seq<Policies.View>, ghost items: seq<Value>) returns (ok: bool, world: World)
    requires policy.code == File(asks, defs, steps) && fuel > 7
    requires var scope := PolicyStore.AddedTo(PolicyStore.AddedTo(externs, "Host", host), "Guests", guests);
             Runnable(env, asks, defs, steps, host, items, views, scope, free)
    ensures var plan := Ledger.Plan(views, StepTurns(steps, free, |views|));
            plan.Valid() && world == Ledger.Evaluate(plan, free) && ok == world.ok
  {
    ghost var scope := PolicyStore.AddedTo(PolicyStore.AddedTo(externs, "Host", host), "Guests", guests);
    FileRuns(env, fuel, asks, defs, steps, host, items, views, scope, free);
    ok, world := policy.Evaluate(env, externs, host, guests,
                                 Ledger.Progress(free, Ledger.NoTargets(|views|), true), fuel);
  }
}
