/** What policy code evaluates to: the evaluator's functions as a specification,
    one layer of evaluation at a time. */
module Evaluation {
  import opened Options
  import opened Grammars
  import opened PolicySyntax

  /** Python values as policies see them. */
  datatype Value =
    | NoneValue
    | Bool(b: bool)
    | Int(i: int)
    | Float(r: real)
    | Text(s: string)
    | ListOf(items: seq<Value>)
    | Object(id: int)

  type Scope = map<string, Value>

  /** User functions: parameters and body, by name. */
  type Funcs = map<string, (Ast, Ast)>

  /** Everything evaluation can change: variables, user functions, and the world behind
      the objects and external functions. */
  datatype State<W> = State(stack: seq<Scope>, funcs: Funcs, world: W)

  datatype Error = PolicyError | OtherException | NoFuel

  datatype Res<+T, W> = Ok(value: T, st: State<W>) | Err(error: Error, st: State<W>)

  // ----- builtins and their docstrings -----

  datatype ArgType = SymbolArg | ValueArg | CodeArg | Dots

  datatype Builtin = Def | Set | Defvar | Let | With | If | Unary | Binary | AtLeastOne | AnyNumber {
    /** The docstring of the c_ method, parsed. */
    function Doc(): (types: seq<ArgType>)
      ensures types != []
      ensures forall i :: 0 <= i < |types| - 1 ==> types[i] != Dots
    {
      match this
      case Def => [SymbolArg, CodeArg, CodeArg]
      case Set => [SymbolArg, ValueArg]
      case Defvar => [SymbolArg, ValueArg]
      case Let => [CodeArg, CodeArg, Dots]
      case With => [SymbolArg, SymbolArg, CodeArg]
      case If => [ValueArg, CodeArg, CodeArg]
      case Unary => [ValueArg]
      case Binary => [ValueArg, ValueArg]
      case AtLeastOne => [ValueArg, Dots]
      case AnyNumber => [Dots]
    }
  }

  /** What the evaluator is given: its tables, the value-level builtins (arithmetic, comparison,
      logic), and everything that belongs to Python or to the world. */
  datatype Env<!W> = Env(
    operators: map<string, string>,
    builtins: map<string, Builtin>,
    primitive: (string, seq<Value>) -> Option<Value>,
    number: Token -> Option<Value>,
    truthy: Value -> bool,
    iterate: Value -> Option<seq<Value>>,
    attribute: (W, Value, string) -> Option<Value>,
    call: (Value, seq<Value>, W) -> (Option<Value>, W))

  // ----- the variable stack -----

  /** name.split('.')[0] */
  function Base(name: string): string {
    if name == "" || name[0] == '.' then "" else [name[0]] + Base(name[1..])
  }

  /** name.split('.')[1], if there is one. */
  function Member(name: string): Option<string> {
    if name == "" then None
    else if name[0] == '.' then Some(Base(name[1..]))
    else Member(name[1..])
  }

  /** The innermost binding; a binding whose value lacks the wanted attribute is passed over. */
  function Get<W>(env: Env<W>, world: W, stack: seq<Scope>, name: string): Option<Value> {
    if stack == [] then None
    else if Base(name) in stack[0] then
      match Member(name)
      case None => Some(stack[0][Base(name)])
      case Some(a) =>
        (match env.attribute(world, stack[0][Base(name)], a)
         case Some(v) => Some(v)
         case None => Get(env, world, stack[1..], name))
    else Get(env, world, stack[1..], name)
  }

  /** Assign to the innermost scope that knows the name. */
  function Assign(stack: seq<Scope>, name: string, v: Value): (r: Option<seq<Scope>>)
    ensures r.Some? ==> |r.value| == |stack|
  {
    if stack == [] then None
    else if name in stack[0] then Some([stack[0][name := v]] + stack[1..])
    else
      match Assign(stack[1..], name, v)
      case None => None
      case Some(rest) => Some([stack[0]] + rest)
  }

  /** Bind in the innermost scope, unless the name is bound there already. */
  function Alloc(stack: seq<Scope>, name: string, v: Value): seq<Scope>
    requires stack != []
  {
    if name in stack[0] then stack else [stack[0][name := v]] + stack[1..]
  }

  function Push(stack: seq<Scope>): seq<Scope> {
    [map[]] + stack
  }

  // ----- evaluation, one layer -----

  /** How the parts of an expression are evaluated. */
  type Ev<!W> = (Ast, State<W>) -> Res<Value, W>

  /** Formatting a message with %d fails when there is no line number. */
  function RaiseAt(line: Option<int>): Error {
    if line.Some? then PolicyError else OtherException
  }

  function Unquote(s: string): string {
    if |s| < 2 then "" else s[1..|s| - 1]
  }

  function EvalToken<W>(env: Env<W>, tok: Token, st: State<W>): Res<Value, W> {
    match tok.kind
    case Number =>
      (match env.number(tok)
       case Some(v) => Ok(v, st)
       case None => Err(OtherException, st))
    case Str => Ok(Text(Unquote(tok.value)), st)
    case Sym =>
      if tok.value == "nil" then Ok(NoneValue, st)
      else
        (match Get(env, st.world, st.stack, tok.value)
         case Some(v) => Ok(v, st)
         case None => Err(RaiseAt(tok.line), st))
    case _ => Err(RaiseAt(tok.line), st)
  }

  /** map(self.eval, items) */
  function EvalList<W>(ev: Ev<W>, items: seq<Ast>, st: State<W>): (r: Res<seq<Value>, W>)
    ensures r.Ok? ==> |r.value| == |items|
  {
    if items == [] then Ok([], st)
    else
      match ev(items[0], st)
      case Err(e, st1) => Err(e, st1)
      case Ok(v, st1) =>
        match EvalList(ev, items[1..], st1)
        case Err(e, st2) => Err(e, st2)
        case Ok(vs, st2) => Ok([v] + vs, st2)
  }

  /** An argument after dispatch. */
  datatype Arg = Name(name: string) | Val(value: Value) | Code(code: Ast)

  /** The declared type of argument i: the last named type repeats under '...'. */
  function TypeAt(types: seq<ArgType>, i: nat): ArgType
    requires types != []
    requires i < |types| || types[|types| - 1] == Dots
  {
    if types[|types| - 1] != Dots then types[i]
    else if |types| == 1 then Dots
    else if i < |types| - 1 then types[i] else types[|types| - 2]
  }

  predicate ArityOk(types: seq<ArgType>, n: nat)
    requires types != []
  {
    if types[|types| - 1] == Dots then n >= |types| - 1 else n == |types|
  }

  function ConvertArg<W>(ev: Ev<W>, t: ArgType, arg: Ast, line: Option<int>, st: State<W>): Res<Arg, W> {
    match t
    case CodeArg => Ok(Code(arg), st)
    case SymbolArg =>
      if arg.Atom? && arg.tok.kind == Sym then Ok(Name(arg.tok.value), st) else Err(RaiseAt(line), st)
    case _ =>
      match ev(arg, st)
      case Ok(v, st1) => Ok(Val(v), st1)
      case Err(e, st1) => Err(e, st1)
  }

  function ConvertArgs<W>(ev: Ev<W>, types: seq<ArgType>, args: seq<Ast>, i: nat, line: Option<int>, st: State<W>)
    : (r: Res<seq<Arg>, W>)
    requires types != [] && i <= |args| && ArityOk(types, |args|)
    ensures r.Ok? ==> |r.value| == |args| - i
    decreases |args| - i
  {
    if i == |args| then Ok([], st)
    else
      match ConvertArg(ev, TypeAt(types, i), args[i], line, st)
      case Err(e, st1) => Err(e, st1)
      case Ok(a, st1) =>
        match ConvertArgs(ev, types, args, i + 1, line, st1)
        case Err(e, st2) => Err(e, st2)
        case Ok(as_, st2) => Ok([a] + as_, st2)
  }

  /** The bindings of a let: each value is evaluated with the earlier ones in place. */
  function BindAll<W>(ev: Ev<W>, syms: seq<Ast>, st: State<W>): Res<(), W> {
    if syms == [] then Ok((), st)
    else if !syms[0].Lst? || |syms[0].items| != 2 then Err(PolicyError, st)
    else
      var name, value := syms[0].items[0], syms[0].items[1];
      if !name.Atom? then Err(OtherException, st)
      else if name.tok.kind != Sym then Err(PolicyError, st)
      else
        match ev(value, st)
        case Err(e, st1) => Err(e, st1)
        case Ok(v, st1) =>
          if st1.stack == [] then Err(OtherException, st1)
          else BindAll(ev, syms[1..], st1.(stack := Alloc(st1.stack, name.tok.value, v)))
  }

  /** Leave the innermost scope. */
  function Leave<T, W>(v: T, st: State<W>): Res<T, W> {
    Ok(v, st.(stack := if st.stack == [] then [] else st.stack[1..]))
  }

  function EvalLet<W>(ev: Ev<W>, syms: Ast, code: seq<Ast>, st: State<W>): Res<Value, W> {
    if !syms.Lst? then Err(PolicyError, st)
    else
      match BindAll(ev, syms.items, st.(stack := Push(st.stack)))
      case Err(e, st1) => Err(e, st1)
      case Ok(_, st1) =>
        match EvalList(ev, code, st1)
        case Err(e, st2) => Err(e, st2)
        case Ok(vs, st2) => if vs == [] then Err(OtherException, st2) else Leave(vs[|vs| - 1], st2)
  }

  function EvalWithLoop<W>(ev: Ev<W>, items: seq<Value>, iterator_: string, code: Ast,
      st: State<W>): Res<seq<Value>, W> {
    if items == [] then Ok([], st)
    else
      match ev(code, st.(stack := [map[iterator_ := items[0]]] + st.stack))
      case Err(e, st1) => Err(e, st1)
      case Ok(v, st1) =>
        match EvalWithLoop(ev, items[1..], iterator_, code, Leave(v, st1).st)
        case Err(e, st2) => Err(e, st2)
        case Ok(vs, st2) => Ok([v] + vs, st2)
  }

  function EvalWithForm<W>(env: Env<W>, ev: Ev<W>, iterable: string, iterator_: string, code: Ast, st: State<W>)
    : Res<Value, W>
  {
    // an undefined iterable is reported without a line number
    match Get(env, st.world, st.stack, iterable)
    case None => Err(OtherException, st)
    case Some(v) =>
      match env.iterate(v)
      case None => Err(OtherException, st)
      case Some(items) =>
        match EvalWithLoop(ev, items, iterator_, code, st)
        case Err(e, st1) => Err(e, st1)
        case Ok(vs, st1) => Ok(ListOf(vs), st1)
  }

  function Values(args: seq<Arg>): seq<Value> {
    seq(|args|, i requires 0 <= i < |args| => if args[i].Val? then args[i].value else NoneValue)
  }

  function Codes(args: seq<Arg>): seq<Ast> {
    seq(|args|, i requires 0 <= i < |args| => if args[i].Code? then args[i].code else Lst([]))
  }

  /** The bodies of the c_ methods, on converted arguments. */
  function Invoke<W>(env: Env<W>, ev: Ev<W>, name: string, b: Builtin, args: seq<Arg>, st: State<W>): Res<Value, W> {
    match b
    case Def =>
      if |args| == 3 && args[0].Name? && args[1].Code? && args[2].Code? then
        Ok(Text(args[0].name), st.(funcs := st.funcs[args[0].name := (args[1].code, args[2].code)]))
      else Err(OtherException, st)
    case Set =>
      if |args| == 2 && args[0].Name? && args[1].Val? then
        (match Assign(st.stack, args[0].name, args[1].value)
         case Some(stack) => Ok(args[1].value, st.(stack := stack))
         case None => Err(PolicyError, st))
      else Err(OtherException, st)
    case Defvar =>
      if |args| == 2 && args[0].Name? && args[1].Val? && st.stack != [] then
        var stack := Alloc(st.stack, args[0].name, args[1].value);
        Ok(stack[0][args[0].name], st.(stack := stack))
      else Err(OtherException, st)
    case Let =>
      if |args| >= 1 && args[0].Code? then EvalLet(ev, args[0].code, Codes(args[1..]), st)
      else Err(OtherException, st)
    case With =>
      if |args| == 3 && args[0].Name? && args[1].Name? && args[2].Code? then
        EvalWithForm(env, ev, args[0].name, args[1].name, args[2].code, st)
      else Err(OtherException, st)
    case If =>
      if |args| == 3 && args[0].Val? && args[1].Code? && args[2].Code? then
        ev(if env.truthy(args[0].value) then args[1].code else args[2].code, st)
      else Err(OtherException, st)
    case _ =>
      match env.primitive(name, Values(args))
      case Some(v) => Ok(v, st)
      case None => Err(OtherException, st)
  }

  function Dispatch<W>(env: Env<W>, ev: Ev<W>, name: string, b: Builtin, args: seq<Ast>, line: Option<int>,
      st: State<W>)
    : Res<Value, W>
  {
    if !ArityOk(b.Doc(), |args|) then Err(RaiseAt(line), st)
    else
      match ConvertArgs(ev, b.Doc(), args, 0, line, st)
      case Err(e, st1) => Err(e, st1)
      case Ok(converted, st1) => Invoke(env, ev, name, b, converted, st1)
  }

  const LET_TOKEN := Token(Sym, "let", "", None)

  function Pairs(params: seq<Ast>, args: seq<Ast>): seq<Ast>
    requires |params| == |args|
  {
    seq(|params|, i requires 0 <= i < |params| => Lst([params[i], args[i]]))
  }

  /** A user call, rewritten into a let over its arguments. */
  function LetForm(params: seq<Ast>, args: seq<Ast>, body: Ast): Ast
    requires |params| == |args|
  {
    Lst([Atom(LET_TOKEN), Lst(Pairs(params, args)), body])
  }

  function Default<W>(ev: Ev<W>, name: string, args: seq<Ast>, line: Option<int>, st: State<W>): Res<Value, W> {
    if name == "eval" then
      match EvalList(ev, args, st)
      case Err(e, st1) => Err(e, st1)
      case Ok(vs, st1) => if vs == [] then Err(OtherException, st1) else Ok(vs[|vs| - 1], st1)
    else if name !in st.funcs then Err(OtherException, st)
    else
      var (params, body) := st.funcs[name];
      if !params.Lst? then Err(OtherException, st)
      else if |params.items| != |args| then Err(RaiseAt(line), st)
      else ev(LetForm(params.items, args, body), st)
  }

  /** The function name a list form starts with. */
  function HeadName<W>(env: Env<W>, node: Token): Option<string> {
    if node.kind == Sym then Some(node.value)
    else if node.kind == Operator && node.value in env.operators then Some(env.operators[node.value])
    else None
  }

  function HeadError(node: Token): Error {
    // an operator missing from the table is a failed dictionary lookup
    if node.kind == Operator then OtherException else RaiseAt(node.line)
  }

  function EvalForm<W>(env: Env<W>, ev: Ev<W>, name: string, args: seq<Ast>, line: Option<int>,
      st: State<W>): Res<Value, W> {
    var f := Get(env, st.world, st.stack, name);
    if f.Some? && f.value != NoneValue then
      match EvalList(ev, args, st)
      case Err(e, st1) => Err(e, st1)
      case Ok(vs, st1) =>
        var (r, world) := env.call(f.value, vs, st1.world);
        if r.Some? then Ok(r.value, st1.(world := world)) else Err(OtherException, st1.(world := world))
    else if name in env.builtins then Dispatch(env, ev, name, env.builtins[name], args, line, st)
    else Default(ev, name, args, line, st)
  }

  function EvalLayer<W>(env: Env<W>, ev: Ev<W>, code: Ast, st: State<W>): Res<Value, W> {
    match code
    case Atom(tok) => EvalToken(env, tok, st)
    case Lst(items) =>
      if items == [] then Err(OtherException, st)
      else if items[0].Lst? then Err(PolicyError, st)
      else
        var node := items[0].tok;
        match HeadName(env, node)
        case None => Err(HeadError(node), st)
        case Some(name) => EvalForm(env, ev, name, items[1..], node.line, st)
  }

  /** Evaluation with a bound on the nesting of calls to eval. */
  function Eval<W>(env: Env<W>, fuel: nat, code: Ast, st: State<W>): Res<Value, W>
    decreases fuel, 0
  {
    if fuel == 0 then Err(NoFuel, st) else EvalLayer(env, Evaluator(env, fuel - 1), code, st)
  }

  function Evaluator<W>(env: Env<W>, fuel: nat): Ev<W>
    decreases fuel, 1
  {
    (code, st) => Eval(env, fuel, code, st)
  }

  // ----- a list evaluated part of the way -----

  function After<T, W>(done: seq<T>, r: Res<seq<T>, W>): Res<seq<T>, W> {
    match r
    case Ok(vs, st) => Ok(done + vs, st)
    case Err(e, st) => Err(e, st)
  }

  lemma {:induction false} AfterStep<T, W>(done: seq<T>, v: T, r: Res<seq<T>, W>)
    ensures After(done, After([v], r)) == After(done + [v], r)
  {
    if r.Ok? { assert done + ([v] + r.value) == (done + [v]) + r.value; }
  }

  lemma {:induction false} AfterStart<T, W>(r: Res<seq<T>, W>)
    ensures After([], r) == r
  {
    if r.Ok? { assert [] + r.value == r.value; }
  }

  lemma {:induction false} AfterEnd<T, W>(done: seq<T>, st: State<W>)
    ensures After(done, Ok([], st)) == Ok(done, st)
  {
    assert done + [] == done;
  }

  lemma {:induction false} ConvertStep<W>(ev: Ev<W>, doc: seq<ArgType>, args: seq<Ast>, i: nat, line: Option<int>,
      st: State<W>)
    requires doc != [] && i < |args| && ArityOk(doc, |args|)
    ensures ConvertArgs(ev, doc, args, i, line, st) ==
            match ConvertArg(ev, TypeAt(doc, i), args[i], line, st)
            case Err(e, st1) => Err(e, st1)
            case Ok(a, st1) => After([a], ConvertArgs(ev, doc, args, i + 1, line, st1))
  {
  }

  // ----- the tables of the policy evaluator -----

  const OPERATORS: map<string, string> := map[
    "+" := "add", "-" := "sub", "*" := "mul", "/" := "div",
    "<" := "lt", ">" := "gt", "<=" := "lte", ">=" := "gte",
    "<<" := "shl", ">>" := "shr", "==" := "eq", "!=" := "neq",
    "and" := "and", "or" := "or", "not" := "not",
    "min" := "min", "max" := "max", "null" := "null", "valid" := "valid"]

  const BUILTINS: map<string, Builtin> := map[
    "def" := Def, "defun" := Def, "set" := Set, "setq" := Set, "defvar" := Defvar,
    "let" := Let, "with" := With, "if" := If,
    "add" := Binary, "sub" := Binary, "mul" := Binary, "div" := Binary,
    "lt" := Binary, "gt" := Binary, "lte" := Binary, "gte" := Binary,
    "eq" := Binary, "neq" := Binary, "shl" := Binary, "shr" := Binary,
    "and" := AtLeastOne, "or" := AtLeastOne, "not" := Unary,
    "min" := AtLeastOne, "max" := AtLeastOne, "null" := AnyNumber, "valid" := AnyNumber]

  /** An operator always names a value-level builtin, never a form with unevaluated arguments and
      never a user function. */
  lemma {:induction false} OperatorsAreValueBuiltins(op: string)
    requires op in OPERATORS
    ensures OPERATORS[op] in BUILTINS
    ensures var b := BUILTINS[OPERATORS[op]]; b.Unary? || b.Binary? || b.AtLeastOne? || b.AnyNumber?
  {
  }

  /** What the theorems about user calls ask of the table: let is the let, and eval is no builtin. */
  lemma {:induction false} PolicyBuiltins()
    ensures "let" in BUILTINS && BUILTINS["let"] == Let && "eval" !in BUILTINS
  {
  }
}
