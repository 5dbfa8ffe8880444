/** The store of named policy programs and the code compiled from all of them. */
module PolicyStore {
  import opened Options
  import opened Grammars
  import opened PolicySyntax
  import opened PolicyReader
  import PolicyParser
  import Strings
  import Evaluation
  import Interpreter

  /** The scanner: tokens, or a failure that is not a policy error. */
  type Scanner = string -> Option<seq<Token>>

  datatype Compiled = Code(code: seq<Ast>) | Rejected | Crashed

  /** get_code: a syntax error is a policy error; a text without tokens, or one that cannot be
      scanned, is something else. */
  function Compile(scan: Scanner, text: string): Compiled {
    match scan(text)
    case None => Crashed
    case Some(toks) =>
      if toks == [] then Crashed
      else match Read(toks) case Some(code) => Code(code) case None => Rejected
  }

  method GetCode(scan: Scanner, text: string) returns (r: Compiled)
    ensures r == Compile(scan, text)
  {
    var toks := scan(text);
    if toks.None? {
      return Crashed;
    }
    var parsed := PolicyParser.ParsePolicy(toks.value);
    match parsed {
      case Built(value) => r := Code(Items(value));
      case SyntaxError(_) => r := Rejected;
      case LookupError => r := Crashed;
    }
  }

  const DEFAULT_POLICY_NAME := "50_main_"

  /** '\n'.join(parts) */
  function JoinLines(parts: seq<string>): string {
    if parts == [] then ""
    else if |parts| == 1 then parts[0]
    else parts[0] + "\n" + JoinLines(parts[1..])
  }

  /** Where part i begins in the joined text: after the parts before it and a line end for each of them. */
  function Beginning(parts: seq<string>, i: nat): nat
    requires i <= |parts|
  {
    if i == 0 then 0 else |parts[0]| + 1 + Beginning(parts[1..], i - 1)
  }

  ghost predicate PartAt(parts: seq<string>, text: string, i: nat)
    requires i < |parts|
  {
    var from := Beginning(parts, i);
    && from + |parts[i]| <= |text| && text[from..from + |parts[i]|] == parts[i]
    && (i > 0 ==> from > 0 && text[from - 1] == '\n')
  }

  /** The joined text is the parts in order, one line end between two of them, and nothing else. */
  lemma {:induction false} JoinedByLineEnds(parts: seq<string>)
    requires parts != []
    ensures |JoinLines(parts)| + 1 == Beginning(parts, |parts|)
    ensures forall i :: 0 <= i < |parts| ==> PartAt(parts, JoinLines(parts), i)
  {
    var text := JoinLines(parts);
    if |parts| == 1 {
      assert Beginning(parts[1..], 0) == 0;
    } else {
      var rest := JoinLines(parts[1..]);
      JoinedByLineEnds(parts[1..]);
      forall i | 0 <= i < |parts|
        ensures PartAt(parts, text, i)
      {
        if i > 0 {
          assert PartAt(parts[1..], rest, i - 1);
          PartInRest(parts[0], rest, Beginning(parts[1..], i - 1), |parts[i]|);
        }
      }
    }
  }

  lemma {:induction false} PartInRest(first: string, rest: string, from: nat, length: nat)
    requires from + length <= |rest|
    ensures var text := first + "\n" + rest; var at := |first| + 1 + from;
            && text[at..at + length] == rest[from..from + length]
            && text[at - 1] == if from == 0 then '\n' else rest[from - 1]
  {
  }

  function Texts(strings: map<string, string>, keys: seq<string>): seq<string>
    requires forall k :: k in keys ==> k in strings
  {
    seq(|keys|, i requires 0 <= i < |keys| => strings[keys[i]])
  }

  /** All policies in name order; "0" stands in for an empty text. */
  ghost function Concatenated(strings: map<string, string>): string {
    Strings.SortedIsSorted(strings.Keys);
    var text := JoinLines(Texts(strings, Strings.Sorted(strings.Keys)));
    if text == "" then "0" else text
  }

  /** There is no policy, or a single one without text. */
  ghost predicate Blank(strings: map<string, string>) {
    |strings| <= 1 && forall name :: name in strings ==> strings[name] == ""
  }

  /** What is compiled are the policies' texts in name order, one line end between two of them. */
  lemma {:induction false} TextsInNameOrder(strings: map<string, string>)
    ensures var names, text := Strings.Sorted(strings.Keys), Concatenated(strings);
            && |names| == |strings| && (forall k :: k in names <==> k in strings)
            && (forall i, j :: 0 <= i < j < |names| ==> Strings.Less(names[i], names[j]))
            && if Blank(strings) then text == "0"
               else
                 var parts := seq(|names|, i requires 0 <= i < |names| => strings[names[i]]);
                 |text| + 1 == Beginning(parts, |parts|) && forall i :: 0 <= i < |parts| ==> PartAt(parts, text, i)
  {
    Strings.SortedIsSorted(strings.Keys);
    var names := Strings.Sorted(strings.Keys);
    var parts := Texts(strings, names);
    if names != [] {
      JoinedByLineEnds(parts);
      BlankIsEmpty(parts);
      assert names[0] in strings;
      assert Blank(strings) <==> |parts| == 1 && parts[0] == "";
    } else {
      assert strings == map[];
    }
  }

  lemma {:induction false} BlankIsEmpty(parts: seq<string>)
    requires parts != []
    ensures JoinLines(parts) == "" <==> |parts| == 1 && parts[0] == ""
  {
  }

  datatype Request = SetPolicy(name: Option<string>, text: Option<string>) | ClearPolicy

  datatype Reply = Loaded | NotLoaded | Exception

  datatype Store = Store(strings: map<string, string>, code: seq<Ast>)

  /** The named policies after a request that nothing refuses. */
  function Updated(strings: map<string, string>, name: Option<string>, text: Option<string>): map<string, string> {
    var key := if name.Some? then name.value else DEFAULT_POLICY_NAME;
    if text.Some? then strings[key := text.value] else strings - {key}
  }

  /** The text now stands under that name, or nothing does if there is no text; every other name has the text
      it had. */
  ghost predicate TakesEffect(before: map<string, string>, name: string, text: Option<string>,
      after: map<string, string>) {
    && TextOf(after, name) == text
    && forall other :: other != name ==> TextOf(after, other) == TextOf(before, other)
  }

  function TextOf(strings: map<string, string>, name: string): Option<string> {
    if name in strings then Some(strings[name]) else None
  }

  /** No name means the main policy. */
  lemma {:induction false} UpdateTakesEffect(strings: map<string, string>, name: Option<string>, text: Option<string>)
    ensures TakesEffect(strings, if name.Some? then name.value else "50_main_", text, Updated(strings, name, text))
  {
  }

  /** The code belongs to the strings: it is their concatenation's, or both were just cleared. */
  ghost predicate Consistent(scan: Scanner, s: Store) {
    s == Store(map[], []) || Compile(scan, Concatenated(s.strings)) == Code(s.code)
  }

  /** What requests can leave behind: the code of the strings, or, after an exception, strings
      that cannot be compiled beside some older code. */
  ghost predicate Sound(scan: Scanner, s: Store) {
    Consistent(scan, s) || Compile(scan, Concatenated(s.strings)) == Crashed
  }

  /** The text used for an empty store is a program. */
  ghost predicate ZeroParses(scan: Scanner) {
    Compile(scan, "0").Code?
  }

  /** One request: it takes effect as a whole, or is refused as a whole; or compiling fails with
      something other than a policy error, and the new strings stay beside the old code. */
  ghost function Step(scan: Scanner, s: Store, q: Request): (Store, Reply) {
    match q
    case ClearPolicy => (Store(map[], []), Loaded)
    case SetPolicy(name, text) =>
      var wanted := Updated(s.strings, name, text);
      match Compile(scan, Concatenated(wanted))
      case Code(c) => (Store(wanted, c), Loaded)
      case Rejected => (s, NotLoaded)
      case Crashed => (Store(wanted, s.code), Exception)
  }

  class Policy {
    const scan: Scanner
    var strings: map<string, string>
    var code: seq<Ast>

    constructor (scan: Scanner)
      ensures this.scan == scan && Current() == Store(map[], [])
    {
      this.scan := scan;
      strings, code := map[], [];
    }

    ghost function Current(): Store
      reads this
    {
      Store(strings, code)
    }

    method CatPolicies() returns (text: string)
      ensures text == Concatenated(strings)
    {
      var keys := Strings.Sort(strings.Keys);
      Strings.SortedIsSorted(strings.Keys);
      text := JoinLines(Texts(strings, keys));
      if text == "" {
        text := "0";
      }
    }

    /** Setting or deleting one policy is all or nothing, unless compiling fails with something
        other than a policy error: then the new strings stay beside the old code. No reachable
        store gets to the rollback that would delete a missing key. */
    method Set(name: Option<string>, text: Option<string>) returns (reply: Reply)
      requires ZeroParses(scan) && Sound(scan, Current())
      modifies this
      ensures (Current(), reply) == Step(scan, old(Current()), SetPolicy(name, text))
      ensures Sound(scan, Current())
      ensures reply == Loaded ==> Consistent(scan, Current())
      ensures reply == NotLoaded ==> Current() == old(Current())
      ensures reply == Exception ==> !Consistent(scan, Current())
      ensures reply != NotLoaded ==>
                TakesEffect(old(strings), if name.Some? then name.value else "50_main_", text, strings)
    {
      var key := if name.Some? then name.value else DEFAULT_POLICY_NAME;
      var oldText: Option<string> := if key in strings then Some(strings[key]) else None;
      if text.None? {
        strings := strings - {key};
      } else {
        strings := strings[key := text.value];
      }
      StepConsistent(scan, old(Current()), SetPolicy(name, text));
      assert strings == Updated(old(strings), name, text);
      var whole := CatPolicies();
      var compiled := GetCode(scan, whole);
      match compiled {
        case Code(c) =>
          code := c;
          UpdateTakesEffect(old(strings), name, text);
          return Loaded;
        case Rejected =>
          RolledBack(scan, old(Current()), name, text);
          if oldText.None? {
            assert key in strings;
            strings := strings - {key};
          } else {
            strings := strings[key := oldText.value];
          }
          return NotLoaded;
        case Crashed =>
          UpdateTakesEffect(old(strings), name, text);
          return Exception;
      }
    }

    method Clear()
      modifies this
      ensures Current() == Store(map[], []) && Consistent(scan, Current())
    {
      strings, code := map[], [];
    }

    /** Run the compiled code in a fresh evaluator; any error makes the round fail, but not undone. */
    method Evaluate<W(!new)>(env: Evaluation.Env<W>, externs: Evaluation.Scope, host: Evaluation.Value,
        guests: Evaluation.Value, world: W, fuel: nat) returns (ok: bool, world': W)
      ensures var scope := AddedTo(AddedTo(externs, "Host", host), "Guests", guests);
              var start := Evaluation.State([scope], map[], world);
              var r := Evaluation.EvalList(Evaluation.Evaluator(env, fuel), code, start);
              ok == r.Ok? && world' == r.st.world
    {
      var evaluator := new Interpreter.PolicyEvaluator(env, externs, world);
      var _ := evaluator.vars.Allocate("Host", host);
      assert evaluator.vars.stack == [AddedTo(externs, "Host", host)];
      var _ := evaluator.vars.Allocate("Guests", guests);
      assert evaluator.vars.stack == [AddedTo(AddedTo(externs, "Host", host), "Guests", guests)];
      var results := evaluator.EvalItems(code, fuel);
      return results.Returned?, evaluator.world;
    }
  }

  function AddedTo(scope: Evaluation.Scope, name: string, v: Evaluation.Value): Evaluation.Scope {
    if name in scope then scope else scope[name := v]
  }

  lemma {:induction false} EmptyIsZero()
    ensures Concatenated(map[]) == "0"
  {
  }

  /** Undoing a rejected request restores the old strings: putting back the old text if there
      was one, and else removing the key, which is then certain to be there. */
  lemma {:induction false} RolledBack(scan: Scanner, s: Store, name: Option<string>, text: Option<string>)
    requires ZeroParses(scan) && Sound(scan, s)
    requires Compile(scan, Concatenated(Updated(s.strings, name, text))) == Rejected
    ensures var key := if name.Some? then name.value else DEFAULT_POLICY_NAME;
            var wanted := Updated(s.strings, name, text);
            if key in s.strings then wanted[key := s.strings[key]] == s.strings
            else key in wanted && wanted - {key} == s.strings
  {
    EmptyIsZero();
    var key := if name.Some? then name.value else DEFAULT_POLICY_NAME;
    if key !in s.strings {
      // deleting a policy that is not there leaves a text that is not rejected
      assert s.strings - {key} == s.strings;
    }
  }

  lemma {:induction false} CrashedNotEmpty(scan: Scanner, strings: map<string, string>)
    requires ZeroParses(scan) && Compile(scan, Concatenated(strings)) == Crashed
    ensures strings != map[]
  {
    EmptyIsZero();
  }

  // ----- runs of requests -----

  ghost function Run(scan: Scanner, s: Store, qs: seq<Request>): (Store, seq<Reply>)
    decreases |qs|
  {
    if qs == [] then (s, [])
    else
      var (s1, r) := Step(scan, s, qs[0]);
      var (s2, rs) := Run(scan, s1, qs[1..]);
      (s2, [r] + rs)
  }

  /** A request leaves the store consistent, and an inconsistent one is mended by the next
      request that loads or clears. */
  lemma {:induction false} StepConsistent(scan: Scanner, s: Store, q: Request)
    requires ZeroParses(scan)
    ensures Sound(scan, s) ==> Sound(scan, Step(scan, s, q).0)
    ensures var (s', r) := Step(scan, s, q);
            && (r == Loaded ==> Consistent(scan, s'))
            && (r == NotLoaded ==> s' == s)
            && (r == Exception ==> !Consistent(scan, s'))
  {
    if q.SetPolicy? {
      var wanted := Updated(s.strings, q.name, q.text);
      if Compile(scan, Concatenated(wanted)) == Crashed { CrashedNotEmpty(scan, wanted); }
    }
  }

  // ----- the text under a name -----

  /** The request is about that name. */
  predicate About(q: Request, name: string) {
    q.ClearPolicy? || name == (if q.name.Some? then q.name.value else "50_main_")
  }

  /** The text the request wants under a name it is about. */
  function Wanted(q: Request): Option<string> {
    match q
    case SetPolicy(_, text) => text
    case ClearPolicy => None
  }

  /** Request k is about the name and is not refused. */
  ghost predicate Settles(qs: seq<Request>, replies: seq<Reply>, name: string, k: int) {
    0 <= k < |qs| && k < |replies| && About(qs[k], name) && replies[k] != NotLoaded
  }

  ghost predicate SettlesLast(qs: seq<Request>, replies: seq<Reply>, name: string, k: int) {
    Settles(qs, replies, name, k) && forall j :: Settles(qs, replies, name, j) ==> j <= k
  }

  ghost predicate NothingSettles(qs: seq<Request>, replies: seq<Reply>, name: string) {
    forall j :: !Settles(qs, replies, name, j)
  }

  /** After any run of requests the text under a name is that of the last request about it that was not
      refused, and none if that request deleted or cleared it; without such a request it is what it was. */
  lemma {:induction false} TextIsLastRequest(scan: Scanner, s: Store, qs: seq<Request>, name: string)
    ensures var (s', replies) := Run(scan, s, qs);
            && |replies| == |qs|
            && (forall k :: SettlesLast(qs, replies, name, k) ==> TextOf(s'.strings, name) == Wanted(qs[k]))
            && (NothingSettles(qs, replies, name) ==> TextOf(s'.strings, name) == TextOf(s.strings, name))
    decreases |qs|
  {
    if qs != [] {
      var (s1, reply) := Step(scan, s, qs[0]);
      var rest := qs[1..];
      TextAfterStep(scan, s, qs[0], name);
      TextIsLastRequest(scan, s1, rest, name);
      var (s', replies) := Run(scan, s1, rest);
      assert qs == [qs[0]] + rest;
      SettlesLater(qs[0], reply, rest, replies, name);
    }
  }

  lemma {:induction false} SettlesLater(q: Request, reply: Reply, rest: seq<Request>, replies: seq<Reply>,
      name: string)
    requires |rest| == |replies|
    ensures var (qs, all) := ([q] + rest, [reply] + replies); var first := About(q, name) && reply != NotLoaded;
            && (NothingSettles(qs, all, name) <==> NothingSettles(rest, replies, name) && !first)
            && (forall k :: SettlesLast(qs, all, name, k) ==>
                  if k == 0 then first && NothingSettles(rest, replies, name)
                  else SettlesLast(rest, replies, name, k - 1) && qs[k] == rest[k - 1])
  {
    var qs, all := [q] + rest, [reply] + replies;
    assert forall j :: Settles(rest, replies, name, j) ==> Settles(qs, all, name, j + 1);
    assert forall j :: j > 0 && Settles(qs, all, name, j) ==> Settles(rest, replies, name, j - 1);
    assert Settles(qs, all, name, 0) <==> About(q, name) && reply != NotLoaded;
  }

  lemma {:induction false} TextAfterStep(scan: Scanner, s: Store, q: Request, name: string)
    ensures var (s', reply) := Step(scan, s, q);
            TextOf(s'.strings, name) ==
            if About(q, name) && reply != NotLoaded then Wanted(q) else TextOf(s.strings, name)
  {
    if q.SetPolicy? { UpdateTakesEffect(s.strings, q.name, q.text); }
  }

  // ----- consistency, seen from the texts -----

  /** The text can be scanned, and has tokens. */
  predicate Scannable(scan: Scanner, text: string) {
    scan(text).Some? && scan(text).value != []
  }

  /** How a request is answered, before it is made: an exception if and only if the text that would
      stand cannot be scanned or has no tokens, and a refusal if and only if its tokens are no program. */
  lemma {:induction false} ReplyIff(scan: Scanner, s: Store, name: Option<string>, text: Option<string>)
    ensures var whole := Concatenated(Updated(s.strings, name, text));
            var reply := Step(scan, s, SetPolicy(name, text)).1;
            && (reply == Exception <==> !Scannable(scan, whole))
            && (reply == NotLoaded <==> Scannable(scan, whole) && Read(scan(whole).value).None?)
  {
  }

  /** In a reachable store, code and texts belong together if and only if the texts can be scanned
      and have tokens. */
  lemma {:induction false} ConsistentIff(scan: Scanner, s: Store)
    requires ZeroParses(scan) && Sound(scan, s)
    ensures Consistent(scan, s) <==> Scannable(scan, Concatenated(s.strings))
  {
    EmptyIsZero();
  }

  /** The texts that stand after a request, by the texts that stood before it. */
  ghost function TextsAfter(scan: Scanner, strings: map<string, string>, q: Request): map<string, string> {
    match q
    case ClearPolicy => map[]
    case SetPolicy(name, text) =>
      var wanted := Updated(strings, name, text);
      var whole := Concatenated(wanted);
      if Scannable(scan, whole) && Read(scan(whole).value).None? then strings else wanted
  }

  ghost function TextsOfRun(scan: Scanner, strings: map<string, string>, qs: seq<Request>): map<string, string>
    decreases |qs|
  {
    if qs == [] then strings else TextsOfRun(scan, TextsAfter(scan, strings, qs[0]), qs[1..])
  }

  /** After any run of requests, code and texts belong together if and only if the texts that stand
      in the end, by the requests alone, can be scanned and have tokens. */
  lemma {:induction false} RunConsistentIff(scan: Scanner, s: Store, qs: seq<Request>)
    requires ZeroParses(scan) && Sound(scan, s)
    ensures var texts := TextsOfRun(scan, s.strings, qs); var s' := Run(scan, s, qs).0;
            s'.strings == texts && Sound(scan, s') && (Consistent(scan, s') <==> Scannable(scan, Concatenated(texts)))
    decreases |qs|
  {
    if qs == [] {
      ConsistentIff(scan, s);
    } else {
      StepConsistent(scan, s, qs[0]);
      StepTexts(scan, s, qs[0]);
      RunConsistentIff(scan, Step(scan, s, qs[0]).0, qs[1..]);
    }
  }

  lemma {:induction false} StepTexts(scan: Scanner, s: Store, q: Request)
    ensures Step(scan, s, q).0.strings == TextsAfter(scan, s.strings, q)
  {
  }

  /** A text without tokens is stored although nothing was compiled from it. */
  lemma {:induction false} TokenFreePolicySticks(scan: Scanner, name: string, text: string)
    requires ZeroParses(scan) && scan(text) == Some([]) && text != ""
    ensures var (s, r) := Step(scan, Store(map[], []), SetPolicy(Some(name), Some(text)));
            r == Exception && s == Store(map[name := text], []) && !Consistent(scan, s)
  {
    var wanted := map[name := text];
    assert Updated(map[], Some(name), Some(text)) == wanted;
    Strings.SortedIsSorted({name});
    var keys := Strings.Sorted({name});
    assert |keys| == 1 && keys[0] in keys && keys == [name];
    assert Texts(wanted, keys) == [text];
    assert Concatenated(wanted) == text;
  }

  // ----- separately valid policies -----

  function Flatten<T>(parts: seq<seq<T>>): seq<T> {
    if parts == [] then [] else parts[0] + Flatten(parts[1..])
  }

  lemma {:induction false} SeparateProgramsRead(toks: seq<seq<Token>>)
    requires toks != [] && forall i :: 0 <= i < |toks| ==> Read(toks[i]).Some?
    ensures Read(Flatten(toks)) == Some(Flatten(Codes(toks)))
  {
    assert Read(toks[0]).Some?;
    if |toks| == 1 {
      assert toks[1..] == [];
      assert Flatten(toks) == toks[0] + [] == toks[0];
      assert Codes(toks) == [Read(toks[0]).value];
      assert Flatten(Codes(toks)) == Read(toks[0]).value + [] == Read(toks[0]).value;
    } else {
      SeparateProgramsRead(toks[1..]);
      JoinedProgramsRead(toks[0], Flatten(toks[1..]));
      assert Codes(toks) == [Read(toks[0]).value] + Codes(toks[1..]);
    }
  }

  function Codes(toks: seq<seq<Token>>): seq<seq<Ast>>
    requires forall i :: 0 <= i < |toks| ==> Read(toks[i]).Some?
  {
    seq(|toks|, i requires 0 <= i < |toks| => Read(toks[i]).value)
  }

  /** toks[i] is what the i-th policy in name order scans to, and it is a program. */
  ghost predicate InOrder(scan: Scanner, strings: map<string, string>, toks: seq<seq<Token>>, i: nat)
    requires i < |toks| == |Strings.Sorted(strings.Keys)|
  {
    var name := Strings.Sorted(strings.Keys)[i];
    name in strings && scan(strings[name]) == Some(toks[i]) && Read(toks[i]).Some?
  }

  /** Policies that are programs by themselves compile together to their codes, one after the
      other in name order, whenever the scanner does not see across the line ends that join them. */
  lemma {:induction false} NamedPoliciesRunInOrder(scan: Scanner, strings: map<string, string>, toks: seq<seq<Token>>)
    requires strings != map[] && |toks| == |Strings.Sorted(strings.Keys)|
    requires forall i :: 0 <= i < |toks| ==> InOrder(scan, strings, toks, i)
    requires scan(Concatenated(strings)) == Some(Flatten(toks))
    ensures (forall i :: 0 <= i < |toks| ==> Read(toks[i]).Some?)
         && Compile(scan, Concatenated(strings)) == Code(Flatten(Codes(toks)))
  {
    Strings.SortedIsSorted(strings.Keys);
    var some :| some in strings;
    assert some in Strings.Sorted(strings.Keys);
    forall i | 0 <= i < |toks|
      ensures Read(toks[i]).Some?
    {
      assert InOrder(scan, strings, toks, i);
    }
    SeparateProgramsRead(toks);
    NotEmpty(toks);
  }

  lemma {:induction false} NotEmpty(toks: seq<seq<Token>>)
    requires toks != [] && Read(toks[0]).Some?
    ensures Flatten(toks) != []
  {
    assert ReadValues([]) == ([], []);
    assert toks[0] != [];
  }
}
