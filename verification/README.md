# Verified model of the balloon manager's policy pipeline and memory ledger

A memory overcommitment manager runs policies on a host with virtual machines. Policies are
s-expression programs. Each round, the policy engine takes a snapshot of the host and its guests,
evaluates the compiled policy, and hands what the policy asked for to a balloon controller. This
project models the two hard parts of that and proves properties of them.

**The policy language pipeline**

| file | models |
|---|---|
| `Option.dfy` | values that may be missing |
| `Grammar.dfy` | grammars, derivation trees, the language of a grammar, the fold of rule actions over a derivation |
| `Chart.dfy` | Earley charts: the invariant of items and back-pointers, and both directions of recogniser correctness |
| `Recognition.dfy` | what recognition comes to, as functions: turns, passes and charts; every input has a chart, and when it accepts |
| `LostSentences.dfy` | which grammars the recogniser is exact on, and how the others lose sentences |
| `Spark.dfy` | the generic parser: state lists that grow while they are read, the `tree` map, tree building on a shared stack |
| `RuleTable.dfy` | the rule table read off docstrings |
| `PolicySyntax.dfy`, `PolicyReader.dfy`, `PolicyParser.dfy` | the policy grammar, its actions, a simple recursive-descent reader and a printer, and the theorem that chart parsing and simple reading agree |
| `Evaluation.dfy`, `Interpreter.dfy` | what policy code evaluates to, as functions; and the evaluator that updates its variable stack in place, proved against them |
| `EvalLaws.dfy` | what each form of the language comes to, stated on evaluation alone |
| `Dispatching.dfy`, `ScopeFrame.dfy`, `FuelBound.dfy`, `CallByValue.dfy` | what docstrings promise about arguments, what evaluation leaves of the scopes, independence of the nesting bound, when a user call is call by value |
| `PolicyStore.dfy`, `Strings.dfy` | the store of named policies and its compiled code; name order |

**The memory ledger**

| file | models |
|---|---|
| `Policies.dfy` | the ten ballooning policies as decisions about one guest and the shared host-free number |
| `PolicyLaws.dfy` | when each policy sets a target and which, told by what would be in use there |
| `Entities.dfy` | the same as methods on guest entities, the host-free cell, the balloon controller, and a whole round |
| `Bounds.dfy` | guest bounds and overdraft, policy by policy |
| `Ledger.dfy` | rounds and runs of any calls on any number of guests: conservation, non-negativity, bounds, failures |
| `IBalloon.dfy` | the four passes of iBalloon, over one snapshot and over runs |
| `RulesFiles.dfy` | the two halves joined: what the shipped rules files, interpreted, make of the ledger |
| `Monitor.dfy` | merging of collected data and the bounded history of samples |

Numbers: Python floats are exact reals (0.95 is 19/20), and the quotient of two integers is rounded
down as in Python 2. A float converted to an integer is truncated toward zero.

Where a class or a loop changes state step by step, the model is a class or a loop with the same
steps, and each such method is proved equal to a function on values. What the function promises is
then proved about the function. Long bodies are split into several methods. Termination of every
loop and recursion is part of the proof. For tree building it rests on the bound on depth (and that
a linear bound is enough, on the span of an item and the order of unit productions), for state
building on the finite number of items a state can hold.
Dafny's automatic induction is switched off for every lemma, so each induction is written out.

Conditions that recur in the theorems, in the terms of the code:

- A grammar is *valid* if augmentation left it so: one start rule, and the two reserved names used
  nowhere else.
- A scan is a function from text to tokens, and the text `0` must compile: it stands for an empty
  store.
- A run is a sequence of hosts, each the result of a round on the one before, where every snapshot
  shows the size applied last (`Ledger.Trace`). A theorem about host number n of a run speaks of
  every reachable state.
- Something *vanishes* if it derives the empty list. The recogniser is exact on the grammars where
  whatever can vanish has an empty rule of its own, though it may vanish by other rules as well. A
  grammar is *productive* if every nonterminal derives something. The policy grammar is both.
- Tree building runs under a bound on the depth of its calls, as Python's does. Where no nonterminal
  derives itself with nothing beside it, as in the policy grammar, a bound linear in the input is
  enough.
- A plan is the snapshots of one round and the calls the rules make on them, in order: one for each
  guest in most rules files, four for each in iBalloon's. A call is *answerable* if its snapshot has
  the samples, the average and the references it divides by.
- A call is *safe* if sizes and used memory are not negative, and the step and reference policies
  get steps and references that meet the conditions of the bounds theorems.
- A guest is *on an edge* if its used fraction is exactly 3/10 or 9/10, where two passes of iBalloon
  both act.

Where the code does something other than one might expect, the model follows the code:

- Rejecting the empty token list fails in looking up the token to blame, with an IndexError instead
  of a syntax error (balloon_system/mom/Policy/spark.py:207-209). A policy without tokens is
  therefore not refused but stored, beside the old code (`PolicyStore.TokenFreePolicySticks`).
- A text that cannot be scanned ends in a TypeError, since the handler for it is called with one
  argument too many (balloon_system/mom/Policy/spark.py:80, balloon_system/mom/Policy/spark.py:85).
  `set_policy` rolls back on policy errors only (balloon_system/mom/Policy/Policy.py:65).
- Messages formatted with a line number fail with another exception when there is none, as for an
  undefined name iterated over by `with` (balloon_system/mom/Policy/Parser.py:429).
- `let` does not leave its scope when something in it raises; a later parameter of a user call is
  evaluated with the earlier ones bound (`CallByValue.SwappedArguments`); a variable named `let`
  breaks every user call (`ScopeFrame.LetShadowedFails`).
- The recogniser remembers as completed only items whose own right-hand side is empty
  (balloon_system/mom/Policy/spark.py:227-228). Where a nonterminal vanishes, but by no empty rule of
  its own, sentences can be lost (`LostSentences.SentenceLost`), and in some grammar built on top of it
  one is (`LostSentences.KeepsSentencesIff`).
- The pressure that policies 1 to 3 are given is the free number read once at the start of a round
  (`RulesFiles.PressureRead`); the number they debit is read again in each call.
- The rule `value ::= operator` is listed twice (balloon_system/mom/Policy/Parser.py:155,
  balloon_system/mom/Policy/Parser.py:157). Charts hold duplicate items, and `ambiguity` has
  something to choose from; the theorems hold whatever it chooses.
- Growing by policy 2, shrinking by policies 1 and 2, and growing by policy 6 do not clamp to the
  guest's bounds; `Bounds.UnclampedPoliciesFitIff` says exactly when the target is in bounds all the
  same. The reference policy can overdraw the host while "shrinking" (`Bounds.ShrinkCanOverdraw`),
  iBalloon can charge a guest twice (`IBalloon.NineTenthsChargedTwice`), and its `shrink_warn` pass
  never sets anything for a guest within its maximum.
- A failed evaluation keeps the controllers from running after the host-free number was already
  debited (`Ledger.FailureLosesDebits`, `Ledger.FailureLosesFive`).
- The documentation of `StatAvg` speaks of the average of all recent values; the code takes the
  integer quotient, over the rows that have the field.

## Model

| member | source | states |
|---|---|---|
| `RuleTables.RuleTable.AddRule` | balloon_system/mom/Policy/spark.py:106-128 | From the words of a docstring that lists rules, the table gains exactly those rules, per left-hand side and in their order, and each gets the name of its action. |
| `RuleTables.ArrowsOnly` | balloon_system/mom/Policy/spark.py:109-113 | The only arrows among the words are those behind left-hand sides, which is why cutting at arrows finds the rules. |
| `RuleTables.GainedFresh` | balloon_system/mom/Policy/spark.py:122-125 | A docstring about one left-hand side that is not in the table yet adds one entry: its rules. |
| `PolicyParser.PolicyTable` | balloon_system/mom/Policy/spark.py:130-147 | Collecting the docstrings of the policy parser and augmenting gives exactly the policy grammar, with a name for every rule. |
| `Charts.LinkKeeps` | balloon_system/mom/Policy/spark.py:241-245 | Adding an advanced item and its back-pointer keeps the chart invariant: every item is recognised over its span, and every pointer leads to a finished derivation that starts where the item's predecessor ends. |
| `Charts.TrackedIffPresent` | balloon_system/mom/Policy/spark.py:241-245 | An item with its dot behind a nonterminal is in the state exactly if it has an entry in the tree, so the append to an existing entry never misses. |
| `Charts.AppendKeeps` | balloon_system/mom/Policy/spark.py:321-328 | Appending predicted or scanned items keeps the chart invariant. |
| `Charts.RecognisedOver` | balloon_system/mom/Policy/spark.py:226-246 | Moving the dot over a finished derivation of the next symbol extends what the item derives by exactly the tokens spanned. |
| `Charts.AcceptanceIsSound` | balloon_system/mom/Policy/spark.py:207-210 | If the accepting item is in the last state, the tokens are in the language. |
| `Charts.StartTree` | balloon_system/mom/Policy/spark.py:137-147 | A derivation of the augmented start symbol is a derivation of the start symbol followed by the end marker. |
| `Charts.ChartFollows` | balloon_system/mom/Policy/spark.py:219-328 | If whatever can vanish has an empty rule of its own, a processed chart follows every derivation of what is right of a dot: nothing is pruned wrongly, no completion comes too late, and nothing that vanishes is missed, by whichever rules it does. |
| `Charts.ChartFollowsOne` | balloon_system/mom/Policy/spark.py:219-328 | The same for one derivation tree of the symbol right of the dot. |
| `Charts.FirstTerminal` | balloon_system/mom/Policy/spark.py:311-321 | The one-token pruning of the predictor is right: a rule that starts with a terminal derives only token lists that start with it. |
| `Charts.AcceptanceIsComplete` | balloon_system/mom/Policy/spark.py:198-210 | For the same grammars, a token list of the language leads to the accepting item. |
| `Charts.LastState` | balloon_system/mom/Policy/spark.py:207-207 | The last state holds the accepting item and nothing else, once, or nothing at all; so comparing it with a one-element list loses no sentence. |
| `Charts.EmptyStateIsDead` | balloon_system/mom/Policy/spark.py:201-209 | For the same grammars: if a state stays empty, no sentence begins with the tokens read so far. |
| `Charts.PrefixReaches` | balloon_system/mom/Policy/spark.py:219-328 | For the same grammars: as long as the tokens read begin a derivation that goes on, the state they lead to is not empty. |
| `Charts.NextWanted` | balloon_system/mom/Policy/spark.py:253-321 | A predicted nonterminal is wanted: whatever it derives can stand after the tokens read, on the way to some sentence, if every nonterminal derives something. |
| `Charts.ItemIsViable` | balloon_system/mom/Policy/spark.py:198-209 | If every nonterminal derives something, a state that holds an item is reached only by tokens that begin a sentence. |
| `Grammars.OwnEmptiesIff` | balloon_system/mom/Policy/spark.py:226-268 | The condition on the rules that recognition rests on, in terms of derivations: every symbol that derives the empty list has an empty rule of its own. |
| `Recognition.MissingShrinks` | balloon_system/mom/Policy/spark.py:219-245 | A state that gains an item has strictly fewer items left to gain; this is what ends the loop over a growing list. |
| `Recognition.AllAdvanced` | balloon_system/mom/Policy/spark.py:230-245 | After the completer every waiting item before the completed symbol is in the state, advanced; no item is lost and no other state changes. |
| `Recognition.TurnKeeps` | balloon_system/mom/Policy/spark.py:219-328 | One turn of any item keeps what a pass has done so far: what the items before it ask for is in place, and the pass comes nearer to its end. |
| `Recognition.PassInOrder` | balloon_system/mom/Policy/spark.py:214-328 | A whole pass leaves nothing undone that the completeness theorems ask for, keeps the first items in place, and never duplicates the item before the end marker. |
| `Recognition.ChartExists` | balloon_system/mom/Policy/spark.py:190-203 | Every token list has a chart, for any grammar. |
| `Recognition.SentenceIsAccepted` | balloon_system/mom/Policy/spark.py:190-209 | If whatever can vanish has an empty rule of its own, any chart of a sentence accepts it. |
| `Recognition.StoppedEarlyIsDead` | balloon_system/mom/Policy/spark.py:201-209 | And any chart that stops early condemns the tokens read so far. |
| `Spark.GenericParser.Completer` | balloon_system/mom/Policy/spark.py:226-246 | The states become what advancing the waiting items, one after the other, makes of them; the waiting items are those of the parent state or, if that is the state itself, those before the item. The chart stays sound. |
| `Spark.GenericParser.AddLinked` | balloon_system/mom/Policy/spark.py:241-245 | An item is appended unless it is there, its back-pointer is recorded in either case, and the chart stays sound. |
| `Spark.GenericParser.CompleteOverEmpty` | balloon_system/mom/Policy/spark.py:261-268 | An item that meets a symbol noted as completed by an empty rule is inserted into the state, advanced; otherwise no state changes. |
| `Spark.GenericParser.Predictor` | balloon_system/mom/Policy/spark.py:310-321 | The state gains exactly the items for the rules that pass the one-token test, in order, duplicates included. |
| `Spark.GenericParser.ScannerTurn` | balloon_system/mom/Policy/spark.py:326-328 | The advanced item is appended to the next state and nothing else changes. |
| `Spark.GenericParser.BuildState` | balloon_system/mom/Policy/spark.py:214-328 | The loop over the growing state ends, for any grammar, and it is the pass of its items' turns in order, from no predictions to no item left. The chart stays sound; completions of items from earlier states, predictions, advances over noted empty rules and scans are all in place. Completions of items from the state itself reach only the items before them. |
| `Spark.GenericParser.BuildChart` | balloon_system/mom/Policy/spark.py:193-203 | All states are processed in turn, until the tokens are used up or a state stays empty; each is what a pass makes of what was scanned into it. |
| `Spark.GenericParser.Recognise` | balloon_system/mom/Policy/spark.py:190-209 | Acceptance means membership for every grammar, and is equivalent to it if whatever can vanish has an empty rule of its own; then rejection before the end means that the tokens read begin no sentence. The tokens before the last one read do begin one, if every nonterminal derives something. |
| `LostSentences.KeepsSentencesIff` | balloon_system/mom/Policy/spark.py:226-268 | That condition is exact: whatever can vanish has an empty rule of its own if and only if every grammar that puts one more rule on top, with a new start symbol and something in it that does not vanish, has each of its sentences accepted by every chart. |
| `LostSentences.TowerLoses` | balloon_system/mom/Policy/spark.py:226-268 | The other half, with the rule and the sentence: if a can vanish, but by no empty rule of its own, then under a new start symbol for one more a than a has rules, and a new terminal x, every chart of the sentence x ends in an empty state. |
| `LostSentences.CountedPass` | balloon_system/mom/Policy/spark.py:219-246 | Why: throughout the pass over the first state, the dot in that rule has passed no more of the a than there are completed items for a before it, each of them there once. |
| `LostSentences.SentenceLost` | balloon_system/mom/Policy/spark.py:226-268 | The least instance: s derives a a x, a derives b, and b derives the empty list; the sentence x is lost. |
| `Spark.GenericParser.Ambiguity` | balloon_system/mom/Policy/spark.py:379-404 | The chosen child is the last one bearing the name that goes with the least pair of right-hand side length and name. |
| `Spark.ChildBack` | balloon_system/mom/Policy/spark.py:353-374 | A back-pointer leads to a completed item of the same state whose origin is the state of the predecessor. |
| `Spark.ScanBack` | balloon_system/mom/Policy/spark.py:340-350 | Without a back-pointer the symbol left of the dot is a terminal that was scanned. |
| `Spark.ChildSmaller` | balloon_system/mom/Policy/spark.py:365-374 | In a grammar where no nonterminal derives itself with nothing beside it, following any back-pointer shortens the span, or steps down a production beside whose nonterminal everything can vanish, through left recursion and empty rules as well. |
| `Spark.GenericParser.BuildTreeR` | balloon_system/mom/Policy/spark.py:335-377 | For any grammar: from a complete item, one real derivation is followed whichever pointers are chosen; each token of its span is consumed once, right to left, and the fold of the rule actions over that derivation is left in front of an otherwise unchanged stack; or the calls get deeper than allowed. If no nonterminal derives itself with nothing beside it, a depth linear in the span is enough. |
| `Spark.GenericParser.FollowPointer` | balloon_system/mom/Policy/spark.py:365-374 | One pointer is followed, with the same guarantees, for any grammar, for the child it leads to. |
| `Spark.GenericParser.BuildTree` | balloon_system/mom/Policy/spark.py:330-333 | For any grammar: the value returned, if the depth is enough, is the fold over a derivation of the whole input. |
| `Spark.GenericParser.Parse` | balloon_system/mom/Policy/spark.py:190-212 | For any grammar: a value is the fold of the actions over a derivation of the input; only sentences have one, and, if whatever can vanish has an empty rule of its own, all sentences do for which the call stack is deep enough, which a depth linear in the input is unless some nonterminal derives itself with nothing beside it. The empty list, if it is rejected, ends in a failed lookup; any other rejection names the last token, or one up to which, in such a grammar, the input begins no sentence; and the tokens before it do begin one, if every nonterminal derives something. |
| `PolicySyntax.GrammarIsFit` | balloon_system/mom/Policy/Parser.py:114-165 | The policy grammar has no empty rules, no nonterminal derives itself with nothing beside it, and it is well augmented, so the recogniser is exact on it and tree building ends. |
| `PolicyParser.PolicyIsProductive` | balloon_system/mom/Policy/Parser.py:114-165 | Every name of the policy grammar derives something, so located errors are exact on both sides. |
| `PolicySyntax.ValueReads` | balloon_system/mom/Policy/Parser.py:118-165 | Reading the tokens of any derivation of a value from the front gives the derivation's meaning and leaves what follows it. |
| `PolicySyntax.ValuesRead` | balloon_system/mom/Policy/Parser.py:123-130 | Reading the tokens of any left-recursive value_list derivation gives its elements in order, then whatever else can be read. |
| `PolicyReader.ValueDerived` | balloon_system/mom/Policy/Parser.py:132-165 | Whatever the simple reader reads as a value has a derivation in the grammar with that meaning. |
| `PolicyReader.ValuesDerived` | balloon_system/mom/Policy/Parser.py:123-130 | The same for a list of values. |
| `PolicyReader.ListTreeDerives` | balloon_system/mom/Policy/Parser.py:123-130 | The left-recursive derivation over given values spells their tokens and means their list. |
| `PolicyReader.ReaderDecides` | balloon_system/mom/Policy/Parser.py:114-165 | A token list is in the language of the policy grammar if and only if the simple recursive-descent reader accepts it, and every derivation of it means what the reader returns. |
| `PolicyParser.ParsePolicy` | balloon_system/mom/Policy/Parser.py:535-542 | Chart parsing with the table made from the docstrings equals the simple reader on every token list: same acceptance, same code, whichever ambiguous child is followed; a call stack linear in the input is enough; an error names the last token or one after which no program can follow, and the tokens before it can still be continued to a program. |
| `PolicyParser.DerivationsAgree` | balloon_system/mom/Policy/Parser.py:153-165 | Two derivations of the same tokens, for instance through the doubled operator rule, mean the same, so resolving ambiguity cannot change a result. |
| `PolicyReader.PrintReads` | balloon_system/mom/Policy/Parser.py:132-165 | A printed value reads back as itself, whatever follows it. |
| `PolicyReader.PrintedProgramReads` | balloon_system/mom/Policy/Parser.py:118-165 | Round trip: any non-empty program printed to tokens reads back as the same program. |
| `PolicyParser.ReprintReads` | balloon_system/mom/Policy/Parser.py:535-542 | Printing what was read and reading it again changes nothing. |
| `PolicyReader.ReadIsPrintable` | balloon_system/mom/Policy/Parser.py:132-165 | What was read contains only tokens that can be printed and read again. |
| `PolicyReader.ValuesThenMore` | balloon_system/mom/Policy/Parser.py:123-130 | What has been read is not touched by tokens that follow. |
| `PolicyReader.JoinedProgramsRead` | balloon_system/mom/Policy/Parser.py:123-130 | For a program and any further tokens, the joined tokens are a program exactly if the further tokens are none or a program, and then the code is the joined code. |
| `PolicyReader.BracketsRead` | balloon_system/mom/Policy/Parser.py:132-144 | Values between brackets of any kind read as the list of the values, whatever follows; between braces with eval in front. |
| `PolicyReader.BracketsForParentheses` | balloon_system/mom/Policy/Parser.py:132-144 | Anywhere in a text, square brackets around values may stand for parentheses: what is read stays the same. |
| `PolicyReader.BracesForEval` | balloon_system/mom/Policy/Parser.py:132-144 | And braces around values may stand for parentheses with eval in front of the values. |
| `PolicyReader.ProgramReplaced` | balloon_system/mom/Policy/Parser.py:114-165 | In general, a text that reads as one value may be replaced by any other that reads as the same value and leaves the same behind. |
| `Interpreter.VariableStack.Lookup` | balloon_system/mom/Policy/Parser.py:312-325 | Walking the scopes finds the innermost binding, passing over bindings whose value lacks the wanted attribute. |
| `Interpreter.VariableStack.Allocate` | balloon_system/mom/Policy/Parser.py:328-330 | The innermost scope gets the binding unless it has the name; the value that stands there is returned. |
| `Interpreter.VariableStack.SetExisting` | balloon_system/mom/Policy/Parser.py:332-337 | The innermost scope that knows the name is updated and no other; the stack is untouched if none does. |
| `Interpreter.PolicyEvaluator.Evaluate` | balloon_system/mom/Policy/Parser.py:262-300 | The evaluator that updates its stack and function table in place ends as `Evaluation.Eval` says, in the state it says, for normal ends and for exceptions in mid-scope. What each form comes to is stated about `Eval` in the rows of `EvalLaws`, which follow. |
| `EvalLaws.IfTakesBranch` | balloon_system/mom/Policy/Parser.py:438-444 | if ends exactly as its first branch does, in the state the condition has left, if the condition is true, and exactly as its second branch does if not; the other branch is never evaluated. A condition that raises ends it. |
| `EvalLaws.SetAssigns` | balloon_system/mom/Policy/Parser.py:397-399 | set gives the value to the innermost variable of that name and leaves everything else alone; it is worth the value. Without such a variable it is a policy error. |
| `EvalLaws.DefvarDeclares` | balloon_system/mom/Policy/Parser.py:404-406 | defvar binds the name in the innermost scope unless it is bound there, and is worth what stands there then. |
| `EvalLaws.DefRecords` | balloon_system/mom/Policy/Parser.py:389-392 | def records parameters and body unevaluated and is worth the function's name. |
| `EvalLaws.LetIsLast` | balloon_system/mom/Policy/Parser.py:408-424 | let is worth the last of its expressions: each value is evaluated where the bindings before it have led, the expressions follow one after the other, and then the scope is gone. |
| `EvalLaws.LetStops` | balloon_system/mom/Policy/Parser.py:413-424 | A binding or an expression that raises ends the let there, with the scope still in place. |
| `EvalLaws.WithIsEach` | balloon_system/mom/Policy/Parser.py:426-436 | with is worth the list of what its body is worth for the items in turn, each time in a scope with the item alone; a body that raises ends it there. |
| `EvalLaws.EvalIsLast` | balloon_system/mom/Policy/Parser.py:375-376 | Braces are worth the last of their expressions, evaluated one after the other. |
| `EvalLaws.StringIsUnquoted` | balloon_system/mom/Policy/Parser.py:266-267 | A string is worth what is between its quotes. |
| `EvalLaws.SymbolReads` | balloon_system/mom/Policy/Parser.py:268-272 | A symbol is worth the innermost variable of its name, nil is worth nothing, and an unknown one is an error. |
| `EvalLaws.DottedIsAttribute` | balloon_system/mom/Policy/Parser.py:312-325 | A dotted name is the attribute of the innermost value that has it; a second dot and what follows it are ignored. |
| `EvalLaws.ValuesInTurn` | balloon_system/mom/Policy/Parser.py:215-260 | A builtin on values, called by its name or its operator, gets all its arguments evaluated from left to right; with a wrong number of them it is an error before any is evaluated. |
| `EvalLaws.OperatorOnIntegers` | balloon_system/mom/Policy/Parser.py:339-490 | An operator form whose operands evaluate to integers is worth what the operator gives in Python 2: sum, difference, product, the quotient rounded down, or the comparison; division by 0 is an error. |
| `EvalLaws.VariableIsCalled` | balloon_system/mom/Policy/Parser.py:290-293 | A variable that holds something to call is called with the arguments, evaluated from left to right, before any builtin or function of its name is looked for. |
| `EvalLaws.CallFails` | balloon_system/mom/Policy/Parser.py:378-381 | A call of no variable, builtin or function raises, and so does one with a wrong number of arguments, before anything is evaluated. |
| `EvalLaws.WrongCount` | balloon_system/mom/Policy/Parser.py:225-235 | A form with a wrong number of arguments is an error before any of them is looked at. |
| `EvalLaws.NothingNamed` | balloon_system/mom/Policy/Parser.py:273-288 | Empty lists, lists that start with a list, an unknown operator or another token that names nothing, and tokens that are no values are errors of the kind the code raises. |
| `Interpreter.PolicyEvaluator.Apply` | balloon_system/mom/Policy/Parser.py:285-300 | A form is dispatched to a variable, a builtin or the default handler, as specified. |
| `Interpreter.PolicyEvaluator.DispatchCall` | balloon_system/mom/Policy/Parser.py:215-260 | Dispatch with its popped type list refines the specification that looks types up by position. |
| `Interpreter.PolicyEvaluator.Convert` | balloon_system/mom/Policy/Parser.py:234-258 | The loop that pops types and overwrites arguments converts each argument by its declared type. |
| `Interpreter.TypePopped` | balloon_system/mom/Policy/Parser.py:236-241 | Popping the declared types keeps the type at hand the one declared for the argument; the last named type repeats under dots. |
| `Interpreter.PolicyEvaluator.CallDefault` | balloon_system/mom/Policy/Parser.py:374-387 | A user call is turned into a let over its arguments, as specified. |
| `Interpreter.PolicyEvaluator.CLet` | balloon_system/mom/Policy/Parser.py:408-424 | let binds in a new scope one value after the other, runs its body and leaves the scope, but leaves the scope in place if anything raises. |
| `Interpreter.PolicyEvaluator.CWith` | balloon_system/mom/Policy/Parser.py:426-436 | with runs its code once for each item, each time in a scope of its own. |
| `Dispatching.ConversionFollowsDoc` | balloon_system/mom/Policy/Parser.py:215-260 | Under any type list with its dots last, taking arguments as promised has exactly one outcome, and the dispatcher comes to it: argument i has type min(i, last named type), code is passed unevaluated, symbols become names, other arguments are evaluated once, left to right, up to the first bad one. The accepted counts are exactly n, or at least n with dots. |
| `Dispatching.DispatchFollowsDoc` | balloon_system/mom/Policy/Parser.py:215-260 | A builtin runs exactly on the arguments so taken; if one was refused its error is the result; a wrong count is refused before anything is evaluated. |
| `Dispatching.ConversionIsTaking` | balloon_system/mom/Policy/Parser.py:234-258 | The dispatcher's conversion of the remaining arguments is such a taking, continued. |
| `Dispatching.TakingIsDetermined` | balloon_system/mom/Policy/Parser.py:234-258 | Two ways of taking the arguments agree as far as both go. |
| `ScopeFrame.EvalFrame` | balloon_system/mom/Policy/Parser.py:262-337 | Scope frame: after any evaluation that returns normally the stack is as deep as before, the outer scopes have the names they had, and the innermost scope has at least its names. |
| `ScopeFrame.LetKeepsNames` | balloon_system/mom/Policy/Parser.py:408-424 | A let adds no name to any scope that was there. |
| `ScopeFrame.WithKeepsNames` | balloon_system/mom/Policy/Parser.py:426-436 | Nor does a with. |
| `ScopeFrame.ScopedFormKeepsNames` | balloon_system/mom/Policy/Parser.py:408-436 | A let or with form, dispatched through its docstring, adds no name at all. |
| `ScopeFrame.UserCallKeepsNames` | balloon_system/mom/Policy/Parser.py:374-387 | A call of a user function adds no name at all. |
| `ScopeFrame.UserCallIsLet` | balloon_system/mom/Policy/Parser.py:374-387 | A user call that succeeds is the let over its parameters and arguments, with matching counts. |
| `ScopeFrame.LetShadowedFails` | balloon_system/mom/Policy/Parser.py:387-387 | With a variable named let in sight, every user call fails. |
| `Evaluation.OperatorsAreValueBuiltins` | balloon_system/mom/Policy/Parser.py:340-348 | Every operator names a builtin that evaluates all its arguments, never a form with unevaluated code and never a user function. |
| `FuelBound.EvalBelow` | balloon_system/mom/Policy/Parser.py:262-300 | A larger nesting bound gives the same result, unless the smaller one cut the evaluation off. |
| `FuelBound.ResultIndependentOfBound` | balloon_system/mom/Policy/Parser.py:262-300 | Results that were not cut off do not depend on the bound, so bounded evaluation is one partial function. |
| `Evaluation.PolicyBuiltins` | balloon_system/mom/Policy/Parser.py:374-408 | The builtin table has let and no eval, as the theorems on user calls ask of it. |
| `CallByValue.UserCallIsByValue` | balloon_system/mom/Policy/Parser.py:374-424 | If every argument is fresh for the parameters before it, the rewriting of a user call into a sequential let is call by value: same value, same final stack, functions and world, or the same kind of error. |
| `CallByValue.HiddenScope` | balloon_system/mom/Policy/Parser.py:262-436 | A scope whose names are outside a vocabulary closed under reachable functions cannot be told from its absence, at any depth of the stack. |
| `CallByValue.BindByValue` | balloon_system/mom/Policy/Parser.py:413-420 | For any evaluation blind to scopes outside the vocabulary (the evaluator is, `CallByValue.EvaluatorBlind`) and fresh arguments, binding parameters one by one in the new scope gives the same values as evaluating all arguments in the caller's scopes. |
| `CallByValue.LetIsParallelIff` | balloon_system/mom/Policy/Parser.py:408-420 | For distinct parameters and plain symbols as arguments, and any evaluation that looks such symbols up (the evaluator does at every positive bound on its depth, `CallByValue.EvaluatorReads`), exactly: the scope the let builds is the one of call by value if and only if, wherever an argument is the name of an earlier parameter, the caller has the same value in it as in that parameter's argument. |
| `CallByValue.PlainCallIsByValue` | balloon_system/mom/Policy/Parser.py:374-424 | Under that condition the whole call is call by value, with the same result and final state. |
| `CallByValue.PlainCallIsByValueIff` | balloon_system/mom/Policy/Parser.py:374-424 | Exactly: with plain symbols for parameters and arguments, a function is called by value whatever its body if and only if that condition holds; a body that reads a shadowed parameter tells the two apart. |
| `CallByValue.SwappedArguments` | balloon_system/mom/Policy/Parser.py:374-424 | Without it, it fails: a concrete call (f b a) of a function of a and b that returns b gives 2, and by value it would give 1. |
| `CallByValue.SwappedIsShadowed` | balloon_system/mom/Policy/Parser.py:413-420 | The swapped call is where that condition fails. |
| `PolicyStore.GetCode` | balloon_system/mom/Policy/Parser.py:535-542 | Compiling yields the code that the simple reader gives, a policy error for a syntax error, and another failure for a text without tokens or one that cannot be scanned. |
| `PolicyStore.Policy.CatPolicies` | balloon_system/mom/Policy/Policy.py:42-48 | The texts are joined in name order; 0 stands in for an empty result. |
| `PolicyStore.Policy.Set` | balloon_system/mom/Policy/Policy.py:50-74 | Setting or deleting one policy takes effect as a whole or is refused as a whole; other failures leave the new text beside the old code. Unless refused, the name (50_main_ if none is given) has the new text afterwards, or none if it was deleted, and every other name has its old text. Proved in every reachable store, so deleting a missing key on rollback never happens. |
| `PolicyStore.TextIsLastRequest` | balloon_system/mom/Policy/Policy.py:50-79 | After any run of requests the text under a name is that of the last request about it that was not refused, and none if that request deleted or cleared it; without such a request it is what it was. |
| `PolicyStore.JoinedByLineEnds` | balloon_system/mom/Policy/Policy.py:48-48 | Joined texts are the texts in order, exactly one line end between two of them, and nothing else. |
| `PolicyStore.TextsInNameOrder` | balloon_system/mom/Policy/Policy.py:42-48 | What is compiled are the texts of all policies in name order, joined so; or 0 if there is no policy, or a single one without text. |
| `PolicyStore.Policy.Evaluate` | balloon_system/mom/Policy/Policy.py:81-99 | The compiled expressions are evaluated in order in a fresh evaluator; the answer is false exactly if one of them raised, and the world keeps what was done until then. |
| `PolicyStore.RolledBack` | balloon_system/mom/Policy/Policy.py:65-71 | Undoing a rejected request restores the old texts; where there was no old text, the key to delete is there. |
| `PolicyStore.StepConsistent` | balloon_system/mom/Policy/Policy.py:50-79 | A request that loads leaves code and texts consistent, a refused one changes nothing, and one that ends in an exception leaves them inconsistent. |
| `PolicyStore.ReplyIff` | balloon_system/mom/Policy/Policy.py:61-74 | How a request is answered, by the texts before it: with an exception if and only if the text that would stand cannot be scanned or has no tokens, and refused if and only if its tokens are no program. |
| `PolicyStore.ConsistentIff` | balloon_system/mom/Policy/Policy.py:50-79 | In a reachable store, code and texts belong together if and only if the texts can be scanned and have tokens. |
| `PolicyStore.RunConsistentIff` | balloon_system/mom/Policy/Policy.py:50-79 | After any sequence of set, delete and clear, code and texts belong together if and only if the texts that the requests leave standing can be scanned and have tokens. |
| `PolicyStore.TokenFreePolicySticks` | balloon_system/mom/Policy/Policy.py:61-73 | A text without tokens is stored although nothing was compiled from it, because the failure is not a policy error. |
| `PolicyStore.SeparateProgramsRead` | balloon_system/mom/Policy/Parser.py:123-130 | Any number of token lists that are programs, one after the other, are the program of their joined codes. |
| `PolicyStore.NamedPoliciesRunInOrder` | balloon_system/mom/Policy/Policy.py:42-48 | Named policies that are programs by themselves compile together to their codes, one after the other in name order, if the scanner does not see across the joining line ends. |
| `Strings.Sort` | balloon_system/mom/Policy/Policy.py:47-47 | Names are put in order: the result is the sorted sequence of exactly these names. |
| `Strings.SortedIsSorted` | balloon_system/mom/Policy/Policy.py:47-47 | That sequence has each name once, each before all greater ones. |
| `Strings.LessIs` | balloon_system/mom/Policy/Policy.py:47-47 | The order is that of Python's strings: the one that goes on where the other ends, or has the greater character where they first differ, is greater. |
| `Entities.Entity.StatAvg` | balloon_system/mom/Entity.py:105-123 | The accumulating loop computes the integer quotient, rounded down, of total and number of the values in the rows that have the field, 0 if none has it, and fails without rows; total and number are defined row by row, apart from the loop. |
| `Policies.AverageBetween` | balloon_system/mom/Entity.py:113-123 | The average lies between any bounds of the values in the window. |
| `Policies.AverageIs` | balloon_system/mom/Entity.py:113-123 | For any rows with n values of the field that add up to a total, the average is the one integer q with q n <= total < (q + 1) n. |
| `Policies.UsedIsDifference` | balloon_system/mom/Entity.py:549-555 | Used memory is the difference of the two averages; the used fraction is its share of the average size, and there is none over an average size of 0. |
| `Entities.Entity.RunCall` | balloon_system/mom/Entity.py:169-687 | One call of any of the ten policies, by the handler it names: it raises exactly if the snapshot lacks what the policy asks of it, and then changes nothing; otherwise it changes nothing, or sets the one target and no other control, and debits exactly what the target adds. Which target is decided by `Policies.Decide`, and what that comes to is stated policy by policy in the rows of `PolicyLaws`, which follow. |
| `PolicyLaws.Policy1Shrinks` | balloon_system/mom/Entity.py:186-206 | Policy 1, less than 100 being free, takes off a twentieth, but leaves the used memory and a fifth of the present size; it acts only if that is smaller than the present size. |
| `PolicyLaws.Policy1Grows` | balloon_system/mom/Entity.py:169-206 | Policy 1 otherwise adds a twentieth, or what makes room for the used memory and a fifth of the present size, up to the maximum, if the guest is below its maximum and something stays free. |
| `PolicyLaws.Policy2Shrinks` | balloon_system/mom/Entity.py:228-248 | Policy 2 takes off 1000 pages, with the same regard for the used memory. |
| `PolicyLaws.Policy2Grows` | balloon_system/mom/Entity.py:212-248 | Policy 2 adds 1000 pages, but does not go past the size with half in use. |
| `PolicyLaws.Policy3Shrinks` | balloon_system/mom/Entity.py:267-285 | Policy 3 takes off a twentieth, not going below the minimum. |
| `PolicyLaws.Policy3Grows` | balloon_system/mom/Entity.py:254-285 | Policy 3 adds a twentieth, not going above the maximum, if something stays free. |
| `PolicyLaws.Policy4Moves` | balloon_system/mom/Entity.py:291-313 | Policy 4: strictly inside the bounds, 4/5 of the way from the present size to the target is the used memory times what the used fraction misses to 4/5; a bound cuts the way short. Shrinking is always allowed, growing if something stays free. |
| `PolicyLaws.Policy4Direction` | balloon_system/mom/Entity.py:291-313 | So with memory in use policy 4 shrinks a guest in bounds below four fifths in use, and grows it above. |
| `PolicyLaws.Policy4Approaches` | balloon_system/mom/Entity.py:291-313 | And it never passes four fifths, if the average size is the present one and some memory is used and some is not: what it shrinks has at most 4/5 in use then, and what it grows at least 4/5. |
| `PolicyLaws.Policy5Moves` | balloon_system/mom/Entity.py:322-345 | Policy 5 goes to the size with 7/10 in use, or to the bound on its side. |
| `PolicyLaws.Policy6Moves` | balloon_system/mom/Entity.py:354-379 | Policy 6 goes down to the size with 7/10 in use, or the bound on its side, if less than 100 is free; where that would not be down it adds 1000 pages if something stays free. |
| `PolicyLaws.Policy7Moves` | balloon_system/mom/Entity.py:389-424 | Policy 7 goes to the size with 4/5 in use, or the bound on its side: down if less than 100 is free, up if more than 9/10 is in use and something stays free. |
| `PolicyLaws.ShrinkNormalMoves` | balloon_system/mom/Entity.py:433-453 | The first pass of policy 8 acts on guests with at most 3/10 in use: the size with half in use, or the bound on its side, if something stays free. |
| `PolicyLaws.GrowCriticalMoves` | balloon_system/mom/Entity.py:454-471 | The second acts on guests with at least 9/10 in use: the size with 7/10 in use, or the bound on its side, if something stays free. |
| `PolicyLaws.GrowWarnMoves` | balloon_system/mom/Entity.py:472-489 | The third only grows, guests with 3/10 to 9/10 in use while the free number is not negative: up to the size with 7/10 in use or the maximum. |
| `PolicyLaws.ShrinkWarnMoves` | balloon_system/mom/Entity.py:490-507 | The fourth only ever takes a guest above its maximum down to it, with 3/10 to 9/10 in use while nothing is free. |
| `PolicyLaws.StepMoves` | balloon_system/mom/Entity.py:568-623 | The step policy goes one step down, not below the minimum, under its lower threshold; one step up, not above the maximum, or as many times 5 MiB as the host has, over its upper threshold; and otherwise stays. |
| `PolicyLaws.RefMoves` | balloon_system/mom/Entity.py:625-687 | The reference policy goes to the size with its reference share in use, in whole MiB and within the bound it heads for, or as many times 5 MiB as the host has when that overdraws it in growing. |
| `Policies.TargetIsCharged` | balloon_system/mom/Entity.py:169-687 | Conservation in every call of every policy: the number written back is the old one less exactly what the target adds to the guest. |
| `Policies.OldPoliciesKeepFree` | balloon_system/mom/Entity.py:169-507 | Policies 1 to 8 never write back a number that is not positive, unless it is an increase. |
| `Bounds.ShortGrowth` | balloon_system/mom/Entity.py:574-585 | A growth that would overdraw the host takes the greatest 5 MiB multiple that fits, leaves less than 5 MiB, and falls short of what was asked. |
| `Bounds.StepFits` | balloon_system/mom/Entity.py:568-623 | Within bounds and with a non-negative free number, the step policy keeps both. |
| `Bounds.ShrinkRefFitsIff` | balloon_system/mom/Entity.py:649-687 | Shrinking to the reference, exactly: the host is not overdrawn if and only if the reference size is at most the present size plus the free number, and the guest stays in bounds if and only if the reference size is at most its maximum. |
| `Bounds.GrowRefFitsIff` | balloon_system/mom/Entity.py:625-687 | Growing to the reference never overdraws the host; the guest stays in bounds if and only if the reference size is at least its minimum. |
| `Bounds.RefFitsIff` | balloon_system/mom/Entity.py:625-687 | The two together: what the reference policy must find before a call, if and only if the guest stays in bounds and the host is not overdrawn. |
| `Bounds.RefFits` | balloon_system/mom/Entity.py:625-687 | That is the case if the samples are in bounds, the minimum is whole MiB, the references lie on the inner side of their thresholds, and the average size is not above the present one when it shrinks. |
| `Bounds.ShrinkRefCost` | balloon_system/mom/Entity.py:649-687 | Shrinking to the reference never costs the host more than the average size exceeds the present size. |
| `Bounds.OneSampleHistory` | balloon_system/mom/Entity.py:105-123 | With a history of one sample the last condition always holds. |
| `Bounds.ShrinkCanOverdraw` | balloon_system/mom/Entity.py:649-687 | Without it, a concrete guest grows by 3 MiB under the name of shrinking, on a host with nothing free. |
| `Bounds.ClampedPoliciesFit` | balloon_system/mom/Entity.py:169-507 | Policies 3, 4, 5, 7, 8 and growing by policy 1 keep the target within the guest's bounds. |
| `Bounds.UnclampedPoliciesFitIff` | balloon_system/mom/Entity.py:186-379 | For the calls that forget a clamp, the exact condition on the snapshot under which a target is within bounds all the same. |
| `Bounds.UnclampedPoliciesEscape` | balloon_system/mom/Entity.py:186-379 | For each of them a concrete guest in bounds that is sent out of bounds. |
| `Entities.Process` | balloon_system/mom/Controllers/Balloon.py:29-42 | The controller gives every guest with a target the whole part of it and leaves all other guests alone. |
| `Entities.EvaluateCalls` | balloon_system/mom/Policy/Policy.py:81-99 | Given the calls a rules file makes (`RulesFiles.FileRuns` says which they are): any of them on any of the guests, in order, over the shared free number, until one fails; controls, number and outcome are those of the specified evaluation. |
| `Entities.DoControls` | balloon_system/mom/PolicyEngine.py:108-122 | A whole round on entities, free-number cell and hypervisor is the specified round: evaluate, then apply only if the evaluation did not fail. |
| `Ledger.EvaluationDebits` | balloon_system/mom/Entity.py:169-687 | After any number of calls on any guests, failing or not, the free number is the first one less exactly what the standing targets demand and what replaced targets had taken. |
| `Ledger.OnceEachReplacesNothing` | balloon_system/mom/Entity.py:151-155 | With one call for each guest at most, no target is ever replaced. |
| `Ledger.FailsIffUnanswerable` | balloon_system/mom/Entity.py:105-687 | A call fails if and only if the snapshot lacks what it asks for: no samples, an average size of 0, a reference of 0. The free number has no part in it. |
| `Ledger.SucceedsIffAnswerable` | balloon_system/mom/Policy/Policy.py:81-99 | An evaluation succeeds if and only if every call can be answered. |
| `Ledger.ApplyingMoves` | balloon_system/mom/Controllers/Balloon.py:29-42 | Applying moves the total size by the demand less what truncation drops. |
| `Ledger.RoundBudget` | balloon_system/mom/PolicyEngine.py:108-122 | A round changes the budget (free number plus sizes) by exactly its replaced growths and its truncations, or by all its debits if it failed. |
| `Ledger.EveryPlanRuns` | balloon_system/mom/PolicyEngine.py:108-122 | Runs exist: any calls over any histories of samples, for any starting host, make a run once the present sizes are filled in. |
| `Ledger.RoundStaysInBounds` | balloon_system/mom/PolicyEngine.py:108-122 | One round of step and reference policies keeps all guests within bounds and the host not overdrawn, failed or not. |
| `Ledger.BudgetOfRun` | balloon_system/mom/PolicyEngine.py:108-122 | The same, exactly, over any run of rounds. |
| `Ledger.LossBelowControls` | balloon_system/mom/PolicyEngine.py:108-122 | Over any run whose calls can be answered, the budget changes by less than one byte for each control applied, beside what was wasted on replaced targets. |
| `Ledger.CountIs` | balloon_system/mom/Controllers/Balloon.py:29-42 | The controls counted there are the guests that have a target. |
| `Ledger.SafeRunConserves` | balloon_system/mom/PolicyEngine.py:108-122 | In every state of any run of any mix of calls with sane figures the host is not overdrawn; and while the calls can be answered, the budget lost, beside what was wasted on replaced targets, is in [0, number of controls applied), and 0 if there are none. |
| `Ledger.SafeRunOfSingleCalls` | balloon_system/mom/PolicyEngine.py:108-122 | With one call for each guest and round nothing is wasted, and the budget lost is in [0, number of controls applied). |
| `Ledger.RunStaysInBounds` | balloon_system/mom/PolicyEngine.py:108-122 | In every reachable state of a run of step and reference policies, over any number of guests and with failures on the way, every guest is within its bounds and the host is not overdrawn. The samples are sizes the guests had earlier in the run, and their being in bounds is part of what is proved. |
| `Ledger.OneSampleRunStaysInBounds` | balloon_system/mom/PolicyEngine.py:108-122 | With histories of one sample, taken of the present size, nothing need be assumed of the samples. |
| `Ledger.FailureLosesDebits` | balloon_system/mom/PolicyEngine.py:118-120 | A round applies its targets if and only if every call can be answered. Otherwise the sizes stay, the calls before the first unanswerable one are paid for all the same, and the budget survives if and only if those calls by themselves leave the free number as it was. |
| `Ledger.FailureLosesFive` | balloon_system/mom/PolicyEngine.py:118-120 | Two concrete guests, the second with samples that hold no values: the round fails and 5 bytes are gone. |
| `IBalloon.OnlyOwnerSets` | balloon_system/mom/Entity.py:433-507 | With the used fraction on neither edge, each guest can be set by one of the four passes only, whatever its size. |
| `IBalloon.ShrinkWarnNeverSets` | balloon_system/mom/Entity.py:490-507 | The fourth pass never sets a control for a guest that is not above its maximum. |
| `IBalloon.AtIsStateAfter` | balloon_system/rules/iballoon.rules:32-35 | Going from guest to guest and pass to pass is evaluating the calls of the rules file in order. |
| `IBalloon.FourPassesConserve` | balloon_system/rules/iballoon.rules:32-35 | Over any number of guests off the edges the four passes replace no target, whatever the host has and whether or not some call fails; so the ledger is conserved. |
| `IBalloon.IBalloonRunConserves` | balloon_system/rules/iballoon.rules:32-35 | Over whole runs of iBalloon the host is never overdrawn, and off the edges the budget lost is in [0, number of controls applied). |
| `IBalloon.OnlyGrowthThrownAt` | balloon_system/mom/Entity.py:433-507 | For guests within their bounds, a target is replaced only for a guest on an edge that grow_warn grows, and what is thrown away is a growth. |
| `IBalloon.AgreesIffNobodyChargedTwice` | balloon_system/rules/iballoon.rules:32-35 | Over any number of guests within their bounds, on edges or not, the free number agrees with the targets in the end if and only if nobody was charged twice; otherwise too much was debited. |
| `IBalloon.RichHostAgreesIff` | balloon_system/rules/iballoon.rules:32-35 | Seen before the first call, on a host that can pay for everything: it agrees if and only if some guest has no used fraction or no guest on an edge would grow in grow_warn. |
| `IBalloon.AgreesOnEveryHostIff` | balloon_system/rules/iballoon.rules:32-35 | And on every host, however poor: the same condition on the snapshots alone holds if and only if the ledger agrees in the end whatever the free number is. |
| `IBalloon.NineTenthsChargedTwice` | balloon_system/mom/Entity.py:454-489 | A concrete guest at nine tenths is charged twice for one growth. |
| `RulesFiles.FileRuns` | balloon_system/mom/Policy/Policy.py:81-99 | Evaluating the code of a rules file that reads the pressure, defines functions that each call one method of a guest, and goes over the guests once for each step, comes to the evaluation of its plan in the ledger: one call for each step and guest, in order, the pressure being the free number at the start; it raises exactly if some call fails. |
| `RulesFiles.ApplicationRuns` | balloon_system/mom/Policy/Parser.py:374-424 | Applying such a function to one guest inside the loop is one turn of the plan, and leaves the scopes as they were. |
| `RulesFiles.LoopFrom` | balloon_system/mom/Policy/Parser.py:424-436 | Looping over the guests is one turn for each, until one raises. |
| `RulesFiles.PressureRead` | balloon_system/mom/Policy/Parser.py:402-403 | Reading the pressure binds the free number of the moment, for the rest of the file. |
| `RulesFiles.IBalloonFileRuns` | balloon_system/rules/iballoon.rules:3-35 | Evaluating iballoon.rules comes to the four passes of the ledger. |
| `RulesFiles.IBalloonIsRunnable` | balloon_system/rules/iballoon.rules:3-35 | Over any snapshots and any free number there are a host and guests on which it runs. |
| `RulesFiles.OneStepConserves` | balloon_system/rules/Hyper-V-dynamic-memory.rules:3-20 | A file that applies one policy to each guest takes from the free number exactly what the standing targets take, whether or not a call fails on the way. |
| `RulesFiles.FileReads` | balloon_system/mom/Policy/Parser.py:535-542 | The code of such a file is what the parser makes of its tokens, braces being spelled out as calls of eval, which `PolicyReader.BracesForEval` says reads the same. |
| `RulesFiles.EvaluateFile` | balloon_system/mom/Policy/Policy.py:81-99 | So the policy store, holding such a file, leaves the world at the ledger's evaluation of its plan and answers whether no call failed. |
| `Ledger.StateFromIsStateAfter` | balloon_system/mom/Policy/Policy.py:89-98 | Evaluating the calls from the first on is the evaluation seen from the last one back. |
| `Monitoring.Monitor.PopulateFields` | balloon_system/mom/Monitor.py:73-89 | The mandatory and optional fields are the unions over the collectors, mandatory ones taken out of the optional ones, however often it is called. |
| `Monitoring.Monitor.MergeInto` | balloon_system/mom/Monitor.py:104-106 | Merging one collector's data, in any order of its items, fills exactly what had no value. |
| `Monitoring.MergeTakesFirst` | balloon_system/mom/Monitor.py:97-111 | Each field of the merged row has the first value that any collector offered, in collector order, and none only if nobody offered one. |
| `Monitoring.CollectedIs` | balloon_system/mom/Monitor.py:97-119 | The same as a law about any outputs: when there is a row, which fields it has, and what each holds. |
| `Monitoring.FieldsAre` | balloon_system/mom/Monitor.py:73-89 | A field is mandatory (optional) exactly if some collector declares it so. |
| `Monitoring.Monitor.Collect` | balloon_system/mom/Monitor.py:57-131 | One more collection keeps the history at the last min(H, n) successful merges of all n collections so far that succeeded, and readiness at whether the last one did. It yields a row exactly if no fatal error occurred and somebody offered each mandatory field; the row has exactly the optional fields and those somebody offered, each with the value of the first output that offers one, and none exactly if no output does. |
| `Monitoring.Monitor.Gather` | balloon_system/mom/Monitor.py:97-119 | Asking the collectors one after the other yields that row under that condition, or nothing. |
| `Monitoring.HistoryIsLast` | balloon_system/mom/Monitor.py:121-124 | Pushing any rows onto a bounded history leaves the last rows, up to its length. |
| `Monitoring.RowsComplete` | balloon_system/mom/Monitor.py:112-119 | Every row in the history has all mandatory and optional fields. |
| `Monitoring.RowsInOrder` | balloon_system/mom/Monitor.py:97-124 | The rows of any run of collections are those of its successful collections, one for each and in order, each row being the one that collection's outputs make. |
| `Monitoring.SnapshotIs` | balloon_system/mom/Monitor.py:57-150 | What is shown after any run, if the last collection is complete, are the rows of the last min(H, n) of the n successful collections in order, the newest last; otherwise nothing is shown. |
| `Monitoring.Monitor.Interrogate` | balloon_system/mom/Monitor.py:133-150 | After any collections, a snapshot exists if and only if the last collection succeeded, and it shows the last min(H, n) of the n successful merges. |
| `Monitoring.Monitor.CollectAll` | balloon_system/mom/Monitor.py:57-150 | Looking at the monitor after each collection of a run shows just that, every time. |

## Left out

- Spark.GenericParser.Recognise: exactness is characterised over the rules that can be put on top of a grammar (`LostSentences.KeepsSentencesIff`). A single grammar outside the class may still lose nothing, because a lost derivation can have a twin; to decide that for one grammar would take comparing languages.
- Spark.GenericParser.Parse: in a grammar where a nonterminal derives itself with nothing beside it, tree building may follow pointers in a circle until the call stack is used up; for which inputs it does is not characterised.
- The rest of the scanner (regular expressions): the scan is a parameter, and a text that cannot be scanned is one opaque failure.
- The `typestring` branch of the predictor and the FIRST sets of `makeFIRST`, which only that branch reads: the policy parser's `typestring` is always empty.
- The AST builder, traversal and matcher classes of the parser library: nothing in the policy parser uses them.
- RuleTables.RuleTable.AddRule: docstrings that do not list rules, which only a programming error could produce, and the splitting of a docstring into words.
- Symbol names are a datatype with a constructor for each name of the policy grammar and one for all others, instead of strings.
- Interpreter.PolicyEvaluator.Evaluate: Python's recursion limit is an explicit bound on nesting, which `FuelBound.ResultIndependentOfBound` shows not to matter to results that are reached. Arithmetic, comparison and logic builtins (but see `EvalLaws.OperatorOnIntegers`, for a Python that does on integers what the methods ask for), number tokens, truth values, iteration, attribute access and calls of Python objects are parameters; external calls may change the world but not the variable stack.
- CallByValue.UserCallIsByValue: freshness is sufficient, not necessary, for arbitrary arguments: values can coincide. For plain symbols as arguments the exact conditions are `CallByValue.LetIsParallelIff` and `CallByValue.PlainCallIsByValueIff`.
- ScopeFrame.EvalFrame: says nothing about evaluations that raise, which leave scopes behind; the policy store gives every round a fresh evaluator.
- Ledger.RunStaysInBounds: that the average size is not above the present one when the reference policy shrinks is assumed in each round, unless histories are one sample long; `Bounds.RefFitsIff` is the exact condition of a single call.
- PolicyStore.NamedPoliciesRunInOrder: that scanning goes line by line is an assumption about the scanner.
- Threads, semaphores and RPC: setting, clearing and evaluating are one step each.
- Logging, plotting, configuration and daemon start-up: none of it changes the modelled state. That formatting a log message could itself raise is not modelled.
- The external scripts that keep the host-free number in a file: the number is one exact real cell, and float rounding and printing are not modelled.
- The parameter file read by `opt_policy_select`: the step and reference policies take their numbers as given.
- IBalloon.AgreesOnEveryHostIff: is about all free numbers at once. For one poor host it depends on which growths are granted, and `IBalloon.AgreesIffNobodyChargedTwice` states it on the evaluation.
- RulesFiles.FileRuns: is for the files that apply one method to each guest (the seven of policies 1 to 7, iballoon.rules, opt_ref.rules and opt_step.rules). Files that compute in the rules language itself (balloon.rules, testopt_adp_refp.rules, testopt_adp_step.rules), and those of methods that are not modelled, are not covered. That a guest's method does what the policy decides is the condition on the surroundings; `Entities.Entity.RunCall` is the method. Line numbers, which only messages show, are one number.
- Monitoring.Monitor.Collect: the history length is fixed, as in a configuration that does not change.
- Hypervisor interfaces, collectors, the guest manager, and the KSM, CPU and I/O controllers: foreign calls or easy members.
