# Risp core in Dafny

Risp is a small Lisp interpreter. A program text goes through three stages:

- **Tokenizer** (`src/lex.rs`): it puts spaces around every parenthesis, splits the text on
  ASCII whitespace and turns each piece into `LPar`, `RPar` or a `Literal`.
- **Recursive-descent parser** (`src/parse.rs`): it threads an explicit token index and builds
  one expression tree. A tree is a `Symbol`, a number or a `List`.
- **Evaluator** (`src/eval.rs`):
  - It works over an `Environment`, a stack of frames. Each frame maps a name to a parameter
    list and a body.
  - Look-up searches the frames from the innermost outwards. `let` and `fn` define only in the
    innermost frame.
  - `eval` dispatches the thirteen special forms: `+ - * /`, `or and not`, `= !=`, `if`,
    `let`, `fn` and `print`.
  - A list headed by a bound symbol is a call.
    - When the binding has no parameters, the rest of the list is ignored and the stored
      expression is evaluated again in the current frames.
    - Otherwise the call evaluates its arguments in the caller's frames, then runs the body in
      a pushed frame that binds the parameters. The frame is popped whatever happens.
    - Scoping is dynamic: the body runs on top of the caller's whole frame stack, so it sees
      every name its callers bound.
  - A symbol that no frame binds evaluates to itself.
  - Any other list evaluates its elements, drops the `Unit` results and stops at the first
    error.

The model has the following modules:

| file | module | what it holds |
|---|---|---|
| `wrappers.dfy`, `types.dfy` | `Wrappers`, `Types` | `Option`, `Result` and the expression tree |
| `lex.dfy` | `Lex` | the tokenizer as functions, with its preservation properties |
| `parse.dfy` | `Parse` | `ParseAt`/`ParseItems`, which specify the parser |
| | | `Parser`, the source's `while` loop as a method proved equal to `ParseAt` |
| | | the parser's properties, including a round trip with an unparser |
| `scopes.dfy` | `Scopes` | the scope stack as values (`Resolve`, `Push`, `Pop`, `Define`, `AddVars`) |
| | | the `Environment` class whose methods update `contexts` in place |
| `primitives.dfy` | `Primitives` | special-form names and reserved words |
| | | the arithmetic and boolean folds, truthiness and the equality rules |
| `semantics.dfy` | `Semantics` | the evaluator as functions on a `State` (frames plus printed lines) |
| `evaluator.dfy` | `Evaluator` | the evaluator as methods that update one `Environment` and a `Console` |
| | | each method is proved equal to its `Semantics` function |
| `text.dfy` | `Text` | decimal numerals and `join`, as used in messages and printing |
| `properties.dfy` | `Properties` | what the evaluator guarantees, stated over `Semantics` |
| `fuel.dfy` | `Fuel` | more fuel never changes a finished evaluation or printing |

Every evaluator function ensures `Extends(before, after)`:

- the number of frames is unchanged;
- the outer frames are unchanged;
- the innermost frame keeps its names;
- the printed lines only grow.

So a call always restores the context count, on every path.

Fuel bounds evaluation. Every `Eval` step spends one unit. When the fuel runs out, the result
is the error `Evaluation ran out of fuel!`, which the program itself never produces. The bound
is only a device of the model: an evaluation that finishes with some fuel gives the same result
and state with any larger amount (`Fuel.EvalMonotone`), and so does printing
(`Fuel.RenderMonotone`).

The error text of a call with the wrong number of arguments is kept as written. It puts the
parameter count after "Provided" and the argument count after "expected"
(`Semantics.ArityMessage`, `Properties.ArityMessageExample`). The misspelt or inconsistent
messages are also kept verbatim, among them "Enviroment has no context!" and "Boolean
operations must be performed symbols!".

## Model

| member | source | states |
|---|---|---|
| Lex.TokenEq | src/lex.rs:8-16 | two tokens are equal under the hand-written `PartialEq` exactly when they are the same token: literals by text, each parenthesis only to itself |
| Lex.TokenEqIsEquivalence | src/lex.rs:8-16 | token equality is reflexive, symmetric and transitive |
| Lex.Lex | src/lex.rs:23-34 | `lex` always returns `Ok`: every piece maps to a token, so `UnknownToken` is never produced |
| Lex.LexLiteralsArePlain | src/lex.rs:24-31 | every literal token is non-empty and holds no parenthesis and no ASCII whitespace |
| Lex.LexKeepsText | src/lex.rs:24-32 | the token texts, with `(` for `LPar` and `)` for `RPar`, concatenate to the input with its ASCII whitespace removed |
| Lex.LexParens | src/lex.rs:24-31 | the parenthesis tokens are exactly the parentheses of the input, in input order |
| Parse.ParseAt | src/parse.rs:24-62 | a successful parse ends at an index strictly after the start and at most the number of tokens |
| Parse.ParseItems | src/parse.rs:31-46 | each pass of the element loop ends strictly after where it starts and within the tokens |
| Parse.Parser | src/parse.rs:24-62 | the `while`-loop parser returns exactly what `ParseAt` specifies, errors included |
| Parse.Parse | src/parse.rs:17-22 | `parse` gives the first expression on success and the parser's error otherwise |
| Parse.Atom | src/parse.rs:51-57 | a literal becomes a number exactly when its text reads as one, with the value read; otherwise it is the symbol with that text |
| Parse.LeadingToken | src/parse.rs:48-61 | past the end gives `EOF`; a leading `)` gives "Unexpected ) encountered!"; a literal gives a number when its text reads as one, else a symbol, with the next index one further |
| Parse.EmptyListNeverParses | src/parse.rs:26-46 | `( )` fails with "Unexpected ) encountered!", because the loop parses an element before it looks for `)` |
| Parse.ParsedShape | src/parse.rs:26-46 | no list in a parsed tree is empty; a parsed list starts at `(` and ends one past a `)` |
| Parse.ParsedBalanced | src/parse.rs:24-62 | the tokens a successful parse consumes are balanced: as many `(` as `)`, and more `(` than `)` in every proper non-empty prefix, so the `)` that ends a parsed list matches its opening `(` |
| Parse.ItemsBalanced | src/parse.rs:31-46 | the element loop and its closing `)` take the count of open parentheses to minus one without dropping below zero before the `)` |
| Parse.ParseIsLocal | src/parse.rs:24-62 | a successful parse depends only on the tokens it consumed |
| Parse.TrailingTokensIgnored | src/parse.rs:17-22 | tokens after the first expression do not change the result of `parse` |
| Parse.MissingCloserIsUnclosed | src/parse.rs:39-46 | cutting the closing `)` of a parsed list makes it fail with "Unclosed delimiter!" |
| Parse.ParseUnparse | src/parse.rs:24-62 | parsing the tokens of any tree the parser can produce gives back that tree and consumes exactly its tokens, whatever surrounds them |
| Scopes.Resolve | src/eval.rs:45-53 | look-up gives the binding of the innermost frame holding the name, and `None` exactly when no frame holds it |
| Scopes.IsBound | src/eval.rs:56-62 | `contains_key` holds exactly when look-up finds a binding |
| Scopes.Push | src/eval.rs:65-67 | one empty frame is added on top; the others are kept |
| Scopes.Pop | src/eval.rs:70-72 | the top frame is removed; an empty stack stays empty |
| Scopes.Define | src/eval.rs:75-95 | with no frame, the result is the error "Enviroment has no context!"; otherwise only the innermost frame changes, it gains the name, and the depth is kept |
| Scopes.DefineResolves | src/eval.rs:75-95 | after a definition the name resolves to the new binding and every other name resolves as before |
| Scopes.AddVars | src/eval.rs:26-33 | adding a run of variables keeps the number of frames |
| Scopes.AddVarsOnTop | src/eval.rs:29-31 | adding variables on a stack only merges them, later pairs winning, into the top frame |
| Scopes.DefaultBindings | src/eval.rs:36-42 | the default environment has one frame, binding `False` to `()` and `True` to `(1)`, and no other name |
| Scopes.ScopedDefinition | src/eval.rs:65-83 | push, then `add_var`, then pop: the name resolves in the pushed frame, and afterwards the stack is exactly as before |
| Scopes.Environment.Empty | src/eval.rs:19-23 | the empty environment has no frames |
| Scopes.Environment.FromVars | src/eval.rs:26-33 | one pushed frame, then `add_var` for each pair in order |
| Scopes.Environment.Default | src/eval.rs:36-42 | one pushed frame with `False` and `True` added in that order |
| Scopes.Environment.Lookup | src/eval.rs:45-53 | the loop from the innermost frame returns what `Resolve` specifies |
| Scopes.Environment.ContainsKey | src/eval.rs:56-62 | the loop finds a frame exactly when `Resolve` finds a binding |
| Scopes.Environment.AddEach | src/eval.rs:29-31 | each pair is added in order, ignoring errors, as `AddVars` specifies |
| Scopes.Environment.PushContext | src/eval.rs:65-67 | the new stack is `Push` of the old one |
| Scopes.Environment.PopContext | src/eval.rs:70-72 | the new stack is `Pop` of the old one |
| Scopes.Environment.AddVar | src/eval.rs:75-83 | with no frame: the error, and the stack is unchanged; otherwise `Ok` and the stack `Define` gives with an empty parameter list |
| Scopes.Environment.AddFn | src/eval.rs:86-95 | with no frame: the error, and the stack is unchanged; otherwise `Ok` and the stack `Define` gives with the parameter list |
| Scopes.Environment.NumContexts | src/eval.rs:98-100 | the number of frames on the stack |
| Primitives.SpecialForm | src/eval.rs:115-130 | a name heads a special form exactly when it is one of the thirteen reserved names |
| Primitives.ReservedWords | src/eval.rs:459-468 | a name is refused exactly when it is one of the thirteen special forms, with "Reserved variable or function name!" |
| Primitives.QuotBounds | src/eval.rs:241 | integer division truncates toward zero: the quotient times the divisor is within one divisor of the dividend, and not beyond it |
| Primitives.QuotSign | src/eval.rs:241 | a non-zero quotient is negative exactly when the operands have opposite signs |
| Primitives.MathFold | src/eval.rs:235-245 | the fold of a single operand is that operand; `AddIsSum`, `SubIsFirstMinusRest` and `MulIsProduct` state what each operator's fold computes |
| Primitives.AddIsSum | src/eval.rs:235-245 | the `+` fold is the sum of the operands |
| Primitives.SubIsFirstMinusRest | src/eval.rs:235-245 | the `-` fold is the first operand minus the sum of the others |
| Primitives.MulIsProduct | src/eval.rs:235-245 | the `*` fold is the product of the operands |
| Primitives.Truth | src/eval.rs:265-279 | a number has no truth value; otherwise a value is false exactly when it is the symbol `False` or the empty list (`if` uses the same rule, src/eval.rs:358-368) |
| Primitives.BoolFold | src/eval.rs:285-292 | the fold of a single operand is that operand; `OrIsExists` and `AndIsForall` state what each operator's fold computes |
| Primitives.BoolSymbol | src/eval.rs:293-302 | the symbol returned for a truth value has that truth value |
| Primitives.OrIsExists | src/eval.rs:285-292 | the `or` fold holds exactly when some operand is true |
| Primitives.AndIsForall | src/eval.rs:285-292 | the `and` fold holds exactly when every operand is true |
| Primitives.EqualityHolds | src/eval.rs:330-335 | `=` holds exactly when all operands are pairwise equal, `!=` exactly when some two of them differ |
| Primitives.EqualityFacts | src/eval.rs:330-335 | `!=` is the negation of `=`; `=` means all operands are pairwise equal; one operand is always `=` |
| Text.NatToString | src/eval.rs:169-172 | a count is written as a non-empty string of decimal digits without a leading zero |
| Text.NatToStringValue | src/eval.rs:169-172 | the written count reads back as the same number |
| Text.NatToStringInjective | src/eval.rs:169-172 | different counts are written differently |
| Text.IntToString | src/eval.rs:495 | a number prints as a non-empty numeral that starts with `-` exactly when it is negative |
| Semantics.ParamNames | src/eval.rs:432-442 | `fn` parameters are accepted exactly when all are symbols, giving their names in order; otherwise the error "Function arguments must be strings!" |
| Semantics.Eval | src/eval.rs:104-153 | evaluation keeps the frame count and the outer frames, only adds names to the innermost frame, and only appends printed lines |
| Semantics.EvalForm | src/eval.rs:115-130 | a special form preserves the same frame and output invariant |
| Semantics.EvalOperands | src/eval.rs:136-147 | evaluating operands left to right keeps the invariant and, on success, gives one value per operand |
| Semantics.ImplicitList | src/eval.rs:135-149 | an implicit list keeps the frame and output invariant |
| Semantics.EvalSymbol | src/eval.rs:156-206 | a reference or call keeps the frame and output invariant, so the frame a call pushes is always popped |
| Semantics.DoMath | src/eval.rs:213-248 | arithmetic keeps the frame and output invariant |
| Semantics.DoBoolean | src/eval.rs:254-306 | boolean operations keep the frame and output invariant |
| Semantics.DoEquality | src/eval.rs:311-342 | equality operations keep the frame and output invariant |
| Semantics.IfStatement | src/eval.rs:346-379 | `if` keeps the frame and output invariant |
| Semantics.AddVarToEnv | src/eval.rs:383-408 | `let` keeps the frame and output invariant |
| Semantics.AddFunToEnv | src/eval.rs:412-456 | `fn` keeps the frame and output invariant |
| Semantics.Print | src/eval.rs:472-485 | `print` keeps the frame and output invariant |
| Semantics.Render | src/eval.rs:488-504 | a number prints as its numeral; a list that prints is wrapped in parentheses; `Properties.RenderSymbols` states the symbol cases |
| Semantics.RenderAll | src/eval.rs:497-500 | when rendering succeeds it gives one string per element, and each is the rendering of that element |
| Evaluator.Console.WriteLine | src/eval.rs:482 | one line is appended to the output |
| Evaluator.Eval | src/eval.rs:104-153 | the method, updating the environment in place, gives the result and final state of `Semantics.Eval` |
| Evaluator.EvalList | src/eval.rs:108-150 | a non-empty list is dispatched as `Semantics.Eval` specifies |
| Evaluator.EvalForm | src/eval.rs:115-130 | each special form runs as `Semantics.EvalForm` specifies |
| Evaluator.EvalOperands | src/eval.rs:136-147 | the operand loop gives the values and state of `Semantics.EvalOperands` |
| Evaluator.ImplicitList | src/eval.rs:135-149 | as `Semantics.ImplicitList` |
| Evaluator.EvaluateSymbol | src/eval.rs:156-206 | push, bind, evaluate and pop on the one environment, as `Semantics.EvalSymbol` specifies |
| Evaluator.FoldMath | src/eval.rs:235-245 | the `let mut result` loop computes the left fold `MathFold` |
| Evaluator.FoldBool | src/eval.rs:285-292 | the `|=`/`&=` loop computes `BoolFold` |
| Evaluator.DoMath | src/eval.rs:213-248 | as `Semantics.DoMath` |
| Evaluator.DoBoolean | src/eval.rs:254-306 | as `Semantics.DoBoolean` |
| Evaluator.DoEquality | src/eval.rs:311-342 | as `Semantics.DoEquality` |
| Evaluator.IfStatement | src/eval.rs:346-379 | as `Semantics.IfStatement` |
| Evaluator.AddVarToEnv | src/eval.rs:383-408 | as `Semantics.AddVarToEnv` |
| Evaluator.AddFunToEnv | src/eval.rs:412-456 | as `Semantics.AddFunToEnv` |
| Evaluator.Print | src/eval.rs:472-485 | as `Semantics.Print`, writing the joined rendering as one line |
| Properties.UnboundSymbolSelfEvaluates | src/eval.rs:162-163 | a symbol no frame binds evaluates to itself and changes nothing |
| Properties.VariableIsReevaluated | src/eval.rs:165-166 | a variable's stored expression is evaluated again, in the current frames, at each reference |
| Properties.ArityMismatch | src/eval.rs:168-174 | a call with the wrong number of arguments fails with the swapped-count message before evaluating or pushing anything |
| Properties.ArityMessageDetermined | src/eval.rs:169-172 | the message determines both counts: different pairs of parameter and argument counts give different messages |
| Properties.ArityMessageExample | src/eval.rs:169-172 | two parameters and one argument give "Provided 2 arguments but expected 1!" |
| Properties.CallFrame | src/eval.rs:176-205 | arguments are evaluated in the caller's frames; the body runs in one pushed frame binding each parameter to its argument; afterwards the caller's frames are back |
| Properties.CallBodyFrame | src/eval.rs:188-200 | the pushed frame is the caller's frames plus one frame binding the parameters, and popping it after the body gives back the caller's frames |
| Properties.OperandsCons | src/eval.rs:136-147 | the first operand is evaluated first, and an error stops the rest |
| Properties.OperandsNil | src/eval.rs:136-147 | no operands evaluate nothing |
| Properties.CallDispatch | src/eval.rs:132-134 | a list headed by a bound symbol that is not a special form is a call of that symbol |
| Properties.UnaryCall | src/eval.rs:176-205 | calling a one-parameter function on a number runs its body with the parameter bound to that number in a new frame |
| Properties.DynamicScopeExample | src/eval.rs:183-200 | the same body reads a variable from whichever caller runs it: called from a function binding `x` to 5 it sees 5, called from the top level, where `x` is unbound, it sees the symbol `x`. Scoping is dynamic |
| Properties.UnitArgumentRejected | src/eval.rs:176-201 | an argument that evaluates to `Unit` fails the call with "Cannot pass Unit as an argument to a function!"; the body does not run and the pushed frame is popped, leaving the contexts that argument left |
| Properties.NumberOperands | src/eval.rs:220-230 | number literals as operands evaluate to their numbers and change nothing |
| Properties.MathOfNumbers | src/eval.rs:213-248 | on numbers, arithmetic is the left fold of the operator, and a single operand comes back unchanged |
| Properties.AdditionIsSum | src/eval.rs:235-245 | `(+ n1 n2 ...)` is the sum of the numbers |
| Properties.MathRejectsNonNumber | src/eval.rs:214-230 | no operands, or a first operand that is not a number or is `Unit`, give an error |
| Properties.BooleanMeaning | src/eval.rs:254-306 | `or` is "some operand truthy", `and` is "every operand truthy", `not` inverts its one operand |
| Properties.BooleanRejects | src/eval.rs:254-279 | no operands fail with "Boolean operations must be performed on at least value!", `not` with other than one operand with "Negation must be performed on one symbol!", both before anything is evaluated; past those checks, a first operand that evaluates to a number fails with "Boolean operations must be performed symbols!", one that evaluates to `Unit` with "Boolean operations must be performed on symbols!", before later operands are evaluated |
| Properties.TruthResults | src/eval.rs:293-302 | boolean and equality operations return only the symbols `True` or `False` |
| Properties.NegationArity | src/eval.rs:259-261 | `not` with other than one operand fails and changes nothing |
| Properties.DefaultTruth | src/eval.rs:265-279 | in the default environment `True` evaluates to `(1)`, which is truthy, and `False` to `()`, which is not |
| Properties.LetLiteral | src/eval.rs:383-408 | `(let x n)` returns `Unit` and binds `x` in the innermost frame |
| Properties.UnitOperandComparedAsWritten | src/eval.rs:318-325 | for any operand of `=` or `!=` whose evaluation gives `Unit`, its unevaluated expression takes its place among the compared values, after its effects on the frames |
| Properties.EqualityOfUnits | src/eval.rs:318-325 | example: two identical definitions are equal under `=`, and the definition still happens |
| Properties.IfShapeChecked | src/eval.rs:347-351 | `if` with other than three operands fails and changes nothing |
| Properties.IfSelectsOneBranch | src/eval.rs:356-377 | only the branch the predicate's truth value selects is evaluated |
| Properties.IfPredicateErrors | src/eval.rs:356-370 | a number or `Unit` as predicate is an error |
| Properties.LetReservedFirst | src/eval.rs:391-396 | `let` refuses a reserved name before evaluating anything |
| Properties.LetBinds | src/eval.rs:398-405 | a successful `let` returns `Unit` and binds exactly that name in the innermost frame |
| Properties.LetWithoutContext | src/eval.rs:401-403 | with no frame, `let` reports "Enviroment has no context!" |
| Properties.LetOfUnitFails | src/eval.rs:404 | `let` of a `Unit` value fails |
| Properties.FnReservedFirst | src/eval.rs:423-428 | `fn` refuses a reserved name |
| Properties.FnRejectsNonSymbolParam | src/eval.rs:432-445 | `fn` with a non-symbol parameter fails and changes nothing |
| Properties.FnBinds | src/eval.rs:444-449 | a successful `fn` returns `Unit` and binds the name to its parameters and body in the innermost frame |
| Properties.NumberListSelfEvaluates | src/eval.rs:135-149 | a list of numbers evaluates to itself |
| Properties.ListOfNumbers | src/eval.rs:136-147 | the elements of a list of numbers evaluate to themselves, one by one |
| Properties.UnitElementDropped | src/eval.rs:139 | for any implicit list, an element whose evaluation gives `Unit` contributes no value; the rest is evaluated in the state it left |
| Properties.ValueElementKept | src/eval.rs:136-147 | an element with a value is kept, in front of the values of the rest; an error of the rest is the error of the whole |
| Properties.UnitsAreDropped | src/eval.rs:139 | example: `((let x 1) 2)` evaluates to `(2)` |
| Properties.PrintAddsOneLine | src/eval.rs:472-485 | a successful `print` adds exactly one line and changes no frame |
| Properties.RenderWithoutVariables | src/eval.rs:488-504 | rendering needs no fuel when no variable occurs |
| Properties.RenderAllWithoutVariables | src/eval.rs:497-500 | the same for a run of expressions |
| Properties.RenderAllSucceeds | src/eval.rs:497-500 | a run of expressions renders exactly when each of its elements does |
| Properties.RenderSymbols | src/eval.rs:489-494 | an unbound symbol prints as its name, a function as `<func-object: name>`, and a variable as its value |
| Properties.SelfReferenceRunsOutOfFuel | src/eval.rs:490-492 | a variable bound to its own name never finishes rendering |
| Fuel.EvalMonotone | src/eval.rs:104-153 | an evaluation that does not run out of fuel gives the same result and final state with any larger fuel |
| Fuel.EvalFormMonotone | src/eval.rs:115-130 | the same for a special form |
| Fuel.OperandsMonotone | src/eval.rs:136-147 | the same for a run of operands, for every reading of operands that passes the out-of-fuel error through |
| Fuel.ImplicitListMonotone | src/eval.rs:135-149 | the same for an implicit list |
| Fuel.EvalSymbolMonotone | src/eval.rs:156-206 | the same for a reference or a call |
| Fuel.DoMathMonotone | src/eval.rs:213-248 | the same for arithmetic |
| Fuel.DoBooleanMonotone | src/eval.rs:254-306 | the same for boolean operations |
| Fuel.DoEqualityMonotone | src/eval.rs:311-342 | the same for equality operations |
| Fuel.IfStatementMonotone | src/eval.rs:346-379 | the same for `if` |
| Fuel.AddVarToEnvMonotone | src/eval.rs:383-408 | the same for `let` |
| Fuel.PrintMonotone | src/eval.rs:472-485 | the same for `print` |
| Fuel.RenderMonotone | src/eval.rs:488-504 | a rendering that succeeds gives the same text with any larger fuel |
| Fuel.RenderAllMonotone | src/eval.rs:497-500 | the same for a run of expressions |

## Left out

- Numbers are Dafny integers, not `f64`. Arithmetic is exact. Division truncates toward zero,
  and dividing by zero gives 0, where `f64` gives an infinity or NaN. NaN and `-0.0` equality
  are not modelled.
- Primitives.QuotBounds: the division rule above stands in for `f64` division (src/eval.rs:241).
- Properties.MathRejectsNonNumber: stated for the first operand only. A later operand goes
  through the same step of `Semantics.EvalOperands` (`Properties.OperandsCons`) once the
  operands before it have succeeded.
- Properties.BooleanRejects: stated for the first operand only, for the same reason.
- Parse.Atom: Rust's `str::parse::<f64>` is a parameter, `readNum`. The model does not fix
  which texts read as numbers.
- Text.IntToString: numbers print as decimal integers. This matches `f64` `Display` only for
  integral values.
- Non-termination: evaluation and printing are bounded by fuel. A program that recurses
  forever, or a variable bound to itself and printed, gives an out-of-fuel error. Stack
  exhaustion in the program is not modelled.
- Standard output: `println!` becomes an appended line. It goes to `Console.lines` in
  `Evaluator` and to `State.out` in `Semantics`.
- `Rc` sharing and cloning: expressions are immutable values.
- The "Illegal mathematical/boolean/equality operation!" branches are not modelled. The
  operator comes from the dispatch in `eval` and is always one of the handled ones, so those
  branches cannot run.
- `src/interpreter.rs` (REPL and file reading) and `bin/main.rs` (command-line dispatch) are
  not part of this model.
- `src/types.rs` is not part of this model. `Expr` is taken from its uses: a symbol, a number
  or a list.
