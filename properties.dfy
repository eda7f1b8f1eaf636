/** What the evaluator guarantees, stated over the functions of `Semantics`. */
module Properties {
  import opened Wrappers
  import opened Types
  import opened Text
  import opened Scopes
  import opened Primitives
  import opened Semantics

  // ---------------------------------------------------------------------
  // Symbols and calls

  /** A symbol that no frame binds evaluates to itself and changes nothing. */
  lemma UnboundSymbolSelfEvaluates(s: string, st: State, fuel: nat)
    requires fuel > 0 && !IsBound(st.env, s)
    ensures Eval(Symbol(s), st, fuel) == Evaluated(Value(Symbol(s)), st)
  {
  }

  /** A variable is evaluated again at every reference, in the current
      contexts. */
  lemma VariableIsReevaluated(s: string, st: State, fuel: nat)
    requires fuel > 0 && Resolve(st.env, s).Some? && Resolve(st.env, s).value.params == []
    ensures Eval(Symbol(s), st, fuel) == Eval(Resolve(st.env, s).value.body, st, fuel - 1)
  {
  }

  /** A call with the wrong number of arguments fails before anything is
      evaluated or pushed; the message names the parameter count first. */
  lemma ArityMismatch(e: Expr, s: string, args: seq<Expr>, st: State, fuel: nat)
    requires Resolve(st.env, s).Some?
    requires Resolve(st.env, s).value.params != []
    requires |Resolve(st.env, s).value.params| != |args|
    ensures EvalSymbol(e, s, args, st, fuel)
         == Evaluated(Err(ArityMessage(|Resolve(st.env, s).value.params|, |args|)), st)
  {
  }

  /** The message for two parameters and one argument. */
  lemma ArityMessageExample()
    ensures ArityMessage(2, 1) == "Provided 2 arguments but expected 1!"
  {
    assert NatToString(2) == "2" && NatToString(1) == "1";
  }

  /** The message names both counts: different pairs of counts give
      different messages. */
  lemma ArityMessageDetermined(params: nat, args: nat, params': nat, args': nat)
    requires ArityMessage(params, args) == ArityMessage(params', args')
    ensures params == params' && args == args'
  {
    ArityMessageShape(params, args);
    ArityMessageShape(params', args');
    NumeralsSplit("Provided ", " arguments but expected ", "!",
                  NatToString(params), NatToString(args), NatToString(params'), NatToString(args'));
    NatToStringInjective(params, params');
    NatToStringInjective(args, args');
  }

  lemma ArityMessageShape(params: nat, args: nat)
    ensures ArityMessage(params, args)
         == "Provided " + (NatToString(params) + (" arguments but expected " + (NatToString(args) + "!")))
  {
  }

  /** A call evaluates its arguments in the caller's contexts, then runs the
      body with every frame of the caller visible plus one new innermost frame
      binding the parameters (dynamic scoping). Whatever the body defines is
      dropped with that frame: afterwards the contexts are those left by the
      arguments. An argument error still pushes and pops the frame. */
  lemma CallFrame(e: Expr, s: string, args: seq<Expr>, st: State, fuel: nat)
    requires Resolve(st.env, s).Some?
    requires Resolve(st.env, s).value.params != []
    requires |Resolve(st.env, s).value.params| == |args|
    ensures var a := EvalOperands(args, st, fuel, Argument);
            EvalSymbol(e, s, args, st, fuel).st.env == a.st.env
    ensures var a := EvalOperands(args, st, fuel, Argument);
            a.result.Fail? ==> EvalSymbol(e, s, args, st, fuel) == Evaluated(Err(a.result.error), a.st)
    ensures var b := Resolve(st.env, s).value;
            var a := EvalOperands(args, st, fuel, Argument);
            a.result.Ok? ==>
              var body := Eval(b.body, State(a.st.env + [VarsFrame(Zip(b.params, a.result.value))], a.st.out), fuel);
              EvalSymbol(e, s, args, st, fuel) == Evaluated(body.result, State(a.st.env, body.st.out))
  {
    var b := Resolve(st.env, s).value;
    var a := EvalOperands(args, st, fuel, Argument);
    if a.result.Ok? {
      CallBodyFrame(b, a, fuel);
    } else {
      ArgumentsFail(e, s, args, st, fuel);
    }
  }

  /** A failing argument fails the call with its error; the frame pushed for
      the call is popped again at once. */
  lemma ArgumentsFail(e: Expr, s: string, args: seq<Expr>, st: State, fuel: nat)
    requires Resolve(st.env, s).Some?
    requires Resolve(st.env, s).value.params != []
    requires |Resolve(st.env, s).value.params| == |args|
    requires EvalOperands(args, st, fuel, Argument).result.Fail?
    ensures var a := EvalOperands(args, st, fuel, Argument);
            EvalSymbol(e, s, args, st, fuel) == Evaluated(Err(a.result.error), a.st)
  {
    var a := EvalOperands(args, st, fuel, Argument);
    assert Pop(Push(a.st.env)) == a.st.env;
  }

  /** An argument that evaluates to `Unit` fails the call with its own error:
      no later argument is evaluated, the body does not run, and the frame
      pushed for the call is popped again, so the contexts are those the
      failing argument left. */
  lemma UnitArgumentRejected(e: Expr, s: string, args: seq<Expr>, st: State, fuel: nat)
    requires Resolve(st.env, s).Some?
    requires Resolve(st.env, s).value.params != []
    requires |Resolve(st.env, s).value.params| == |args|
    requires Eval(args[0], st, fuel).result.Unit?
    ensures EvalSymbol(e, s, args, st, fuel) == Evaluated(Err(ArgumentOfUnit), Eval(args[0], st, fuel).st)
  {
    var h := Eval(args[0], st, fuel);
    assert EvalOperands(args, st, fuel, Argument) == Operands(Fail(ArgumentOfUnit), h.st) by {
      OperandsCons(args[0], args[1..], st, fuel, Argument);
      assert [args[0]] + args[1..] == args;
    }
    ArgumentsFail(e, s, args, st, fuel);
  }

  /** The frame a call pushes is the caller's contexts plus one frame of
      parameters, and popping it after the body restores the caller's contexts. */
  lemma CallBodyFrame(b: Binding, a: Operands<Expr>, fuel: nat)
    requires a.result.Ok? && |a.result.value| == |b.params|
    ensures var pairs := Zip(b.params, a.result.value);
            a.st.(env := AddVars(Push(a.st.env), pairs)) == State(a.st.env + [VarsFrame(pairs)], a.st.out)
    ensures var pairs := Zip(b.params, a.result.value);
            var body := Eval(b.body, State(a.st.env + [VarsFrame(pairs)], a.st.out), fuel);
            Pop(body.st.env) == a.st.env
  {
    var pairs := Zip(b.params, a.result.value);
    AddVarsOnTop(a.st.env, map[], pairs);
    assert map[] + VarsFrame(pairs) == VarsFrame(pairs);
    var body := Eval(b.body, State(a.st.env + [VarsFrame(pairs)], a.st.out), fuel);
    assert body.st.env[..|a.st.env|] == a.st.env;
  }

  /** Evaluating a run of operands whose first element is `x`. */
  lemma OperandsCons<T>(x: Expr, rest: seq<Expr>, st: State, fuel: nat, conv: (EvalResult, Expr) -> Result<T, string>)
    ensures var h := Eval(x, st, fuel);
            conv(h.result, x).Fail? ==>
              EvalOperands([x] + rest, st, fuel, conv) == Operands(Fail(conv(h.result, x).error), h.st)
    ensures var h := Eval(x, st, fuel);
            var t := EvalOperands(rest, h.st, fuel, conv);
            conv(h.result, x).Ok? && t.result.Ok? ==>
              EvalOperands([x] + rest, st, fuel, conv) == Operands(Ok([conv(h.result, x).value] + t.result.value), t.st)
    ensures var h := Eval(x, st, fuel);
            var t := EvalOperands(rest, h.st, fuel, conv);
            conv(h.result, x).Ok? && t.result.Fail? ==> EvalOperands([x] + rest, st, fuel, conv) == t
  {
    var es := [x] + rest;
    assert es[0] == x && es[1..] == rest;
  }

  /** No operands: nothing is evaluated. */
  lemma OperandsNil<T>(st: State, fuel: nat, conv: (EvalResult, Expr) -> Result<T, string>)
    ensures EvalOperands([], st, fuel, conv) == Operands(Ok([]), st)
  {
  }

  /** A list headed by a bound symbol that is not a special form is a call. */
  lemma CallDispatch(name: string, args: seq<Expr>, st: State, fuel: nat)
    requires SpecialForm(name).None? && IsBound(st.env, name) && fuel > 0
    ensures Eval(List([Symbol(name)] + args), st, fuel)
         == EvalSymbol(List([Symbol(name)] + args), name, args, st, fuel - 1)
  {
    assert ([Symbol(name)] + args)[1..] == args;
  }

  /** A call of a one-parameter function with a number literal runs the body
      in the caller's contexts plus a frame binding the parameter. */
  lemma UnaryCall(name: string, n: Num, st: State, fuel: nat)
    requires SpecialForm(name).None? && Resolve(st.env, name).Some?
    requires |Resolve(st.env, name).value.params| == 1 && fuel > 1
    ensures Eval(List([Symbol(name), FNum(n)]), st, fuel).result
         == Eval(Resolve(st.env, name).value.body,
                 State(st.env + [map[Resolve(st.env, name).value.params[0] := Binding([], FNum(n))]], st.out),
                 fuel - 1).result
  {
    var b := Resolve(st.env, name).value;
    var e := List([Symbol(name), FNum(n)]);
    CallDispatch(name, [FNum(n)], st, fuel);
    assert [Symbol(name)] + [FNum(n)] == [Symbol(name), FNum(n)];
    OperandsCons(FNum(n), [], st, fuel - 1, Argument);
    OperandsNil(st, fuel - 1, Argument);
    assert [FNum(n)] + [] == [FNum(n)];
    assert EvalOperands([FNum(n)], st, fuel - 1, Argument) == Operands(Ok([FNum(n)]), st);
    CallFrame(e, name, [FNum(n)], st, fuel - 1);
    var pairs := Zip(b.params, [FNum(n)]);
    assert pairs == [(b.params[0], FNum(n))];
    assert VarsFrame(pairs) == map[b.params[0] := Binding([], FNum(n))] by {
      assert pairs[..0] == [];
    }
  }

  /** `(fn f (y) x)`: a function whose body reads a name it does not bind. */
  const ReadsX := Binding(["y"], Symbol("x"))

  /** `(fn g (x) (f 0))`: a function that binds `x` and calls `f`. */
  const BindsX := Binding(["x"], List([Symbol("f"), FNum(0)]))

  const Globals: Frame := map["f" := ReadsX, "g" := BindsX]

  /** The contexts while `g` runs with `x` = 5. */
  const InG: Contexts := [Globals] + [map["x" := Binding([], FNum(5))]]

  /** The contexts while `f` runs, called from `g`. */
  const InF: Contexts := InG + [map["y" := Binding([], FNum(0))]]

  /** The contexts while `f` runs, called from the top level. */
  const InTopF: Contexts := [Globals] + [map["y" := Binding([], FNum(0))]]

  lemma EnterG()
    ensures Eval(List([Symbol("g"), FNum(5)]), State([Globals], []), 6).result
         == Eval(List([Symbol("f"), FNum(0)]), State(InG, []), 5).result
  {
    assert Innermost([Globals], "g", 0);
    UnaryCall("g", 5, State([Globals], []), 6);
  }

  lemma EnterF()
    ensures Eval(List([Symbol("f"), FNum(0)]), State(InG, []), 5).result
         == Eval(Symbol("x"), State(InF, []), 4).result
  {
    assert Innermost(InG, "f", 0);
    UnaryCall("f", 0, State(InG, []), 5);
  }

  lemma ReadX()
    ensures Eval(Symbol("x"), State(InF, []), 4).result == Value(FNum(5))
  {
    assert Innermost(InF, "x", 1);
    VariableIsReevaluated("x", State(InF, []), 4);
  }

  lemma EnterFFromTop()
    ensures Eval(List([Symbol("f"), FNum(0)]), State([Globals], []), 6).result
         == Eval(Symbol("x"), State(InTopF, []), 5).result
  {
    assert Innermost([Globals], "f", 0);
    UnaryCall("f", 0, State([Globals], []), 6);
  }

  lemma XUnboundAtTop()
    ensures Eval(Symbol("x"), State(InTopF, []), 5).result == Value(Symbol("x"))
  {
    assert !IsBound(InTopF, "x") by {
      forall i | 0 <= i < |InTopF|
        ensures "x" !in InTopF[i]
      {
      }
    }
    UnboundSymbolSelfEvaluates("x", State(InTopF, []), 5);
  }

  /** Dynamic scoping: the same body of `f` reads `x` from whichever caller
      is running. Called from `g`, which binds `x` to 5, it sees 5; called
      from the top level, where nothing binds `x`, the symbol evaluates to
      itself. */
  lemma DynamicScopeExample()
    ensures Eval(List([Symbol("g"), FNum(5)]), State([Globals], []), 6).result == Value(FNum(5))
    ensures Eval(List([Symbol("f"), FNum(0)]), State([Globals], []), 6).result == Value(Symbol("x"))
  {
    EnterG();
    EnterF();
    ReadX();
    EnterFFromTop();
    XUnboundAtTop();
  }

  // ---------------------------------------------------------------------
  // Arithmetic

  ghost predicate AllNumbers(vals: seq<Expr>) {
    forall i | 0 <= i < |vals| :: vals[i].FNum?
  }

  function Nums(vals: seq<Expr>): (ns: seq<Num>)
    requires AllNumbers(vals)
    ensures |ns| == |vals| && forall i | 0 <= i < |vals| :: ns[i] == vals[i].num
  {
    if vals == [] then [] else [vals[0].num] + Nums(vals[1..])
  }

  /** Number literals as operands evaluate to their numbers and change nothing. */
  lemma {:induction false} NumberOperands(vals: seq<Expr>, st: State, fuel: nat)
    requires AllNumbers(vals) && fuel > 0
    ensures EvalOperands(vals, st, fuel, NumberOperand) == Operands(Ok(Nums(vals)), st)
    decreases |vals|
  {
    if vals != [] {
      NumberOperands(vals[1..], st, fuel);
    }
  }

  /** On number literals the arithmetic operations are the left fold of their
      operator, so one operand comes back unchanged. */
  lemma MathOfNumbers(op: MathOp, vals: seq<Expr>, st: State, fuel: nat)
    requires vals != [] && AllNumbers(vals) && fuel > 0
    ensures DoMath(op, vals, st, fuel) == Evaluated(Value(FNum(MathFold(op, Nums(vals)))), st)
    ensures |vals| == 1 ==> DoMath(op, vals, st, fuel) == Evaluated(Value(vals[0]), st)
  {
    NumberOperands(vals, st, fuel);
  }

  /** `(+ n1 n2 ...)` is the sum of the numbers. */
  lemma AdditionIsSum(vals: seq<Expr>, st: State, fuel: nat)
    requires vals != [] && AllNumbers(vals) && fuel > 1
    ensures Eval(List([Symbol("+")] + vals), st, fuel) == Evaluated(Value(FNum(Sum(Nums(vals)))), st)
  {
    var e := [Symbol("+")] + vals;
    assert e[1..] == vals;
    MathOfNumbers(Add, vals, st, fuel - 1);
    AddIsSum(Nums(vals));
  }

  /** No operands, or a first operand that evaluates to something other than
      a number (a symbol, a list or `Unit`), stops the arithmetic with an
      error before any later operand is evaluated. */
  lemma MathRejectsNonNumber(op: MathOp, vals: seq<Expr>, st: State, fuel: nat)
    ensures vals == [] ==> DoMath(op, vals, st, fuel) == Evaluated(Err(NoNumbers), st)
    ensures vals != [] && (Eval(vals[0], st, fuel).result.Unit? ||
                           (Eval(vals[0], st, fuel).result.Value? && !Eval(vals[0], st, fuel).result.expr.FNum?)) ==>
              DoMath(op, vals, st, fuel) == Evaluated(Err(NotNumbers), Eval(vals[0], st, fuel).st)
  {
    if vals != [] {
      OperandsCons(vals[0], vals[1..], st, fuel, NumberOperand);
      assert [vals[0]] + vals[1..] == vals;
    }
  }

  // ---------------------------------------------------------------------
  // Truthiness, boolean operations and equality

  /** What `or`, `and` and `not` compute from the truth values of their
      operands. */
  lemma BooleanMeaning(op: BoolOp, vals: seq<Expr>, st: State, fuel: nat)
    requires vals != [] && (op == Not ==> |vals| == 1)
    requires EvalOperands(vals, st, fuel, BooleanOperand).result.Ok?
    ensures var bs := EvalOperands(vals, st, fuel, BooleanOperand).result.value;
            DoBoolean(op, vals, st, fuel).result == Value(BoolSymbol(
              match op
              case Or => exists i | 0 <= i < |bs| :: bs[i]
              case And => forall i | 0 <= i < |bs| :: bs[i]
              case Not => !bs[0]))
  {
    var bs := EvalOperands(vals, st, fuel, BooleanOperand).result.value;
    match op
    case Or => OrIsExists(bs);
    case And => AndIsForall(bs);
    case Not =>
  }

  /** No operands, or `not` with other than one, fail before anything is
      evaluated. Otherwise a first operand that evaluates to a number, or to
      `Unit`, stops a boolean operation with that case's own error before any
      later operand is evaluated. */
  lemma BooleanRejects(op: BoolOp, vals: seq<Expr>, st: State, fuel: nat)
    ensures vals == [] ==> DoBoolean(op, vals, st, fuel) == Evaluated(Err(NoBooleans), st)
    ensures vals != [] && op == Not && |vals| != 1 ==>
              DoBoolean(op, vals, st, fuel) == Evaluated(Err(Semantics.NegationArity), st)
    ensures vals != [] && (op == Not ==> |vals| == 1) &&
            Eval(vals[0], st, fuel).result.Value? && Eval(vals[0], st, fuel).result.expr.FNum? ==>
              DoBoolean(op, vals, st, fuel) == Evaluated(Err(BooleanOfNumber), Eval(vals[0], st, fuel).st)
    ensures vals != [] && (op == Not ==> |vals| == 1) && Eval(vals[0], st, fuel).result.Unit? ==>
              DoBoolean(op, vals, st, fuel) == Evaluated(Err(BooleanOfUnit), Eval(vals[0], st, fuel).st)
  {
    if vals != [] {
      OperandsCons(vals[0], vals[1..], st, fuel, BooleanOperand);
      assert [vals[0]] + vals[1..] == vals;
    }
  }

  /** Boolean and equality operations return only the symbols `True` and
      `False`, or an error. */
  lemma TruthResults(vals: seq<Expr>, st: State, fuel: nat, bop: BoolOp, eop: EqOp)
    ensures DoBoolean(bop, vals, st, fuel).result.Value? ==>
              DoBoolean(bop, vals, st, fuel).result.expr in {Symbol("True"), Symbol("False")}
    ensures DoEquality(eop, vals, st, fuel).result.Value? ==>
              DoEquality(eop, vals, st, fuel).result.expr in {Symbol("True"), Symbol("False")}
  {
  }

  /** `not` takes exactly one operand. */
  lemma NegationArity(vals: seq<Expr>, st: State, fuel: nat)
    requires |vals| != 1
    ensures DoBoolean(Not, vals, st, fuel).result.Err?
    ensures DoBoolean(Not, vals, st, fuel).st == st
  {
  }

  /** In the default environment `True` is truthy and `False` is not. */
  lemma DefaultTruth(fuel: nat)
    requires fuel > 2
    ensures var st := State(AddVars(Push([]), DefaultVars), []);
            && Eval(Symbol("True"), st, fuel).result == Value(List([FNum(1)]))
            && Eval(Symbol("False"), st, fuel).result == Value(List([]))
            && Truth(List([FNum(1)])) == Some(true)
            && Truth(List([])) == Some(false)
  {
    DefaultBindings();
    var st := State(AddVars(Push([]), DefaultVars), []);
    assert Eval(Symbol("True"), st, fuel) == Eval(List([FNum(1)]), st, fuel - 1);
    NumberListSelfEvaluates([FNum(1)], st, fuel - 1);
    assert Eval(Symbol("False"), st, fuel) == Eval(List([]), st, fuel - 1);
  }

  /** `(let name n)` with a number literal binds `name` in the innermost
      frame and returns `Unit`. */
  lemma LetLiteral(name: string, n: Num, st: State, fuel: nat)
    requires SpecialForm(name).None? && st.env != [] && fuel > 1
    ensures Eval(List([Symbol("let"), Symbol(name), FNum(n)]), st, fuel)
         == Evaluated(Unit, st.(env := Define(st.env, name, Binding([], FNum(n))).value))
  {
    var def := List([Symbol("let"), Symbol(name), FNum(n)]);
    assert def.items[1..] == [Symbol(name), FNum(n)];
    assert Eval(def, st, fuel) == AddVarToEnv([Symbol(name), FNum(n)], st, fuel - 1);
  }

  /** Whatever the operand, an operand of `=` that evaluates to `Unit` is
      compared as its own expression; the operands after it are evaluated in
      the state it leaves. */
  lemma UnitOperandComparedAsWritten(x: Expr, rest: seq<Expr>, st: State, fuel: nat)
    requires Eval(x, st, fuel).result.Unit?
    ensures var t := EvalOperands(rest, Eval(x, st, fuel).st, fuel, EqualityOperand);
            EvalOperands([x] + rest, st, fuel, EqualityOperand)
              == if t.result.Ok? then Operands(Ok([x] + t.result.value), t.st) else t
  {
    OperandsCons(x, rest, st, fuel, EqualityOperand);
  }

  /** Example: two identical definitions are equal under `=`, and the
      definition still happens. */
  lemma EqualityOfUnits(st: State, fuel: nat)
    requires st.env != [] && fuel > 1
    ensures var def := List([Symbol("let"), Symbol("x"), FNum(1)]);
            var o := DoEquality(Eq, [def, def], st, fuel);
            o.result == Value(Symbol("True")) && Resolve(o.st.env, "x") == Some(Binding([], FNum(1)))
  {
    var def := List([Symbol("let"), Symbol("x"), FNum(1)]);
    var b := Binding([], FNum(1));
    LetLiteral("x", 1, st, fuel);
    var once := st.(env := Define(st.env, "x", b).value);
    LetLiteral("x", 1, once, fuel);
    var twice := once.(env := Define(once.env, "x", b).value);
    DefineResolves(once.env, "x", b);
    OperandsNil(twice, fuel, EqualityOperand);
    OperandsCons(def, [], once, fuel, EqualityOperand);
    assert [def] + [] == [def];
    OperandsCons(def, [def], st, fuel, EqualityOperand);
    assert [def] + [def] == [def, def];
    assert EvalOperands([def, def], st, fuel, EqualityOperand) == Operands(Ok([def, def]), twice);
  }

  // ---------------------------------------------------------------------
  // if

  /** `if` takes exactly three operands. */
  lemma IfShapeChecked(vals: seq<Expr>, st: State, fuel: nat)
    requires |vals| != 3
    ensures IfStatement(vals, st, fuel) == Evaluated(Err(IfShape), st)
  {
  }

  /** Only the branch the predicate selects is evaluated: the other one may be
      replaced by anything without changing the outcome. */
  lemma IfSelectsOneBranch(p: Expr, t: Expr, f: Expr, other: Expr, st: State, fuel: nat)
    ensures var pr := Eval(p, st, fuel);
            pr.result.Value? && Truth(pr.result.expr) == Some(true) ==>
              IfStatement([p, t, f], st, fuel) == Eval(t, pr.st, fuel)
              && IfStatement([p, t, f], st, fuel) == IfStatement([p, t, other], st, fuel)
    ensures var pr := Eval(p, st, fuel);
            pr.result.Value? && Truth(pr.result.expr) == Some(false) ==>
              IfStatement([p, t, f], st, fuel) == Eval(f, pr.st, fuel)
              && IfStatement([p, t, f], st, fuel) == IfStatement([p, other, f], st, fuel)
  {
  }

  /** A number or `Unit` as predicate is an error. */
  lemma IfPredicateErrors(p: Expr, t: Expr, f: Expr, st: State, fuel: nat)
    ensures var pr := Eval(p, st, fuel);
            pr.result.Unit? ==> IfStatement([p, t, f], st, fuel) == Evaluated(Err(IfOfUnit), pr.st)
    ensures var pr := Eval(p, st, fuel);
            pr.result.Value? && pr.result.expr.FNum? ==>
              IfStatement([p, t, f], st, fuel) == Evaluated(Err(IfOfNumber), pr.st)
  {
  }

  // ---------------------------------------------------------------------
  // let and fn

  /** `let` refuses a special-form name before evaluating anything. */
  lemma LetReservedFirst(name: string, v: Expr, st: State, fuel: nat)
    requires SpecialForm(name).Some?
    ensures AddVarToEnv([Symbol(name), v], st, fuel) == Evaluated(Err(ReservedMessage), st)
  {
  }

  /** A successful `let` returns `Unit` and binds the name in the innermost
      frame to the value; other names resolve as after evaluating the value. */
  lemma LetBinds(name: string, v: Expr, st: State, fuel: nat)
    requires SpecialForm(name).None?
    requires Eval(v, st, fuel).result.Value?
    requires st.env != []
    ensures var ev := Eval(v, st, fuel);
            var o := AddVarToEnv([Symbol(name), v], st, fuel);
            && o.result == Unit
            && o.st.out == ev.st.out
            && Resolve(o.st.env, name) == Some(Binding([], ev.result.expr))
            && (forall t | t != name :: Resolve(o.st.env, t) == Resolve(ev.st.env, t))
  {
    var ev := Eval(v, st, fuel);
    DefineResolves(ev.st.env, name, Binding([], ev.result.expr));
  }

  /** With no frame at all, `let` reports the missing context. */
  lemma LetWithoutContext(name: string, v: Expr, st: State, fuel: nat)
    requires SpecialForm(name).None? && st.env == []
    requires Eval(v, st, fuel).result.Value?
    ensures AddVarToEnv([Symbol(name), v], st, fuel).result == Err(NoContext)
  {
  }

  /** `let` of a `Unit` value is an error. */
  lemma LetOfUnitFails(name: string, v: Expr, st: State, fuel: nat)
    requires SpecialForm(name).None? && Eval(v, st, fuel).result.Unit?
    ensures AddVarToEnv([Symbol(name), v], st, fuel) == Evaluated(Err(LetOfUnit), Eval(v, st, fuel).st)
  {
  }

  /** `fn` refuses a special-form name. */
  lemma FnReservedFirst(name: string, ps: Expr, body: Expr, st: State)
    requires SpecialForm(name).Some?
    ensures AddFunToEnv([Symbol(name), ps, body], st) == Evaluated(Err(ReservedMessage), st)
  {
  }

  /** `fn` with a parameter that is not a symbol fails and changes nothing. */
  lemma FnRejectsNonSymbolParam(name: string, ps: seq<Expr>, body: Expr, st: State, i: nat)
    requires SpecialForm(name).None? && i < |ps| && !ps[i].Symbol?
    ensures AddFunToEnv([Symbol(name), List(ps), body], st) == Evaluated(Err(FnParam), st)
  {
  }

  /** A successful `fn` binds the name in the innermost frame to the parameter
      names and the unevaluated body, and changes no other name. */
  lemma FnBinds(name: string, ps: seq<string>, body: Expr, st: State)
    requires SpecialForm(name).None? && st.env != []
    ensures var params := seq(|ps|, i requires 0 <= i < |ps| => Symbol(ps[i]));
            var o := AddFunToEnv([Symbol(name), List(params), body], st);
            && o.result == Unit
            && o.st.out == st.out
            && Resolve(o.st.env, name) == Some(Binding(ps, body))
            && (forall t | t != name :: Resolve(o.st.env, t) == Resolve(st.env, t))
  {
    var params := seq(|ps|, i requires 0 <= i < |ps| => Symbol(ps[i]));
    assert ParamNames(params).value == ps;
    DefineResolves(st.env, name, Binding(ps, body));
  }

  // ---------------------------------------------------------------------
  // Implicit lists

  /** A list of number literals evaluates to itself. */
  lemma NumberListSelfEvaluates(vals: seq<Expr>, st: State, fuel: nat)
    requires vals != [] && AllNumbers(vals) && fuel > 1
    ensures Eval(List(vals), st, fuel) == Evaluated(Value(List(vals)), st)
  {
    ListOfNumbers(vals, st, fuel - 1);
  }

  lemma {:induction false} ListOfNumbers(vals: seq<Expr>, st: State, fuel: nat)
    requires AllNumbers(vals) && fuel > 0
    ensures EvalOperands(vals, st, fuel, ListItem).st == st
    ensures EvalOperands(vals, st, fuel, ListItem).result.Ok?
    ensures Present(EvalOperands(vals, st, fuel, ListItem).result.value) == vals
    decreases |vals|
  {
    if vals != [] {
      ListOfNumbers(vals[1..], st, fuel);
      var rest := EvalOperands(vals[1..], st, fuel, ListItem).result.value;
      var all := [Some(vals[0])] + rest;
      assert all[1..] == rest;
      assert vals == [vals[0]] + vals[1..];
    }
  }

  /** An element of an implicit list that evaluates to `Unit` adds nothing:
      the list is that of the elements after it, evaluated in the state the
      element leaves. */
  lemma UnitElementDropped(x: Expr, rest: seq<Expr>, st: State, fuel: nat)
    requires Eval(x, st, fuel).result.Unit?
    ensures ImplicitList([x] + rest, st, fuel) == ImplicitList(rest, Eval(x, st, fuel).st, fuel)
  {
    var h := Eval(x, st, fuel);
    var t := EvalOperands(rest, h.st, fuel, ListItem);
    OperandsCons(x, rest, st, fuel, ListItem);
    if t.result.Ok? {
      var ys := t.result.value;
      assert ([None] + ys)[1..] == ys;
    }
  }

  /** An element of an implicit list with a value is kept in front of the
      list of the elements after it; an error after it is the list's error. */
  lemma ValueElementKept(x: Expr, rest: seq<Expr>, st: State, fuel: nat)
    requires Eval(x, st, fuel).result.Value?
    ensures var h := Eval(x, st, fuel);
            var t := ImplicitList(rest, h.st, fuel);
            var o := ImplicitList([x] + rest, st, fuel);
            o.st == t.st &&
            (t.result.Err? ==> o.result == t.result) &&
            (t.result.Value? ==> t.result.expr.List? && o.result == Value(List([h.result.expr] + t.result.expr.items)))
  {
    var h := Eval(x, st, fuel);
    var t := EvalOperands(rest, h.st, fuel, ListItem);
    OperandsCons(x, rest, st, fuel, ListItem);
    if t.result.Ok? {
      var ys := t.result.value;
      assert ([Some(h.result.expr)] + ys)[1..] == ys;
    }
  }

  /** Example: `((let x 1) 2)` is `(2)`. */
  lemma UnitsAreDropped(st: State, fuel: nat)
    requires st.env != [] && fuel > 2
    ensures Eval(List([List([Symbol("let"), Symbol("x"), FNum(1)]), FNum(2)]), st, fuel).result
         == Value(List([FNum(2)]))
  {
    var def := List([Symbol("let"), Symbol("x"), FNum(1)]);
    var vals := [def, FNum(2)];
    LetLiteral("x", 1, st, fuel - 1);
    var once := st.(env := Define(st.env, "x", Binding([], FNum(1))).value);
    OperandsNil(once, fuel - 1, ListItem);
    OperandsCons(FNum(2), [], once, fuel - 1, ListItem);
    assert [FNum(2)] + [] == [FNum(2)] && [Some(FNum(2))] + [] == [Some(FNum(2))];
    assert EvalOperands([FNum(2)], once, fuel - 1, ListItem) == Operands(Ok([Some(FNum(2))]), once);
    assert Eval(def, st, fuel - 1) == Evaluated(Unit, once);
    OperandsCons(def, [FNum(2)], st, fuel - 1, ListItem);
    assert [def] + [FNum(2)] == vals;
    assert [None] + [Some(FNum(2))] == [None, Some(FNum(2))];
    assert EvalOperands(vals, st, fuel - 1, ListItem) == Operands(Ok([None, Some(FNum(2))]), once);
    assert Present([None, Some(FNum(2))]) == [FNum(2)] by {
      assert [None, Some(FNum(2))][1..] == [Some(FNum(2))];
    }
  }

  // ---------------------------------------------------------------------
  // Printing

  /** A successful `print` adds exactly one line and changes no frame. */
  lemma PrintAddsOneLine(vals: seq<Expr>, st: State, fuel: nat)
    requires Semantics.Print(vals, st, fuel).result == Unit
    ensures Semantics.Print(vals, st, fuel).st.env == st.env
    ensures |Semantics.Print(vals, st, fuel).st.out| == |st.out| + 1
    ensures Semantics.Print(vals, st, fuel).st.out[..|st.out|] == st.out
  {
  }

  /** A symbol is the only thing whose rendering can follow a binding, so an
      expression none of whose symbols is a variable renders without fuel. */
  ghost predicate NoVariables(e: Expr, env: Contexts) {
    match e
    case Symbol(s) => Resolve(env, s).None? || Resolve(env, s).value.params != []
    case FNum(_) => true
    case List(xs) => forall i | 0 <= i < |xs| :: NoVariables(xs[i], env)
  }

  lemma {:induction false} RenderWithoutVariables(e: Expr, env: Contexts)
    requires NoVariables(e, env)
    ensures Render(e, env, 0).Some?
    decreases e
  {
    match e
    case Symbol(_) =>
    case FNum(_) =>
    case List(xs) => RenderAllWithoutVariables(xs, env);
  }

  lemma {:induction false} RenderAllWithoutVariables(xs: seq<Expr>, env: Contexts)
    requires forall i | 0 <= i < |xs| :: NoVariables(xs[i], env)
    ensures RenderAll(xs, env, 0).Some?
    decreases xs
  {
    if xs != [] {
      RenderWithoutVariables(xs[0], env);
      RenderAllWithoutVariables(xs[1..], env);
    }
  }

  /** A run of expressions renders exactly when each of its elements does. */
  lemma {:induction false} RenderAllSucceeds(xs: seq<Expr>, env: Contexts, fuel: nat)
    ensures RenderAll(xs, env, fuel).Some? <==> forall i | 0 <= i < |xs| :: Render(xs[i], env, fuel).Some?
    decreases |xs|
  {
    if xs != [] {
      RenderAllSucceeds(xs[1..], env, fuel);
      if forall i | 0 <= i < |xs| :: Render(xs[i], env, fuel).Some? {
        assert forall i | 0 <= i < |xs[1..]| :: Render(xs[1..][i], env, fuel).Some? by {
          forall i | 0 <= i < |xs[1..]| ensures Render(xs[1..][i], env, fuel).Some? {
            assert xs[1..][i] == xs[i + 1];
          }
        }
      }
    }
  }

  /** How values print: an unbound symbol as its name, a function as a
      `func-object`, a variable as its value. */
  lemma RenderSymbols(s: string, env: Contexts, fuel: nat)
    ensures Resolve(env, s).None? ==> Render(Symbol(s), env, fuel) == Some(s)
    ensures Resolve(env, s).Some? && Resolve(env, s).value.params != [] ==>
              Render(Symbol(s), env, fuel) == Some("<func-object: " + s + ">")
    ensures Resolve(env, s).Some? && Resolve(env, s).value.params == [] && fuel > 0 ==>
              Render(Symbol(s), env, fuel) == Render(Resolve(env, s).value.body, env, fuel - 1)
  {
  }

  /** `(print x)` after `(let x x)`: the variable renders as itself forever, so
      printing it only ends because the fuel does. */
  lemma SelfReferenceRunsOutOfFuel(fuel: nat)
    ensures Render(Symbol("x"), [map["x" := Binding([], Symbol("x"))]], fuel).None?
  {
    var env := [map["x" := Binding([], Symbol("x"))]];
    assert Innermost(env, "x", 0);
    if fuel > 0 {
      SelfReferenceRunsOutOfFuel(fuel - 1);
    }
  }
}
