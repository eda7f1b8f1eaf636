/** The evaluator as functions on an explicit state: the scope stack and the
    lines printed so far. Every call of `Eval` spends one unit of fuel, so that
    programs that recurse forever still denote something. */
module Semantics {
  import opened Wrappers
  import opened Types
  import opened Text
  import opened Scopes
  import opened Primitives

  /** What evaluating an expression gives. */
  datatype EvalResult = Err(message: string) | Value(expr: Expr) | Unit

  datatype State = State(env: Contexts, out: seq<string>)

  datatype Evaluated = Evaluated(result: EvalResult, st: State)

  /** The outcome of evaluating a run of operands left to right. */
  datatype Operands<T> = Operands(result: Result<seq<T>, string>, st: State)

  const OutOfFuel := "Evaluation ran out of fuel!"
  const NoNumbers := "Mathematical operations must be performed on at least one number!"
  const NotNumbers := "Mathematical operations must be performed on numbers!"
  const NoBooleans := "Boolean operations must be performed on at least value!"
  const NegationArity := "Negation must be performed on one symbol!"
  const BooleanOfNumber := "Boolean operations must be performed symbols!"
  const BooleanOfUnit := "Boolean operations must be performed on symbols!"
  const NoEqualityOperands := "Equality operations must be performed on at least one value!"
  const IfShape := "Invalid if statement! Must be 'if (predicate) (then) (else)'"
  const IfOfNumber := "Invalid if statement predicate!"
  const IfOfUnit := "If statement predicate cannot return Unit!"
  const LetShape := "Invalid variable definition! Must be 'let x expr'!"
  const LetName := "Invalid variable definition! Must be 'let x expr!"
  const LetOfUnit := "Cannot assign Unit to variable!"
  const FnShape := "Invalid function definition! Must be '(fn my-func (args) body)'!"
  const FnParam := "Function arguments must be strings!"
  const ArgumentOfUnit := "Cannot pass Unit as an argument to a function!"
  const NoPrintOperands := "Missing values in print function'!"

  /** The error of a call with the wrong number of arguments. The first count
      is the number of parameters, the second the number of arguments. */
  function ArityMessage(params: nat, args: nat): string {
    "Provided " + NatToString(params) + " arguments but expected " + NatToString(args) + "!"
  }

  /** `b` is `a` after evaluation: the same number of frames, the outer frames
      untouched, the innermost frame with at least the names it had, and the
      printed lines extended. */
  ghost predicate Extends(a: State, b: State) {
    && |b.env| == |a.env|
    && (a.env != [] ==> b.env[..|a.env| - 1] == a.env[..|a.env| - 1])
    && (a.env != [] ==> a.env[|a.env| - 1].Keys <= b.env[|a.env| - 1].Keys)
    && a.out <= b.out
  }

  lemma ExtendsTrans(a: State, b: State, c: State)
    requires Extends(a, b) && Extends(b, c)
    ensures Extends(a, c)
  {
  }

  // ---------------------------------------------------------------------
  // How each operation reads one evaluated operand

  function NumberOperand(r: EvalResult, e: Expr): Result<Num, string> {
    match r
    case Err(m) => Fail(m)
    case Value(x) => if x.FNum? then Ok(x.num) else Fail(NotNumbers)
    case Unit => Fail(NotNumbers)
  }

  function BooleanOperand(r: EvalResult, e: Expr): Result<bool, string> {
    match r
    case Err(m) => Fail(m)
    case Value(x) => if x.FNum? then Fail(BooleanOfNumber) else Ok(Truth(x).value)
    case Unit => Fail(BooleanOfUnit)
  }

  /** A `Unit` operand is compared as the expression that produced it. */
  function EqualityOperand(r: EvalResult, e: Expr): Result<Expr, string> {
    match r
    case Err(m) => Fail(m)
    case Value(x) => Ok(x)
    case Unit => Ok(e)
  }

  function Argument(r: EvalResult, e: Expr): Result<Expr, string> {
    match r
    case Err(m) => Fail(m)
    case Value(x) => Ok(x)
    case Unit => Fail(ArgumentOfUnit)
  }

  /** An element of an implicit list: `Unit` results are dropped. */
  function ListItem(r: EvalResult, e: Expr): Result<Option<Expr>, string> {
    match r
    case Err(m) => Fail(m)
    case Value(x) => Ok(Some(x))
    case Unit => Ok(None)
  }

  function Present(xs: seq<Option<Expr>>): seq<Expr> {
    if xs == [] then []
    else if xs[0].Some? then [xs[0].value] + Present(xs[1..])
    else Present(xs[1..])
  }

  function Zip(names: seq<string>, vals: seq<Expr>): (r: seq<(string, Expr)>)
    requires |names| == |vals|
    ensures |r| == |names| && forall i | 0 <= i < |r| :: r[i] == (names[i], vals[i])
  {
    if names == [] then [] else [(names[0], vals[0])] + Zip(names[1..], vals[1..])
  }

  /** The names of the parameter list of `fn`; each must be a symbol. */
  function ParamNames(es: seq<Expr>): (r: Result<seq<string>, string>)
    ensures r.Ok? <==> forall i | 0 <= i < |es| :: es[i].Symbol?
    ensures r.Fail? ==> r.error == FnParam
    ensures r.Ok? ==> |r.value| == |es| && forall i | 0 <= i < |es| :: r.value[i] == es[i].name
  {
    if es == [] then Ok([])
    else if !es[0].Symbol? then Fail(FnParam)
    else
      match ParamNames(es[1..])
      case Fail(m) => Fail(m)
      case Ok(ns) => Ok([es[0].name] + ns)
  }

  // ---------------------------------------------------------------------
  // Evaluation

  function Eval(e: Expr, st: State, fuel: nat): (o: Evaluated)
    ensures Extends(st, o.st)
    decreases fuel, 0
  {
    if fuel == 0 then Evaluated(Err(OutOfFuel), st)
    else
      match e
      case Symbol(s) => EvalSymbol(e, s, [], st, fuel - 1)
      case FNum(_) => Evaluated(Value(e), st)
      case List(vals) =>
        if vals == [] then Evaluated(Value(List([])), st)
        else if vals[0].Symbol? && SpecialForm(vals[0].name).Some? then
          EvalForm(SpecialForm(vals[0].name).value, vals[1..], st, fuel - 1)
        else if vals[0].Symbol? && IsBound(st.env, vals[0].name) then
          EvalSymbol(e, vals[0].name, vals[1..], st, fuel - 1)
        else
          ImplicitList(vals, st, fuel - 1)
  }

  function EvalForm(f: Form, args: seq<Expr>, st: State, fuel: nat): (o: Evaluated)
    ensures Extends(st, o.st)
    decreases fuel, 3
  {
    match f
    case Math(op) => DoMath(op, args, st, fuel)
    case Boolean(op) => DoBoolean(op, args, st, fuel)
    case Equality(op) => DoEquality(op, args, st, fuel)
    case If => IfStatement(args, st, fuel)
    case Let => AddVarToEnv(args, st, fuel)
    case Fn => AddFunToEnv(args, st)
    case Print => Print(args, st, fuel)
  }

  /** Evaluate `es` left to right, reading each result with `conv` and
      stopping at the first failure. */
  function EvalOperands<T>(es: seq<Expr>, st: State, fuel: nat, conv: (EvalResult, Expr) -> Result<T, string>)
    : (o: Operands<T>)
    ensures Extends(st, o.st)
    ensures o.result.Ok? ==> |o.result.value| == |es|
    decreases fuel, 1, |es|
  {
    if es == [] then Operands(Ok([]), st)
    else
      var h := Eval(es[0], st, fuel);
      match conv(h.result, es[0])
      case Fail(m) => Operands(Fail(m), h.st)
      case Ok(x) =>
        var t := EvalOperands(es[1..], h.st, fuel, conv);
        ExtendsTrans(st, h.st, t.st);
        match t.result
        case Fail(m) => t
        case Ok(xs) => Operands(Ok([x] + xs), t.st)
  }

  /** A list whose head is neither a special form nor a bound symbol: the
      values of its elements, without the `Unit`s. */
  function ImplicitList(vals: seq<Expr>, st: State, fuel: nat): (o: Evaluated)
    ensures Extends(st, o.st)
    decreases fuel, 2
  {
    var items := EvalOperands(vals, st, fuel, ListItem);
    match items.result
    case Fail(m) => Evaluated(Err(m), items.st)
    case Ok(xs) => Evaluated(Value(List(Present(xs))), items.st)
  }

  /** A reference to `s`, or a call of `s` with `args`. An unbound symbol
      evaluates to `e` itself; a binding without parameters is evaluated anew;
      a function gets a new innermost frame binding its parameters for the
      time of the call. */
  function EvalSymbol(e: Expr, s: string, args: seq<Expr>, st: State, fuel: nat): (o: Evaluated)
    ensures Extends(st, o.st)
    decreases fuel, 2
  {
    match Resolve(st.env, s)
    case None => Evaluated(Value(e), st)
    case Some(b) =>
      if b.params == [] then Eval(b.body, st, fuel)
      else if |b.params| != |args| then Evaluated(Err(ArityMessage(|b.params|, |args|)), st)
      else
        var a := EvalOperands(args, st, fuel, Argument);
        var pushed := Push(a.st.env);
        match a.result
        case Fail(m) =>
          Evaluated(Err(m), a.st.(env := Pop(pushed)))
        case Ok(vs) =>
          var bound := a.st.(env := AddVars(pushed, Zip(b.params, vs)));
          AddVarsOnTop(a.st.env, map[], Zip(b.params, vs));
          var o := Eval(b.body, bound, fuel);
          Evaluated(o.result, o.st.(env := Pop(o.st.env)))
  }

  function DoMath(op: MathOp, vals: seq<Expr>, st: State, fuel: nat): (o: Evaluated)
    ensures Extends(st, o.st)
    decreases fuel, 2
  {
    if vals == [] then Evaluated(Err(NoNumbers), st)
    else
      var ns := EvalOperands(vals, st, fuel, NumberOperand);
      match ns.result
      case Fail(m) => Evaluated(Err(m), ns.st)
      case Ok(xs) => Evaluated(Value(FNum(MathFold(op, xs))), ns.st)
  }

  function DoBoolean(op: BoolOp, vals: seq<Expr>, st: State, fuel: nat): (o: Evaluated)
    ensures Extends(st, o.st)
    decreases fuel, 2
  {
    if vals == [] then Evaluated(Err(NoBooleans), st)
    else if op == Not && |vals| != 1 then Evaluated(Err(NegationArity), st)
    else
      var bs := EvalOperands(vals, st, fuel, BooleanOperand);
      match bs.result
      case Fail(m) => Evaluated(Err(m), bs.st)
      case Ok(xs) =>
        var b := BoolFold(op, xs);
        Evaluated(Value(BoolSymbol(if op == Not then !b else b)), bs.st)
  }

  function DoEquality(op: EqOp, vals: seq<Expr>, st: State, fuel: nat): (o: Evaluated)
    ensures Extends(st, o.st)
    decreases fuel, 2
  {
    if vals == [] then Evaluated(Err(NoEqualityOperands), st)
    else
      var xs := EvalOperands(vals, st, fuel, EqualityOperand);
      match xs.result
      case Fail(m) => Evaluated(Err(m), xs.st)
      case Ok(ys) => Evaluated(Value(BoolSymbol(EqualityHolds(op, ys))), xs.st)
  }

  function IfStatement(vals: seq<Expr>, st: State, fuel: nat): (o: Evaluated)
    ensures Extends(st, o.st)
    decreases fuel, 2
  {
    if |vals| != 3 then Evaluated(Err(IfShape), st)
    else
      var p := Eval(vals[0], st, fuel);
      match p.result
      case Err(m) => Evaluated(Err(m), p.st)
      case Unit => Evaluated(Err(IfOfUnit), p.st)
      case Value(x) =>
        if x.FNum? then Evaluated(Err(IfOfNumber), p.st)
        else
          var o := Eval(if Truth(x).value then vals[1] else vals[2], p.st, fuel);
          ExtendsTrans(st, p.st, o.st);
          o
  }

  function AddVarToEnv(vals: seq<Expr>, st: State, fuel: nat): (o: Evaluated)
    ensures Extends(st, o.st)
    decreases fuel, 2
  {
    if |vals| != 2 then Evaluated(Err(LetShape), st)
    else if vals[0].Symbol? && ReservedWords(vals[0].name).Fail? then
      Evaluated(Err(ReservedWords(vals[0].name).error), st)
    else if !vals[0].Symbol? then Evaluated(Err(LetName), st)
    else
      var v := Eval(vals[1], st, fuel);
      match v.result
      case Err(m) => Evaluated(Err(m), v.st)
      case Unit => Evaluated(Err(LetOfUnit), v.st)
      case Value(x) =>
        match Define(v.st.env, vals[0].name, Binding([], x))
        case Fail(m) => Evaluated(Err(m), v.st)
        case Ok(c) => Evaluated(Unit, v.st.(env := c))
  }

  /** `fn` evaluates nothing. */
  function AddFunToEnv(vals: seq<Expr>, st: State): (o: Evaluated)
    ensures Extends(st, o.st)
  {
    if |vals| != 3 then Evaluated(Err(FnShape), st)
    else if vals[0].Symbol? && ReservedWords(vals[0].name).Fail? then
      Evaluated(Err(ReservedWords(vals[0].name).error), st)
    else if !(vals[0].Symbol? && vals[1].List?) then Evaluated(Err(FnShape), st)
    else
      match ParamNames(vals[1].items)
      case Fail(m) => Evaluated(Err(m), st)
      case Ok(ps) =>
        match Define(st.env, vals[0].name, Binding(ps, vals[2]))
        case Fail(m) => Evaluated(Err(m), st)
        case Ok(c) => Evaluated(Unit, st.(env := c))
  }

  /** `print` renders its operands unevaluated and adds one line. */
  function Print(vals: seq<Expr>, st: State, fuel: nat): (o: Evaluated)
    ensures Extends(st, o.st)
  {
    if |vals| < 1 then Evaluated(Err(NoPrintOperands), st)
    else
      match RenderAll(vals, st.env, fuel)
      case None => Evaluated(Err(OutOfFuel), st)
      case Some(parts) => Evaluated(Unit, st.(out := st.out + [Join(parts, " ")]))
  }

  // ---------------------------------------------------------------------
  // Printing

  /** The printed form of an expression. A symbol bound to a variable prints
      as the variable's value, which may refer to itself: each such step spends
      one unit of fuel, and `None` means the fuel ran out. */
  function Render(e: Expr, env: Contexts, fuel: nat): (r: Option<string>)
    ensures e.FNum? ==> r == Some(IntToString(e.num))
    ensures e.List? && r.Some? ==> |r.value| >= 2 && r.value[0] == '(' && r.value[|r.value| - 1] == ')'
    decreases fuel, e
  {
    match e
    case Symbol(s) =>
      (match Resolve(env, s)
       case None => Some(s)
       case Some(b) =>
         if b.params != [] then Some("<func-object: " + s + ">")
         else if fuel == 0 then None
         else Render(b.body, env, fuel - 1))
    case FNum(n) => Some(IntToString(n))
    case List(xs) =>
      match RenderAll(xs, env, fuel)
      case None => None
      case Some(parts) => Some("(" + Join(parts, " ") + ")")
  }

  /** The printed forms of a run of expressions, one per element; `None` when
      some element's rendering runs out of fuel. */
  function RenderAll(xs: seq<Expr>, env: Contexts, fuel: nat): (r: Option<seq<string>>)
    ensures r.Some? ==> |r.value| == |xs| && forall i | 0 <= i < |xs| :: Render(xs[i], env, fuel) == Some(r.value[i])
    decreases fuel, xs
  {
    if xs == [] then Some([])
    else
      match Render(xs[0], env, fuel)
      case None => None
      case Some(p) =>
        match RenderAll(xs[1..], env, fuel)
        case None => None
        case Some(ps) => Some([p] + ps)
  }
}
