/** The evaluator as the interpreter runs it: it updates one `Environment`
    object in place and writes printed lines to a `Console`. Each method
    computes what the function of the same purpose in `Semantics` describes. */
module Evaluator {
  import opened Wrappers
  import opened Types
  import opened Text
  import opened Scopes
  import opened Primitives
  import opened Semantics

  /** Standard output, as the lines written to it. */
  class Console {
    var lines: seq<string>

    constructor ()
      ensures lines == []
    {
      lines := [];
    }

    method WriteLine(line: string)
      modifies this
      ensures lines == old(lines) + [line]
    {
      lines := lines + [line];
    }
  }

  function StateOf(env: Environment, out: Console): State
    reads env, out
  {
    State(env.contexts, out.lines)
  }

  /** `acc` followed by the values of a run of operands, if they all succeed. */
  function Prepend<T>(acc: seq<T>, o: Operands<T>): Operands<T> {
    match o.result
    case Fail(_) => o
    case Ok(xs) => Operands(Ok(acc + xs), o.st)
  }

  lemma PrependNothing<T>(o: Operands<T>)
    ensures Prepend([], o) == o
  {
    if o.result.Ok? {
      assert [] + o.result.value == o.result.value;
    }
  }

  method Eval(e: Expr, env: Environment, out: Console, fuel: nat) returns (r: EvalResult)
    modifies env, out
    ensures Evaluated(r, StateOf(env, out)) == Semantics.Eval(e, old(StateOf(env, out)), fuel)
    decreases fuel, 1
  {
    if fuel == 0 {
      return Err(OutOfFuel);
    }
    match e
    case Symbol(s) =>
      r := EvaluateSymbol(e, s, [], env, out, fuel - 1);
    case FNum(_) =>
      r := Value(e);
    case List(vals) =>
      if vals == [] {
        return Value(List([]));
      }
      r := EvalList(e, env, out, fuel);
  }

  /** The case of `eval` for a non-empty list: a special form, a call of a
      bound symbol, or an implicit list. */
  method EvalList(e: Expr, env: Environment, out: Console, fuel: nat) returns (r: EvalResult)
    requires e.List? && e.items != [] && fuel > 0
    modifies env, out
    ensures Evaluated(r, StateOf(env, out)) == Semantics.Eval(e, old(StateOf(env, out)), fuel)
    decreases fuel, 0
  {
    ghost var st := StateOf(env, out);
    var vals := e.items;
    var head := vals[0];
    var form := if head.Symbol? then SpecialForm(head.name) else None;
    if form.Some? {
      r := EvalForm(form.value, vals[1..], env, out, fuel - 1);
      assert Evaluated(r, StateOf(env, out)) == Semantics.EvalForm(form.value, vals[1..], st, fuel - 1);
      EvalOfForm(e, st, fuel);
      return;
    }
    var bound := false;
    if head.Symbol? {
      bound := env.ContainsKey(head.name);
    }
    assert StateOf(env, out) == st;
    if bound {
      r := EvaluateSymbol(e, head.name, vals[1..], env, out, fuel - 1);
      assert Evaluated(r, StateOf(env, out)) == Semantics.EvalSymbol(e, head.name, vals[1..], st, fuel - 1);
      EvalOfCall(e, st, fuel);
    } else {
      r := ImplicitList(vals, env, out, fuel - 1);
      assert Evaluated(r, StateOf(env, out)) == Semantics.ImplicitList(vals, st, fuel - 1);
      EvalOfImplicitList(e, st, fuel);
    }
  }

  // The three ways `Semantics.Eval` reads a non-empty list.

  lemma EvalOfForm(e: Expr, st: State, fuel: nat)
    requires e.List? && e.items != [] && fuel > 0
    requires e.items[0].Symbol? && SpecialForm(e.items[0].name).Some?
    ensures Semantics.Eval(e, st, fuel)
         == Semantics.EvalForm(SpecialForm(e.items[0].name).value, e.items[1..], st, fuel - 1)
  {
  }

  lemma EvalOfCall(e: Expr, st: State, fuel: nat)
    requires e.List? && e.items != [] && fuel > 0
    requires e.items[0].Symbol? && SpecialForm(e.items[0].name).None? && IsBound(st.env, e.items[0].name)
    ensures Semantics.Eval(e, st, fuel) == Semantics.EvalSymbol(e, e.items[0].name, e.items[1..], st, fuel - 1)
  {
  }

  lemma EvalOfImplicitList(e: Expr, st: State, fuel: nat)
    requires e.List? && e.items != [] && fuel > 0
    requires !(e.items[0].Symbol? && (SpecialForm(e.items[0].name).Some? || IsBound(st.env, e.items[0].name)))
    ensures Semantics.Eval(e, st, fuel) == Semantics.ImplicitList(e.items, st, fuel - 1)
  {
  }

  method EvalForm(f: Form, args: seq<Expr>, env: Environment, out: Console, fuel: nat) returns (r: EvalResult)
    modifies env, out
    ensures Evaluated(r, StateOf(env, out)) == Semantics.EvalForm(f, args, old(StateOf(env, out)), fuel)
    decreases fuel, 4
  {
    match f
    case Math(op) => r := DoMath(op, args, env, out, fuel);
    case Boolean(op) => r := DoBoolean(op, args, env, out, fuel);
    case Equality(op) => r := DoEquality(op, args, env, out, fuel);
    case If => r := IfStatement(args, env, out, fuel);
    case Let => r := AddVarToEnv(args, env, out, fuel);
    case Fn => r := AddFunToEnv(args, env);
    case Print => r := Print(args, env, out, fuel);
  }

  /** Evaluate the operands left to right, stopping at the first one that
      `conv` rejects. */
  method EvalOperands<T>(es: seq<Expr>, conv: (EvalResult, Expr) -> Result<T, string>,
                         env: Environment, out: Console, fuel: nat)
    returns (r: Result<seq<T>, string>)
    modifies env, out
    ensures Operands(r, StateOf(env, out)) == Semantics.EvalOperands(es, old(StateOf(env, out)), fuel, conv)
    decreases fuel, 2
  {
    var acc: seq<T> := [];
    var i := 0;
    assert es[0..] == es;
    PrependNothing(Semantics.EvalOperands(es, StateOf(env, out), fuel, conv));
    while i < |es|
      invariant 0 <= i <= |es|
      invariant Semantics.EvalOperands(es, old(StateOf(env, out)), fuel, conv)
             == Prepend(acc, Semantics.EvalOperands(es[i..], StateOf(env, out), fuel, conv))
    {
      ghost var before := StateOf(env, out);
      var h := Eval(es[i], env, out, fuel);
      assert es[i..][0] == es[i] && es[i..][1..] == es[i + 1..];
      match conv(h, es[i])
      case Fail(m) =>
        return Fail(m);
      case Ok(x) =>
        ghost var t := Semantics.EvalOperands(es[i + 1..], StateOf(env, out), fuel, conv);
        assert Semantics.EvalOperands(es[i..], before, fuel, conv) == Prepend([x], t);
        assert t.result.Ok? ==> acc + ([x] + t.result.value) == (acc + [x]) + t.result.value;
        acc := acc + [x];
        i := i + 1;
    }
    assert es[i..] == [] && acc + [] == acc;
    return Ok(acc);
  }

  method ImplicitList(vals: seq<Expr>, env: Environment, out: Console, fuel: nat) returns (r: EvalResult)
    modifies env, out
    ensures Evaluated(r, StateOf(env, out)) == Semantics.ImplicitList(vals, old(StateOf(env, out)), fuel)
    decreases fuel, 3
  {
    var items := EvalOperands(vals, ListItem, env, out, fuel);
    match items
    case Fail(m) => r := Err(m);
    case Ok(xs) => r := Value(List(Present(xs)));
  }

  method EvaluateSymbol(e: Expr, symbol: string, args: seq<Expr>, env: Environment, out: Console, fuel: nat)
    returns (r: EvalResult)
    modifies env, out
    ensures Evaluated(r, StateOf(env, out)) == Semantics.EvalSymbol(e, symbol, args, old(StateOf(env, out)), fuel)
    decreases fuel, 3
  {
    ghost var st := StateOf(env, out);
    var found := env.Lookup(symbol);
    match found
    case None =>
      r := Value(e);
    case Some(b) =>
      if b.params == [] {
        r := Eval(b.body, env, out, fuel);
        return;
      }
      if |b.params| != |args| {
        return Err(ArityMessage(|b.params|, |args|));
      }
      var mapped := EvalOperands(args, Argument, env, out, fuel);
      ghost var a := StateOf(env, out);
      env.PushContext();
      ghost var inner: State;
      match mapped {
        case Fail(m) =>
          r := Err(m);
          inner := StateOf(env, out);
        case Ok(vs) =>
          env.AddEach(Zip(b.params, vs));
          r := Eval(b.body, env, out, fuel);
          inner := StateOf(env, out);
      }
      assert Semantics.EvalSymbol(e, symbol, args, st, fuel) == Evaluated(r, inner.(env := Pop(inner.env)));
      env.PopContext();
      assert StateOf(env, out) == inner.(env := Pop(inner.env));
  }

  /** The left fold of `do_math`. */
  method FoldMath(op: MathOp, xs: seq<Num>) returns (r: Num)
    requires xs != []
    ensures r == MathFold(op, xs)
  {
    r := xs[0];
    var j := 1;
    while j < |xs|
      invariant 1 <= j <= |xs|
      invariant r == MathFold(op, xs[..j])
    {
      assert xs[..j + 1][..j] == xs[..j];
      r := Apply(op, r, xs[j]);
      j := j + 1;
    }
    assert xs[..j] == xs;
  }

  /** The fold of `do_boolean` before `not` inverts it. */
  method FoldBool(op: BoolOp, xs: seq<bool>) returns (r: bool)
    requires xs != [] && (op == Not ==> |xs| == 1)
    ensures r == BoolFold(op, xs)
  {
    r := xs[0];
    var j := 1;
    while j < |xs|
      invariant 1 <= j <= |xs|
      invariant r == BoolFold(op, xs[..j])
    {
      assert xs[..j + 1][..j] == xs[..j];
      if op == Or {
        r := r || xs[j];
      } else {
        r := r && xs[j];
      }
      j := j + 1;
    }
    assert xs[..j] == xs;
  }

  method DoMath(op: MathOp, vals: seq<Expr>, env: Environment, out: Console, fuel: nat) returns (r: EvalResult)
    modifies env, out
    ensures Evaluated(r, StateOf(env, out)) == Semantics.DoMath(op, vals, old(StateOf(env, out)), fuel)
    decreases fuel, 3
  {
    if vals == [] {
      return Err(NoNumbers);
    }
    var total := EvalOperands(vals, NumberOperand, env, out, fuel);
    match total
    case Fail(m) =>
      r := Err(m);
    case Ok(xs) =>
      var n := FoldMath(op, xs);
      r := Value(FNum(n));
  }

  method DoBoolean(op: BoolOp, vals: seq<Expr>, env: Environment, out: Console, fuel: nat) returns (r: EvalResult)
    modifies env, out
    ensures Evaluated(r, StateOf(env, out)) == Semantics.DoBoolean(op, vals, old(StateOf(env, out)), fuel)
    decreases fuel, 3
  {
    if vals == [] {
      return Err(NoBooleans);
    }
    if op == Not && |vals| != 1 {
      return Err(NegationArity);
    }
    var total := EvalOperands(vals, BooleanOperand, env, out, fuel);
    match total
    case Fail(m) =>
      r := Err(m);
    case Ok(xs) =>
      var b := FoldBool(op, xs);
      if op == Not {
        b := !b;
      }
      r := Value(BoolSymbol(b));
  }

  method DoEquality(op: EqOp, vals: seq<Expr>, env: Environment, out: Console, fuel: nat) returns (r: EvalResult)
    modifies env, out
    ensures Evaluated(r, StateOf(env, out)) == Semantics.DoEquality(op, vals, old(StateOf(env, out)), fuel)
    decreases fuel, 3
  {
    if vals == [] {
      return Err(NoEqualityOperands);
    }
    var total := EvalOperands(vals, EqualityOperand, env, out, fuel);
    match total
    case Fail(m) =>
      r := Err(m);
    case Ok(xs) =>
      r := Value(BoolSymbol(EqualityHolds(op, xs)));
  }

  method IfStatement(vals: seq<Expr>, env: Environment, out: Console, fuel: nat) returns (r: EvalResult)
    modifies env, out
    ensures Evaluated(r, StateOf(env, out)) == Semantics.IfStatement(vals, old(StateOf(env, out)), fuel)
    decreases fuel, 3
  {
    if |vals| != 3 {
      return Err(IfShape);
    }
    var test := Eval(vals[0], env, out, fuel);
    match test
    case Err(m) =>
      r := Err(m);
    case Unit =>
      r := Err(IfOfUnit);
    case Value(x) =>
      if x.FNum? {
        return Err(IfOfNumber);
      }
      if Truth(x).value {
        r := Eval(vals[1], env, out, fuel);
      } else {
        r := Eval(vals[2], env, out, fuel);
      }
  }

  method AddVarToEnv(vals: seq<Expr>, env: Environment, out: Console, fuel: nat) returns (r: EvalResult)
    modifies env, out
    ensures Evaluated(r, StateOf(env, out)) == Semantics.AddVarToEnv(vals, old(StateOf(env, out)), fuel)
    decreases fuel, 3
  {
    if |vals| != 2 {
      return Err(LetShape);
    }
    var name := vals[0];
    if name.Symbol? {
      var check := ReservedWords(name.name);
      if check.Fail? {
        return Err(check.error);
      }
    }
    if !name.Symbol? {
      return Err(LetName);
    }
    var v := Eval(vals[1], env, out, fuel);
    match v
    case Err(m) =>
      r := Err(m);
    case Unit =>
      r := Err(LetOfUnit);
    case Value(x) =>
      var added := env.AddVar(name.name, x);
      match added
      case Fail(m) => r := Err(m);
      case Ok(_) => r := Unit;
  }

  method AddFunToEnv(vals: seq<Expr>, env: Environment) returns (r: EvalResult)
    modifies env
    ensures Evaluated(r, State(env.contexts, [])) == Semantics.AddFunToEnv(vals, State(old(env.contexts), []))
  {
    if |vals| != 3 {
      return Err(FnShape);
    }
    var name := vals[0];
    if name.Symbol? {
      var check := ReservedWords(name.name);
      if check.Fail? {
        return Err(check.error);
      }
    }
    if !(name.Symbol? && vals[1].List?) {
      return Err(FnShape);
    }
    var params := ParamNames(vals[1].items);
    match params
    case Fail(m) =>
      r := Err(m);
    case Ok(ps) =>
      var added := env.AddFn(name.name, ps, vals[2]);
      match added
      case Fail(m) => r := Err(m);
      case Ok(_) => r := Unit;
  }

  method Print(vals: seq<Expr>, env: Environment, out: Console, fuel: nat) returns (r: EvalResult)
    modifies out
    ensures Evaluated(r, StateOf(env, out)) == Semantics.Print(vals, old(StateOf(env, out)), fuel)
  {
    if |vals| < 1 {
      return Err(NoPrintOperands);
    }
    var output := RenderAll(vals, env.contexts, fuel);
    match output
    case None =>
      r := Err(OutOfFuel);
    case Some(parts) =>
      out.WriteLine(Join(parts, " "));
      r := Unit;
  }
}
