/** More fuel changes nothing once an evaluation has finished: the fuel bound
    only decides whether an evaluation gets to the end, never what it gives
    when it does. Each lemma follows the function it is about, and the
    evaluation at the smaller fuel `f` must not have run out. */
module Fuel {
  import opened Wrappers
  import opened Types
  import opened Scopes
  import opened Primitives
  import opened Semantics

  /** A reading of operands that passes running out of fuel through unchanged. */
  ghost predicate KeepsOutOfFuel<T>(conv: (EvalResult, Expr) -> Result<T, string>) {
    forall x :: conv(Err(OutOfFuel), x) == Fail(OutOfFuel)
  }

  lemma {:induction false} EvalMonotone(e: Expr, st: State, f: nat, g: nat)
    requires f <= g && Eval(e, st, f).result != Err(OutOfFuel)
    ensures Eval(e, st, g) == Eval(e, st, f)
    decreases f, 1
  {
    EvalWithoutFuel(e, st);
    var f1: nat, g1: nat := f - 1, g - 1;
    assert f == f1 + 1 && g == g1 + 1;
    if e.FNum? || e == List([]) {
      SelfEvaluating(e, st, f1, g1);
    } else if e.Symbol? {
      SymbolMonotone(e, st, f1, g1);
    } else if e.List? && e.items != [] {
      var head := e.items[0];
      if head.Symbol? && SpecialForm(head.name).Some? {
        FormCaseMonotone(e, st, f1, g1);
      } else if head.Symbol? && IsBound(st.env, head.name) {
        CallCaseMonotone(e, head.name, e.items[1..], st, f1, g1);
      } else {
        ImplicitCaseMonotone(e, st, f1, g1);
      }
    }
  }

  // The cases of `Eval`, one lemma each to keep every proof small. Each is
  // stated for the fuel left after `Eval` has taken its unit.

  lemma {:induction false} SymbolMonotone(e: Expr, st: State, f: nat, g: nat)
    requires e.Symbol?
    requires f <= g && Eval(e, st, f + 1).result != Err(OutOfFuel)
    ensures Eval(e, st, g + 1) == Eval(e, st, f + 1)
    decreases f + 1, 0
  {
    EvalOfSymbol(e, st, f);
    EvalSymbolMonotone(e, e.name, [], st, f, g);
    EvalOfSymbol(e, st, g);
  }

  lemma {:induction false} FormCaseMonotone(e: Expr, st: State, f: nat, g: nat)
    requires e.List? && e.items != [] && e.items[0].Symbol? && SpecialForm(e.items[0].name).Some?
    requires f <= g && Eval(e, st, f + 1).result != Err(OutOfFuel)
    ensures Eval(e, st, g + 1) == Eval(e, st, f + 1)
    decreases f + 1, 0
  {
    EvalOfForm(e, st, f);
    EvalFormMonotone(SpecialForm(e.items[0].name).value, e.items[1..], st, f, g);
    EvalOfForm(e, st, g);
  }

  lemma {:induction false} CallCaseMonotone(e: Expr, name: string, rest: seq<Expr>, st: State, f: nat, g: nat)
    requires e.List? && e.items != [] && e.items[0] == Symbol(name) && e.items[1..] == rest
    requires SpecialForm(name).None? && IsBound(st.env, name)
    requires f <= g && Eval(e, st, f + 1).result != Err(OutOfFuel)
    ensures Eval(e, st, g + 1) == Eval(e, st, f + 1)
    decreases f + 1, 0
  {
    EvalOfCall(e, name, rest, st, f);
    EvalSymbolMonotone(e, name, rest, st, f, g);
    EvalOfCall(e, name, rest, st, g);
  }

  lemma {:induction false} ImplicitCaseMonotone(e: Expr, st: State, f: nat, g: nat)
    requires e.List? && e.items != []
    requires !(e.items[0].Symbol? && (SpecialForm(e.items[0].name).Some? || IsBound(st.env, e.items[0].name)))
    requires f <= g && Eval(e, st, f + 1).result != Err(OutOfFuel)
    ensures Eval(e, st, g + 1) == Eval(e, st, f + 1)
    decreases f + 1, 0
  {
    EvalOfImplicitList(e, st, f);
    ImplicitListMonotone(e.items, st, f, g);
    EvalOfImplicitList(e, st, g);
  }

  // How `Eval` reads an expression, given the fuel left after its own unit.

  lemma EvalWithoutFuel(e: Expr, st: State)
    ensures Eval(e, st, 0).result == Err(OutOfFuel)
  {
  }

  /** Numbers and the empty list evaluate to themselves, whatever the fuel. */
  lemma SelfEvaluating(e: Expr, st: State, f: nat, g: nat)
    requires e.FNum? || e == List([])
    ensures Eval(e, st, g + 1) == Eval(e, st, f + 1) == Evaluated(Value(e), st)
  {
  }

  lemma EvalOfSymbol(e: Expr, st: State, fuel: nat)
    requires e.Symbol?
    ensures Eval(e, st, fuel + 1) == EvalSymbol(e, e.name, [], st, fuel)
  {
  }

  lemma EvalOfForm(e: Expr, st: State, fuel: nat)
    requires e.List? && e.items != [] && e.items[0].Symbol? && SpecialForm(e.items[0].name).Some?
    ensures Eval(e, st, fuel + 1) == EvalForm(SpecialForm(e.items[0].name).value, e.items[1..], st, fuel)
  {
  }

  lemma EvalOfCall(e: Expr, name: string, rest: seq<Expr>, st: State, fuel: nat)
    requires e.List? && e.items != [] && e.items[0] == Symbol(name) && e.items[1..] == rest
    requires SpecialForm(name).None? && IsBound(st.env, name)
    ensures Eval(e, st, fuel + 1) == EvalSymbol(e, name, rest, st, fuel)
  {
  }

  lemma EvalOfImplicitList(e: Expr, st: State, fuel: nat)
    requires e.List? && e.items != []
    requires !(e.items[0].Symbol? && (SpecialForm(e.items[0].name).Some? || IsBound(st.env, e.items[0].name)))
    ensures Eval(e, st, fuel + 1) == ImplicitList(e.items, st, fuel)
  {
  }

  lemma {:induction false} EvalFormMonotone(form: Form, args: seq<Expr>, st: State, f: nat, g: nat)
    requires f <= g && EvalForm(form, args, st, f).result != Err(OutOfFuel)
    ensures EvalForm(form, args, st, g) == EvalForm(form, args, st, f)
    decreases f, 4
  {
    match form
    case Math(op) => DoMathMonotone(op, args, st, f, g);
    case Boolean(op) => DoBooleanMonotone(op, args, st, f, g);
    case Equality(op) => DoEqualityMonotone(op, args, st, f, g);
    case If => IfStatementMonotone(args, st, f, g);
    case Let => AddVarToEnvMonotone(args, st, f, g);
    case Fn =>
    case Print => PrintMonotone(args, st, f, g);
  }

  lemma {:induction false} OperandsMonotone<T>(es: seq<Expr>, st: State, f: nat, g: nat, conv: (EvalResult, Expr) -> Result<T, string>)
    requires KeepsOutOfFuel(conv)
    requires f <= g && EvalOperands(es, st, f, conv).result != Fail(OutOfFuel)
    ensures EvalOperands(es, st, g, conv) == EvalOperands(es, st, f, conv)
    decreases f, 2, |es|
  {
    if es != [] {
      var h := Eval(es[0], st, f);
      EvalMonotone(es[0], st, f, g);
      if conv(h.result, es[0]).Ok? {
        OperandsMonotone(es[1..], h.st, f, g, conv);
      }
    }
  }

  lemma {:induction false} ImplicitListMonotone(vals: seq<Expr>, st: State, f: nat, g: nat)
    requires f <= g && ImplicitList(vals, st, f).result != Err(OutOfFuel)
    ensures ImplicitList(vals, st, g) == ImplicitList(vals, st, f)
    decreases f, 3
  {
    OperandsMonotone(vals, st, f, g, ListItem);
  }

  lemma {:induction false} EvalSymbolMonotone(e: Expr, s: string, args: seq<Expr>, st: State, f: nat, g: nat)
    requires f <= g && EvalSymbol(e, s, args, st, f).result != Err(OutOfFuel)
    ensures EvalSymbol(e, s, args, st, g) == EvalSymbol(e, s, args, st, f)
    decreases f, 3
  {
    match Resolve(st.env, s)
    case None =>
    case Some(b) =>
      if b.params == [] {
        EvalMonotone(b.body, st, f, g);
      } else if |b.params| == |args| {
        var a := EvalOperands(args, st, f, Argument);
        OperandsMonotone(args, st, f, g, Argument);
        if a.result.Ok? {
          var bound := a.st.(env := AddVars(Push(a.st.env), Zip(b.params, a.result.value)));
          EvalMonotone(b.body, bound, f, g);
        }
      }
  }

  lemma {:induction false} DoMathMonotone(op: MathOp, vals: seq<Expr>, st: State, f: nat, g: nat)
    requires f <= g && DoMath(op, vals, st, f).result != Err(OutOfFuel)
    ensures DoMath(op, vals, st, g) == DoMath(op, vals, st, f)
    decreases f, 3
  {
    if vals != [] {
      OperandsMonotone(vals, st, f, g, NumberOperand);
    }
  }

  lemma {:induction false} DoBooleanMonotone(op: BoolOp, vals: seq<Expr>, st: State, f: nat, g: nat)
    requires f <= g && DoBoolean(op, vals, st, f).result != Err(OutOfFuel)
    ensures DoBoolean(op, vals, st, g) == DoBoolean(op, vals, st, f)
    decreases f, 3
  {
    if vals != [] && !(op == Not && |vals| != 1) {
      OperandsMonotone(vals, st, f, g, BooleanOperand);
    }
  }

  lemma {:induction false} DoEqualityMonotone(op: EqOp, vals: seq<Expr>, st: State, f: nat, g: nat)
    requires f <= g && DoEquality(op, vals, st, f).result != Err(OutOfFuel)
    ensures DoEquality(op, vals, st, g) == DoEquality(op, vals, st, f)
    decreases f, 3
  {
    if vals != [] {
      OperandsMonotone(vals, st, f, g, EqualityOperand);
    }
  }

  lemma {:induction false} IfStatementMonotone(vals: seq<Expr>, st: State, f: nat, g: nat)
    requires f <= g && IfStatement(vals, st, f).result != Err(OutOfFuel)
    ensures IfStatement(vals, st, g) == IfStatement(vals, st, f)
    decreases f, 3
  {
    if |vals| == 3 {
      var p := Eval(vals[0], st, f);
      EvalMonotone(vals[0], st, f, g);
      if p.result.Value? && !p.result.expr.FNum? {
        EvalMonotone(if Truth(p.result.expr).value then vals[1] else vals[2], p.st, f, g);
      }
    }
  }

  lemma {:induction false} AddVarToEnvMonotone(vals: seq<Expr>, st: State, f: nat, g: nat)
    requires f <= g && AddVarToEnv(vals, st, f).result != Err(OutOfFuel)
    ensures AddVarToEnv(vals, st, g) == AddVarToEnv(vals, st, f)
    decreases f, 3
  {
    if |vals| == 2 && vals[0].Symbol? && ReservedWords(vals[0].name).Ok? {
      EvalMonotone(vals[1], st, f, g);
    }
  }

  lemma PrintMonotone(vals: seq<Expr>, st: State, f: nat, g: nat)
    requires f <= g && Semantics.Print(vals, st, f).result != Err(OutOfFuel)
    ensures Semantics.Print(vals, st, g) == Semantics.Print(vals, st, f)
  {
    if |vals| >= 1 {
      RenderAllMonotone(vals, st.env, f, g);
    }
  }

  lemma {:induction false} RenderMonotone(e: Expr, env: Contexts, f: nat, g: nat)
    requires f <= g && Render(e, env, f).Some?
    ensures Render(e, env, g) == Render(e, env, f)
    decreases f, e, 2
  {
    if e.List? {
      ListMonotone(e, env, f, g);
    } else if e.Symbol? && Resolve(env, e.name).Some? && Resolve(env, e.name).value.params == [] {
      assert f > 0;
      var f1: nat, g1: nat := f - 1, g - 1;
      RenderShift(e, env, f, g, f1, g1);
      VariableMonotone(e, Resolve(env, e.name).value.body, env, f1, g1);
    } else {
      RenderWithoutFuel(e, env, f, g);
    }
  }

  /** Numbers, unbound symbols and functions print without spending fuel. */
  lemma RenderWithoutFuel(e: Expr, env: Contexts, f: nat, g: nat)
    requires !e.List? && !(e.Symbol? && Resolve(env, e.name).Some? && Resolve(env, e.name).value.params == [])
    ensures Render(e, env, g) == Render(e, env, f)
  {
  }

  lemma {:induction false} ListMonotone(e: Expr, env: Contexts, f: nat, g: nat)
    requires e.List? && f <= g && Render(e, env, f).Some?
    ensures Render(e, env, g) == Render(e, env, f)
    decreases f, e, 1
  {
    RenderAllMonotone(e.items, env, f, g);
  }

  lemma RenderShift(e: Expr, env: Contexts, f: nat, g: nat, f1: nat, g1: nat)
    requires f == f1 + 1 && g == g1 + 1
    ensures Render(e, env, f) == Render(e, env, f1 + 1) && Render(e, env, g) == Render(e, env, g1 + 1)
  {
  }

  /** A variable prints as its value, one unit of fuel further down. */
  lemma {:induction false} VariableMonotone(e: Expr, body: Expr, env: Contexts, f: nat, g: nat)
    requires e.Symbol? && Resolve(env, e.name) == Some(Binding([], body))
    requires f <= g && Render(e, env, f + 1).Some?
    ensures Render(e, env, g + 1) == Render(e, env, f + 1)
    decreases f + 1, e, 1
  {
    RenderOfVariable(e, body, env, f);
    RenderOfVariable(e, body, env, g);
    RenderMonotone(body, env, f, g);
  }

  lemma RenderOfVariable(e: Expr, body: Expr, env: Contexts, fuel: nat)
    requires e.Symbol? && Resolve(env, e.name) == Some(Binding([], body))
    ensures Render(e, env, fuel + 1) == Render(body, env, fuel)
  {
  }

  lemma {:induction false} RenderAllMonotone(xs: seq<Expr>, env: Contexts, f: nat, g: nat)
    requires f <= g && RenderAll(xs, env, f).Some?
    ensures RenderAll(xs, env, g) == RenderAll(xs, env, f)
    decreases f, xs, 2
  {
    if xs != [] {
      RenderMonotone(xs[0], env, f, g);
      RenderAllMonotone(xs[1..], env, f, g);
    }
  }
}
