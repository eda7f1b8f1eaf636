/** The pure rules behind the built-in operations: which symbols are special
    forms, how arithmetic and boolean operands are folded, what counts as true,
    and when `=` and `!=` hold. */
module Primitives {
  import opened Wrappers
  import opened Types

  datatype MathOp = Add | Sub | Mul | Div
  datatype BoolOp = Or | And | Not
  datatype EqOp = Eq | Ne

  /** The thirteen special forms. */
  datatype Form = Math(mop: MathOp) | Boolean(bop: BoolOp) | Equality(eop: EqOp) | If | Let | Fn | Print

  /** The special form a head symbol selects, if any. */
  function SpecialForm(s: string): (r: Option<Form>)
    ensures r.Some? <==> s in ReservedNames
  {
    if s == "+" then Some(Math(Add))
    else if s == "-" then Some(Math(Sub))
    else if s == "*" then Some(Math(Mul))
    else if s == "/" then Some(Math(Div))
    else if s == "or" then Some(Boolean(Or))
    else if s == "and" then Some(Boolean(And))
    else if s == "not" then Some(Boolean(Not))
    else if s == "=" then Some(Equality(Eq))
    else if s == "!=" then Some(Equality(Ne))
    else if s == "if" then Some(If)
    else if s == "let" then Some(Let)
    else if s == "fn" then Some(Fn)
    else if s == "print" then Some(Print)
    else None
  }

  const ReservedNames: seq<string> := ["+", "-", "*", "/", "or", "and", "not", "=", "!=", "if", "let", "fn", "print"]

  const ReservedMessage := "Reserved variable or function name!"

  /** A name may not be defined exactly when it would be read as a special form. */
  function ReservedWords(symbol: string): (r: Result<(), string>)
    ensures r.Fail? <==> SpecialForm(symbol).Some?
    ensures r.Fail? ==> r.error == ReservedMessage
  {
    if symbol in ReservedNames then Fail(ReservedMessage) else Ok(())
  }

  // ---------------------------------------------------------------------
  // Arithmetic

  function Abs(n: int): nat {
    if n < 0 then -n else n
  }

  /** Division truncating toward zero; a zero divisor gives 0. */
  function Quot(a: Num, b: Num): Num {
    if b == 0 then 0
    else if (a < 0) == (b < 0) then Abs(a) / Abs(b)
    else -(Abs(a) / Abs(b))
  }

  /** The quotient times the divisor is within one divisor of the dividend,
      toward zero. */
  lemma QuotBounds(a: Num, b: Num)
    requires b != 0
    ensures Abs(Quot(a, b) * b) <= Abs(a) < Abs(Quot(a, b) * b) + Abs(b)
  {
    var q := Quot(a, b);
    QuotMagnitude(a, b);
    AbsOfProduct(q, b);
    DivBounds(Abs(a), Abs(b));
  }

  /** A non-zero quotient is negative exactly when the operands have opposite
      signs. */
  lemma QuotSign(a: Num, b: Num)
    requires b != 0
    ensures Quot(a, b) != 0 ==> (Quot(a, b) < 0 <==> (a < 0) != (b < 0))
  {
    QuotMagnitude(a, b);
  }

  lemma QuotMagnitude(a: Num, b: Num)
    requires b != 0
    ensures Abs(Quot(a, b)) == Abs(a) / Abs(b)
    ensures (a < 0) == (b < 0) ==> Quot(a, b) >= 0
    ensures (a < 0) != (b < 0) ==> Quot(a, b) <= 0
  {
    var m := Abs(a) / Abs(b);
    DivNonNegative(Abs(a), Abs(b));
    if (a < 0) == (b < 0) {
      assert Quot(a, b) == m;
    } else {
      assert Quot(a, b) == -m;
    }
  }

  lemma DivNonNegative(n: nat, d: nat)
    requires d > 0
    ensures n / d >= 0
  {
  }

  lemma DivBounds(n: nat, d: nat)
    requires d > 0
    ensures n / d * d <= n < n / d * d + d
  {
  }

  lemma AbsOfProduct(x: int, y: int)
    ensures Abs(x * y) == Abs(x) * Abs(y)
  {
    if x < 0 && y < 0 {
      assert x * y == (-x) * (-y);
    } else if x < 0 {
      assert -(x * y) == (-x) * y;
    } else if y < 0 {
      assert -(x * y) == x * (-y);
    }
  }

  /** One step of the fold. */
  function Apply(op: MathOp, a: Num, b: Num): Num {
    match op
    case Add => a + b
    case Sub => a - b
    case Mul => a * b
    case Div => Quot(a, b)
  }

  /** Start from the first operand and combine the others into it, left to right. */
  function MathFold(op: MathOp, xs: seq<Num>): (r: Num)
    requires xs != []
    ensures |xs| == 1 ==> r == xs[0]
    decreases |xs|
  {
    if |xs| == 1 then xs[0] else Apply(op, MathFold(op, xs[..|xs| - 1]), xs[|xs| - 1])
  }

  function Sum(xs: seq<Num>): Num {
    if xs == [] then 0 else xs[0] + Sum(xs[1..])
  }

  function Product(xs: seq<Num>): Num {
    if xs == [] then 1 else xs[0] * Product(xs[1..])
  }

  lemma {:induction false} SumSnoc(xs: seq<Num>, x: Num)
    ensures Sum(xs + [x]) == Sum(xs) + x
  {
    if xs != [] {
      assert (xs + [x])[1..] == xs[1..] + [x];
      SumSnoc(xs[1..], x);
    }
  }

  lemma {:induction false} ProductSnoc(xs: seq<Num>, x: Num)
    ensures Product(xs + [x]) == Product(xs) * x
  {
    if xs != [] {
      assert (xs + [x])[1..] == xs[1..] + [x];
      ProductSnoc(xs[1..], x);
    }
  }

  /** `(+ a b c)` is the sum of the operands. */
  lemma {:induction false} AddIsSum(xs: seq<Num>)
    requires xs != []
    ensures MathFold(Add, xs) == Sum(xs)
    decreases |xs|
  {
    if |xs| > 1 {
      var init := xs[..|xs| - 1];
      AddIsSum(init);
      SumSnoc(init, xs[|xs| - 1]);
      assert init + [xs[|xs| - 1]] == xs;
    }
  }

  /** `(- a b c)` subtracts every later operand from the first. */
  lemma {:induction false} SubIsFirstMinusRest(xs: seq<Num>)
    requires xs != []
    ensures MathFold(Sub, xs) == xs[0] - Sum(xs[1..])
    decreases |xs|
  {
    if |xs| > 1 {
      var init := xs[..|xs| - 1];
      SubIsFirstMinusRest(init);
      SumSnoc(init[1..], xs[|xs| - 1]);
      assert init[1..] + [xs[|xs| - 1]] == xs[1..];
    }
  }

  /** `(* a b c)` is the product of the operands. */
  lemma {:induction false} MulIsProduct(xs: seq<Num>)
    requires xs != []
    ensures MathFold(Mul, xs) == Product(xs)
    decreases |xs|
  {
    if |xs| > 1 {
      var init := xs[..|xs| - 1];
      MulIsProduct(init);
      ProductSnoc(init, xs[|xs| - 1]);
      assert init + [xs[|xs| - 1]] == xs;
    }
  }

  // ---------------------------------------------------------------------
  // Truthiness and boolean folds

  /** A symbol is false only when it is `False`, a list only when it is empty;
      a number has no truth value. */
  function Truth(e: Expr): (r: Option<bool>)
    ensures r.None? <==> e.FNum?
    ensures r == Some(false) <==> e == Symbol("False") || e == List([])
  {
    match e
    case Symbol(s) => Some(s != "False")
    case List(xs) => Some(xs != [])
    case FNum(_) => None
  }

  /** The symbol the boolean operations return. */
  function BoolSymbol(b: bool): (e: Expr)
    ensures Truth(e) == Some(b)
  {
    Symbol(if b then "True" else "False")
  }

  /** Start from the first operand and combine the others with `|=` or `&=`;
      `not` has exactly one operand, so nothing is combined. */
  function BoolFold(op: BoolOp, xs: seq<bool>): (r: bool)
    requires xs != [] && (op == Not ==> |xs| == 1)
    ensures |xs| == 1 ==> r == xs[0]
    decreases |xs|
  {
    if |xs| == 1 then xs[0]
    else
      var acc := BoolFold(op, xs[..|xs| - 1]);
      if op == Or then acc || xs[|xs| - 1] else acc && xs[|xs| - 1]
  }

  /** `or` holds exactly when some operand is true. */
  lemma {:induction false} OrIsExists(xs: seq<bool>)
    requires xs != []
    ensures BoolFold(Or, xs) <==> exists i | 0 <= i < |xs| :: xs[i]
    decreases |xs|
  {
    if |xs| > 1 {
      var init := xs[..|xs| - 1];
      OrIsExists(init);
      if BoolFold(Or, init) {
        var i :| 0 <= i < |init| && init[i];
        assert xs[i];
      }
      if exists i | 0 <= i < |xs| :: xs[i] {
        var i :| 0 <= i < |xs| && xs[i];
        if i < |init| {
          assert init[i];
        }
      }
    }
  }

  /** `and` holds exactly when every operand is true. */
  lemma {:induction false} AndIsForall(xs: seq<bool>)
    requires xs != []
    ensures BoolFold(And, xs) <==> forall i | 0 <= i < |xs| :: xs[i]
    decreases |xs|
  {
    if |xs| > 1 {
      var init := xs[..|xs| - 1];
      AndIsForall(init);
      if forall i | 0 <= i < |xs| :: xs[i] {
        assert forall i | 0 <= i < |init| :: init[i] by {
          forall i | 0 <= i < |init| ensures init[i] {
            assert init[i] == xs[i];
          }
        }
      }
      if !BoolFold(And, xs) && !xs[|xs| - 1] {
        assert !xs[|xs| - 1];
      } else if !BoolFold(And, xs) {
        var i :| 0 <= i < |init| && !init[i];
        assert !xs[i];
      }
    }
  }

  // ---------------------------------------------------------------------
  // Equality

  /** `=` holds when every operand equals the first; `!=` when some operand
      differs from the first. */
  function EqualityHolds(op: EqOp, xs: seq<Expr>): (r: bool)
    requires xs != []
    ensures op == Eq ==> (r <==> forall i, j | 0 <= i < |xs| && 0 <= j < |xs| :: xs[i] == xs[j])
    ensures op == Ne ==> (r <==> exists i, j | 0 <= i < |xs| && 0 <= j < |xs| :: xs[i] != xs[j])
  {
    match op
    case Eq => forall i | 0 <= i < |xs| :: xs[i] == xs[0]
    case Ne => exists i | 0 <= i < |xs| :: xs[i] != xs[0]
  }

  /** On the same operands `!=` is the negation of `=`, and `=` is an
      equivalence over all operands. */
  lemma EqualityFacts(xs: seq<Expr>)
    requires xs != []
    ensures EqualityHolds(Ne, xs) == !EqualityHolds(Eq, xs)
    ensures EqualityHolds(Eq, xs) <==> forall i, j | 0 <= i < |xs| && 0 <= j < |xs| :: xs[i] == xs[j]
    ensures |xs| == 1 ==> EqualityHolds(Eq, xs)
  {
  }
}
