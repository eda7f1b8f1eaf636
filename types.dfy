/** The expression tree shared by the parser and the evaluator.
    Rust's `Rc<Expr>` sharing is replaced by an immutable Dafny datatype,
    and the `f64` payload of a number by an unbounded integer. */
module Types {

  /** Numbers of the language (an `f64` in the program). */
  type Num = int

  datatype Expr =
    | Symbol(name: string)
    | FNum(num: Num)
    | List(items: seq<Expr>)
}
