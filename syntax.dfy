/** The expectation language's abstract syntax: the tokens of one phrase and
    the closed set of cases (`ComplexTestCase`) a phrase parses to. */
module Syntax {

  /** An operand captured from the phrase. The parser never evaluates or
      inspects it: `source` is the text it was written as. */
  datatype Expr = Expr(source: string)

  /** One token of the phrase. `Ident` is a bare identifier (every keyword of
      the language is one); `Operand` is a token group that forms a complete
      expression on its own (a literal, an array expression, ...); `Punct`
      is punctuation that cannot begin an expression. */
  datatype Token = Ident(name: string) | Operand(expr: Expr) | Punct(symbol: string)

  datatype OrderingToken = Eq | Lt | Gt | Leq | Geq

  datatype PathToken = Any | Dir | File

  /** The five cases; the commented-out `Not`/`And`/`Or` are not part of it. */
  datatype ComplexTestCase =
    | Ord(token: OrderingToken, expectedValue: Expr)
    | AlmostEqual(expectedValue: Expr, precision: Expr)
    | Path(kind: PathToken)
    | Contains(expectedElement: Expr)
    | ContainsInOrder(expectedSlice: Expr)

  /** A parse failure carries the position of the offending token.
      `Aborted` is the fatal `abort!` raised when no keyword matches;
      `Expected` is the error of a failed operand or `precision` parse. */
  datatype ParseError =
    | Aborted(at: nat, message: string)
    | Expected(at: nat, what: string)

  datatype Option<+T> = None | Some(value: T)

  datatype Result<+T, +E> = Ok(value: T) | Err(error: E) {
    predicate IsFailure() {
      Err?
    }

    function PropagateFailure<U>(): Result<U, E>
      requires Err?
    {
      Err(error)
    }

    function Extract(): T
      requires Ok?
    {
      value
    }
  }
}
