// The operator tables of binary and unary expressions: which operand kinds
// each operator takes, what it computes and which error a mismatch raises.
module Operators {
  import opened Wrappers
  import opened Tokens
  import opened Values

  /** The host's `<` on strings: character by character, a proper prefix
      first. */
  predicate StringLess(a: string, b: string)
    decreases |a|
  {
    if a == [] then b != []
    else b != [] && (a[0] < b[0] || (a[0] == b[0] && StringLess(a[1..], b[1..])))
  }

  /** Rounding toward zero. */
  function Truncate(x: real): int
  {
    if x >= 0.0 then x.Floor else -((-x).Floor)
  }

  /** The host's `%`: the remainder of a division rounded toward zero. */
  function Remainder(a: real, b: real): real
    requires b != 0.0
  {
    a - b * (Truncate(a / b) as real)
  }

  /** The operators a pair of numbers takes. */
  const NumberOperators: set<TokenKind> :=
    {Plus, Minus, Star, Slash, Modulo, Equal, NotEqual, GreaterThen, GreaterOrEqual, LessThen, LessOrEqual}

  /** The operators a pair of strings takes. */
  const StringOperators: set<TokenKind> :=
    {Plus, Equal, NotEqual, GreaterThen, GreaterOrEqual, LessThen, LessOrEqual}

  /** The operators a pair of booleans takes. */
  const BoolOperators: set<TokenKind> := {Equal, NotEqual, And, Or}

  /** The operators whose result is not a BOOL. */
  const ArithmeticOperators: set<TokenKind> := {Plus, Minus, Star, Slash, Modulo}

  /** `BinaryNumberNumberInterpreter.evaluate`. */
  function NumberOp(op: TokenKind, a: real, b: real): Result<Value, Error>
  {
    if op == Plus then Ok(NumberV(a + b))
    else if op == Minus then Ok(NumberV(a - b))
    else if op == Star then Ok(NumberV(a * b))
    else if op == Slash then
      (if b == 0.0 then Err(InterpreterError("Division by zero")) else Ok(NumberV(a / b)))
    else if op == Modulo then
      (if b == 0.0 then Err(InterpreterError("Modulo by zero")) else Ok(NumberV(Remainder(a, b))))
    else if op == Equal then Ok(BoolV(a == b))
    else if op == NotEqual then Ok(BoolV(a != b))
    else if op == GreaterThen then Ok(BoolV(a > b))
    else if op == GreaterOrEqual then Ok(BoolV(a >= b))
    else if op == LessThen then Ok(BoolV(a < b))
    else if op == LessOrEqual then Ok(BoolV(a <= b))
    else Err(InterpreterError("Invalid binary number expression: " + KindName(op)))
  }

  /** `BinaryStringStringInterpreter.evaluate`; the concatenation is a new
      STRING value and so goes through the escape decoding again. */
  function StringOp(op: TokenKind, a: string, b: string): Result<Value, Error>
  {
    if op == Plus then Ok(StringV(Unescape(a + b)))
    else if op == Equal then Ok(BoolV(a == b))
    else if op == NotEqual then Ok(BoolV(a != b))
    else if op == GreaterThen then Ok(BoolV(StringLess(b, a)))
    else if op == GreaterOrEqual then Ok(BoolV(!StringLess(a, b)))
    else if op == LessThen then Ok(BoolV(StringLess(a, b)))
    else if op == LessOrEqual then Ok(BoolV(!StringLess(b, a)))
    else Err(InterpreterError("Invalid binary string expression: " + KindName(op)))
  }

  /** `BinaryBoolBoolInterpreter.evaluate`. */
  function BoolOp(op: TokenKind, a: bool, b: bool): Result<Value, Error>
  {
    if op == Equal then Ok(BoolV(a == b))
    else if op == NotEqual then Ok(BoolV(a != b))
    else if op == And then Ok(BoolV(a && b))
    else if op == Or then Ok(BoolV(a || b))
    else Err(InterpreterError("Invalid binary boolean expression: " + KindName(op)))
  }

  /** `BinaryExpr.evaluate` once both operands are values: the table of the
      operands' common kind, or an error naming both kinds. */
  function Binary(op: Token, left: Value, right: Value): Result<Value, Error>
  {
    if left.NumberV? && right.NumberV? then NumberOp(op.kind, left.number, right.number)
    else if left.StringV? && right.StringV? then StringOp(op.kind, left.text, right.text)
    else if left.BoolV? && right.BoolV? then BoolOp(op.kind, left.flag, right.flag)
    else Err(InterpreterError("Invalid binary expression between: " + Kind(left) + " " + op.text + " " + Kind(right)))
  }

  /** `UnaryExpr.evaluate` for the operators that do not write a variable:
      `-` on a NUMBER, `!` on a BOOL. */
  function Unary(op: Token, v: Value): Result<Value, Error>
    requires op.kind != Increment && op.kind != Decrement
  {
    if op.kind == Minus then
      (if v.NumberV? then Ok(NumberV(-v.number))
       else Err(InterpreterError("Invalid unary expression: " + op.text + " " + Kind(v))))
    else if op.kind == Bang then
      (if v.BoolV? then Ok(BoolV(!v.flag))
       else Err(InterpreterError("Invalid unary expression: " + op.text + " " + Kind(v))))
    else Err(InterpreterError("Invalid unary expression: " + op.text))
  }
}
