// Properties of the operator tables: the order on strings, the remainder,
// which operators each table accepts, and the kinds of their results.
module OperatorProps {
  import opened Wrappers
  import opened Tokens
  import opened Values
  import opened Operators

  /** No string is below itself. */
  lemma {:induction false} StringLessIrreflexive(a: string)
    ensures !StringLess(a, a)
    decreases |a|
  {
    if a != [] {
      StringLessIrreflexive(a[1..]);
    }
  }

  /** Any two different strings are ordered one way, and not both ways. */
  lemma {:induction false} StringLessTotal(a: string, b: string)
    ensures a != b ==> (StringLess(a, b) || StringLess(b, a))
    ensures !(StringLess(a, b) && StringLess(b, a))
    decreases |a|
  {
    if a != [] && b != [] {
      StringLessTotal(a[1..], b[1..]);
      if a[0] == b[0] && a != b {
        assert a == [a[0]] + a[1..] && b == [b[0]] + b[1..];
        assert a[1..] != b[1..];
      }
    }
  }

  /** The order is transitive. */
  lemma {:induction false} StringLessTransitive(a: string, b: string, c: string)
    requires StringLess(a, b) && StringLess(b, c)
    ensures StringLess(a, c)
    decreases |a|
  {
    if a != [] && a[0] == b[0] && b[0] == c[0] {
      StringLessTransitive(a[1..], b[1..], c[1..]);
    }
  }

  function Abs(x: real): real
  {
    if x < 0.0 then -x else x
  }

  /** A fraction of b strictly between -1 and 1 is smaller than b in size. */
  lemma ScaledBound(b: real, d: real)
    requires b != 0.0 && -1.0 < d < 1.0
    ensures -Abs(b) < b * d < Abs(b)
  {
    if b > 0.0 {
      assert b * d < b * 1.0;
      assert b * (-1.0) < b * d;
    } else {
      assert b * 1.0 < b * d;
      assert b * d < b * (-1.0);
    }
  }

  /** Truncation moves toward zero by less than one. */
  lemma TruncateBound(t: real)
    ensures 0.0 <= t ==> 0.0 <= t - (Truncate(t) as real) < 1.0
    ensures t < 0.0 ==> -1.0 < t - (Truncate(t) as real) <= 0.0
  {
  }

  /** The remainder is the dividend less a whole multiple of the divisor,
      is smaller than the divisor in size, and takes the dividend's sign. */
  lemma RemainderRule(a: real, b: real)
    requires b != 0.0
    ensures a == b * (Truncate(a / b) as real) + Remainder(a, b)
    ensures -Abs(b) < Remainder(a, b) < Abs(b)
    ensures a >= 0.0 ==> Remainder(a, b) >= 0.0
    ensures a <= 0.0 ==> Remainder(a, b) <= 0.0
  {
    var t := a / b;
    var q := Truncate(t) as real;
    var d := t - q;
    assert a == b * t;
    TruncateBound(t);
    assert Remainder(a, b) == b * d;
    ScaledBound(b, d);
    if a >= 0.0 {
      if b > 0.0 {
        assert t >= 0.0;
        assert b * d >= 0.0;
      } else {
        assert t <= 0.0;
        assert d <= 0.0;
        assert b * d >= 0.0;
      }
    }
    if a <= 0.0 {
      if b > 0.0 {
        assert t <= 0.0;
        assert d <= 0.0;
        assert b * d <= 0.0;
      } else {
        assert t >= 0.0;
        assert b * d <= 0.0;
      }
    }
  }

  /** A pair of numbers is accepted exactly by the number operators, except
      that a zero divisor is rejected by `/` and `%`. */
  lemma NumberOpDomain(op: TokenKind, a: real, b: real)
    ensures NumberOp(op, a, b).Ok? <==> (op in NumberOperators && ((op == Slash || op == Modulo) ==> b != 0.0))
    ensures op !in NumberOperators ==> NumberOp(op, a, b) == Err(InterpreterError("Invalid binary number expression: " + KindName(op)))
    ensures op == Slash && b == 0.0 ==> NumberOp(op, a, b) == Err(InterpreterError("Division by zero"))
    ensures op == Modulo && b == 0.0 ==> NumberOp(op, a, b) == Err(InterpreterError("Modulo by zero"))
  {
    NumberOpAccepts(op, a, b);
    NumberOpErrors(op, a, b);
  }

  lemma NumberOpAccepts(op: TokenKind, a: real, b: real)
    ensures NumberOp(op, a, b).Ok? <==> (op in NumberOperators && ((op == Slash || op == Modulo) ==> b != 0.0))
  {
  }

  lemma NumberOpErrors(op: TokenKind, a: real, b: real)
    ensures op !in NumberOperators ==> NumberOp(op, a, b) == Err(InterpreterError("Invalid binary number expression: " + KindName(op)))
    ensures op == Slash && b == 0.0 ==> NumberOp(op, a, b) == Err(InterpreterError("Division by zero"))
    ensures op == Modulo && b == 0.0 ==> NumberOp(op, a, b) == Err(InterpreterError("Modulo by zero"))
  {
  }

  /** Division and remainder are inverse to multiplication, and the
      remainder keeps the rule above. */
  lemma NumberDivision(a: real, b: real)
    requires b != 0.0
    ensures NumberOp(Slash, a, b).Ok? && NumberOp(Slash, a, b).value.number * b == a
    ensures NumberOp(Modulo, a, b).Ok? && -Abs(b) < NumberOp(Modulo, a, b).value.number < Abs(b)
    ensures NumberOp(Modulo, a, b).Ok? &&
      (exists q: int {:trigger q as real} :: a == b * (q as real) + NumberOp(Modulo, a, b).value.number)
  {
    RemainderRule(a, b);
    var q := Truncate(a / b);
    assert a == b * (q as real) + NumberOp(Modulo, a, b).value.number;
  }

  /** The number comparisons are one order looked at six ways. */
  lemma NumberComparisons(a: real, b: real)
    ensures NumberOp(LessThen, a, b) == NumberOp(GreaterThen, b, a)
    ensures NumberOp(LessOrEqual, a, b) == NumberOp(GreaterOrEqual, b, a)
    ensures NumberOp(NotEqual, a, b).value.flag == !NumberOp(Equal, a, b).value.flag
    ensures NumberOp(GreaterOrEqual, a, b).value.flag
      == (NumberOp(GreaterThen, a, b).value.flag || NumberOp(Equal, a, b).value.flag)
  {
  }

  /** A pair of strings is accepted exactly by the string operators. */
  lemma StringOpDomain(op: TokenKind, a: string, b: string)
    ensures StringOp(op, a, b).Ok? <==> op in StringOperators
    ensures op !in StringOperators ==> StringOp(op, a, b) == Err(InterpreterError("Invalid binary string expression: " + KindName(op)))
  {
    StringOpAccepts(op, a, b);
    StringOpErrors(op, a, b);
  }

  lemma StringOpAccepts(op: TokenKind, a: string, b: string)
    ensures StringOp(op, a, b).Ok? <==> op in StringOperators
  {
  }

  lemma StringOpErrors(op: TokenKind, a: string, b: string)
    ensures op !in StringOperators ==> StringOp(op, a, b) == Err(InterpreterError("Invalid binary string expression: " + KindName(op)))
  {
  }

  /** The string comparisons are one total order: exactly one of below,
      equal and above holds, and the other four operators follow from it. */
  lemma StringComparisons(a: string, b: string)
    ensures StringOp(GreaterThen, a, b) == StringOp(LessThen, b, a)
    ensures StringOp(LessOrEqual, a, b) == StringOp(GreaterOrEqual, b, a)
    ensures StringOp(LessOrEqual, a, b).value.flag
      == (StringOp(LessThen, a, b).value.flag || StringOp(Equal, a, b).value.flag)
    ensures StringOp(NotEqual, a, b).value.flag == !StringOp(Equal, a, b).value.flag
    ensures (if StringOp(LessThen, a, b).value.flag then 1 else 0) + (if a == b then 1 else 0)
      + (if StringOp(GreaterThen, a, b).value.flag then 1 else 0) == 1
  {
    StringLessTotal(a, b);
    if a == b {
      StringLessIrreflexive(a);
    }
  }

  /** Concatenation of backslash-free strings is plain concatenation. */
  lemma ConcatPlain(a: string, b: string)
    requires '\\' !in a && '\\' !in b
    ensures StringOp(Plus, a, b) == Ok(StringV(a + b))
  {
    assert '\\' !in a + b;
    UnescapePlain(a + b);
  }

  /** Concatenation decodes escapes again: a backslash followed by `n`
      becomes a line break. */
  lemma ConcatDecodesAgain()
    ensures StringOp(Plus, "\\", "n") == Ok(StringV("\n"))
  {
    assert "\\" + "n" == ['\\', 'n'];
    UnescapeNewline();
  }

  /** A pair of booleans is accepted exactly by the boolean operators. */
  lemma BoolOpDomain(op: TokenKind, a: bool, b: bool)
    ensures BoolOp(op, a, b).Ok? <==> op in BoolOperators
    ensures op !in BoolOperators ==> BoolOp(op, a, b) == Err(InterpreterError("Invalid binary boolean expression: " + KindName(op)))
  {
  }

  /** A binary expression succeeds only on two operands of the same kind,
      NUMBER, STRING or BOOL; its result is of that kind for the arithmetic
      operators, BOOL for the rest; operands of different kinds are
      rejected with both kinds named. */
  lemma BinaryKinds(op: Token, left: Value, right: Value)
    ensures Binary(op, left, right).Ok? ==>
      Kind(left) == Kind(right) && Kind(left) in {NUMBER, STRING, BOOL}
    ensures Binary(op, left, right).Ok? ==>
      Kind(Binary(op, left, right).value) == (if op.kind in ArithmeticOperators then Kind(left) else BOOL)
    ensures Kind(left) != Kind(right) ==>
      Binary(op, left, right) == Err(InterpreterError("Invalid binary expression between: " + Kind(left) + " " + op.text + " " + Kind(right)))
  {
  }

  /** `-` and `!` each undo themselves, and reject the other kinds. */
  lemma UnaryInvolution(op: Token, v: Value)
    requires op.kind == Minus || op.kind == Bang
    ensures Unary(op, v).Ok? <==> (if op.kind == Minus then v.NumberV? else v.BoolV?)
    ensures Unary(op, v).Ok? ==> Unary(op, Unary(op, v).value) == Ok(v)
    ensures Unary(op, v).Err? ==> Unary(op, v) == Err(InterpreterError("Invalid unary expression: " + op.text + " " + Kind(v)))
  {
  }
}
