// What the evaluation of the expression nodes promises: literals, reading
// and writing variables, declarations, and the checks each node makes
// before it changes the store.
module EvalProps {
  import opened Wrappers
  import opened Strings
  import opened Tokens
  import opened Ast
  import opened Values
  import opened EnvironmentSpec
  import opened EnvironmentProps
  import opened TypeChecks
  import opened TypeCheckProps
  import Operators
  import opened Nodes
  import opened EvalSpec

  /** Literals yield their value and leave the store as it was. */
  lemma LiteralRules(h: Host, st: Store, env: EnvId, text: string, n: Option<real>, flag: bool, fuel: nat)
    requires fuel > 0
    ensures Eval(h, st, env, EmptyExpr, fuel) == Step(Normal(VoidV), st)
    ensures Eval(h, st, env, StringLiteralExpr(text), fuel) == Step(Normal(StringV(Unescape(text))), st)
    ensures Eval(h, st, env, NumberLiteralExpr(n), fuel).store == st
    ensures Eval(h, st, env, NumberLiteralExpr(n), fuel).outcome.Normal? <==> n.Some?
    ensures n.Some? ==> Eval(h, st, env, NumberLiteralExpr(n), fuel).outcome == Normal(NumberV(n.value))
    ensures Eval(h, st, env, BooleanLiteralExpr(flag), fuel) == Step(Normal(BoolV(flag)), st)
    ensures Eval(h, st, env, NullLiteralExpr, fuel) == Step(Normal(NullV), st)
  {
  }

  /** The statement signals leave the store as it was; a node class
      without a rule is an error through the dispatch and VOID when called
      directly; no evaluation runs without fuel. */
  lemma SignalRules(h: Host, st: Store, env: EnvId, className: string, e: Expr, fuel: nat)
    requires fuel > 0
    ensures Eval(h, st, env, BreakStmt, fuel) == Step(BreakSig, st)
    ensures Eval(h, st, env, ContinueStmt, fuel) == Step(ContinueSig, st)
    ensures Eval(h, st, env, Unevaluated(className), fuel)
      == Step(Failure(InterpreterError("Invalid expression: " + className)), st)
    ensures EvalNode(h, st, env, Unevaluated(className), fuel) == Step(Normal(VoidV), st)
    ensures Eval(h, st, env, e, 0) == Step(Failure(OutOfFuel), st)
  {
  }

  /** A backslash-free string literal denotes itself. */
  lemma PlainStringLiteral(h: Host, st: Store, env: EnvId, text: string, fuel: nat)
    requires fuel > 0 && '\\' !in text
    ensures Eval(h, st, env, StringLiteralExpr(text), fuel) == Step(Normal(StringV(text)), st)
  {
    UnescapePlain(text);
  }

  // ---------------------------------------------------------------- identifiers

  /** An identifier is read as a variable first, then as a function, then
      as a type; it is unbound exactly when it is none of the three, and
      reading it never changes the store. */
  lemma IdentifierRules(h: Host, st: Store, env: EnvId, name: string, fuel: nat)
    requires env < |st| && fuel > 0
    ensures Eval(h, st, env, IdentifierExpr(name), fuel).store == st
    ensures (!IsDefinedIn(st, env, name, VariableSpace) && !IsDefinedIn(st, env, name, FunctionSpace)
             && !IsDefinedIn(st, env, name, TypeSpace))
      <==> ResolveIdentifier(st, env, name) == Err(EnvironmentError("Variable " + name + " is not defined!"))
    ensures IsDefinedIn(st, env, name, VariableSpace) ==>
      GetVariable(st, env, name).Ok? && ResolveIdentifier(st, env, name) == CopyOfBinding(st, env, GetVariable(st, env, name).value)
    ensures !IsDefinedIn(st, env, name, VariableSpace) && IsDefinedIn(st, env, name, FunctionSpace) ==>
      GetFunction(st, env, name).Ok? && ResolveIdentifier(st, env, name) == GetFunction(st, env, name)
    ensures (!IsDefinedIn(st, env, name, VariableSpace) && !IsDefinedIn(st, env, name, FunctionSpace)
             && IsDefinedIn(st, env, name, TypeSpace)) ==>
      GetType(st, env, name).Ok? && ResolveIdentifier(st, env, name) == Ok(TypeV(GetType(st, env, name).value))
  {
    GetVariableSearch(st, env, name);
    GetTypeAndFunctionSearch(st, env, name);
    if IsDefinedIn(st, env, name, VariableSpace) && ResolveIdentifier(st, env, name).Err? {
      var m := ResolveIdentifier(st, env, name).error;
      assert m == InterpreterError("Invalid value type: " + GetVariable(st, env, name).value.typeName);
      assert m.message[0] == 'I';
      assert ("Variable " + name + " is not defined!")[0] == 'V';
    }
  }

  /** The copy a variable is read as keeps the value's kind, except that an
      array, a tuple or VOID comes wrapped as an object when the recorded
      type is defined and is refused otherwise. Primitives are read as
      stored, strings decoded once more, objects tagged with the recorded
      type, and functions without their closure. */
  lemma CopyRules(st: Store, env: EnvId, b: Binding)
    ensures var r := CopyOfBinding(st, env, b);
      r.Err? <==> ((b.value.ArrayV? || b.value.TupleV? || b.value.VoidV?) && !IsDefinedIn(st, env, b.typeName, TypeSpace))
    ensures var r := CopyOfBinding(st, env, b);
      r.Ok? ==> (Kind(r.value) == Kind(b.value) || r.value == WrapperV(b.value, TYPE))
    ensures b.value.NumberV? || b.value.BoolV? || b.value.NullV? || b.value.NativeFunctionV? ==>
      CopyOfBinding(st, env, b) == Ok(b.value)
    ensures b.value.StringV? && '\\' !in b.value.text ==> CopyOfBinding(st, env, b) == Ok(b.value)
    ensures b.value.ObjectV? ==> CopyOfBinding(st, env, b) == Ok(ObjectV(b.value.fields, b.typeName))
    ensures b.value.FunctionV? ==> CopyOfBinding(st, env, b) == Ok(b.value.(closure := None))
  {
    if b.value.StringV? && '\\' !in b.value.text {
      UnescapePlain(b.value.text);
    }
  }

  // ---------------------------------------------------------------- binary

  /** A binary expression runs its left operand and then its right one, each
      by its own rule and the right in the store the left left; the first
      that does not complete is the outcome, and otherwise the operator
      table decides, in the right operand's store. */
  lemma BinaryRule(h: Host, st: Store, env: EnvId, left: Expr, op: Token, right: Expr, fuel: nat)
    ensures var l := EvalNode(h, st, env, left, fuel);
      !l.outcome.Normal? ==> Eval(h, st, env, BinaryExpr(left, op, right), fuel + 1) == l
    ensures var l := EvalNode(h, st, env, left, fuel);
      var r := EvalNode(h, l.store, env, right, fuel);
      l.outcome.Normal? && !r.outcome.Normal? ==> Eval(h, st, env, BinaryExpr(left, op, right), fuel + 1) == r
    ensures var l := EvalNode(h, st, env, left, fuel);
      var r := EvalNode(h, l.store, env, right, fuel);
      l.outcome.Normal? && r.outcome.Normal? ==>
        Eval(h, st, env, BinaryExpr(left, op, right), fuel + 1)
        == Step(FromResult(Operators.Binary(op, l.outcome.value, r.outcome.value)), r.store)
  {
    assert Eval(h, st, env, BinaryExpr(left, op, right), fuel + 1) == EvalBinary(h, st, env, left, op, right, fuel);
  }

  /** An operand whose class has no rule of its own is VOID to the binary
      expression, not an error: it reaches the operator table, which
      refuses VOID beside a NUMBER. */
  lemma BinaryRuleLessOperand(h: Host, st: Store, env: EnvId, className: string, op: Token, x: real, fuel: nat)
    requires fuel > 1
    ensures Eval(h, st, env, BinaryExpr(Unevaluated(className), op, NumberLiteralExpr(Some(x))), fuel)
      == Step(Failure(InterpreterError("Invalid binary expression between: VOID " + op.text + " NUMBER")), st)
  {
    var f := fuel - 1;
    assert EvalNode(h, st, env, Unevaluated(className), f) == Step(Normal(VoidV), st);
    assert EvalNode(h, st, env, NumberLiteralExpr(Some(x)), f) == Step(Normal(NumberV(x)), st);
    assert Kind(VoidV) == "VOID" && Kind(NumberV(x)) == "NUMBER";
    assert "Invalid binary expression between: " + "VOID" + " " + op.text + " " + "NUMBER"
      == "Invalid binary expression between: VOID " + op.text + " NUMBER";
  }

  // ---------------------------------------------------------------- unary

  /** `x++` and `x--` on an assignable NUMBER variable yield the number
      read and store it moved by one. */
  lemma IncrementRule(h: Host, st: Store, env: EnvId, op: Token, name: string, b: Binding, fuel: nat)
    requires op.kind == Increment || op.kind == Decrement
    requires fuel > 0 && env < |st| && ConstsBound(st)
    requires GetVariable(st, env, name) == Ok(b) && b.value.NumberV?
    requires !IsDefinedIn(st, env, name, FunctionSpace) && !IsDefinedIn(st, env, name, TypeSpace)
    requires name !in PrimitiveTypes && !b.isConst
    requires Owner(st, env, name, VariableSpace).Some? ==> name !in st[Owner(st, env, name, VariableSpace).value].consts
    ensures var s := EvalUnary(h, st, env, op, IdentifierExpr(name), fuel);
      s.outcome == Normal(b.value)
      && GetVariable(s.store, env, name)
         == Ok(Binding(NumberV(if op.kind == Increment then b.value.number + 1.0 else b.value.number - 1.0), NUMBER, false))
  {
    GetVariableSearch(st, env, name);
    IdentifierRules(h, st, env, name, fuel);
    var v' := NumberV(if op.kind == Increment then b.value.number + 1.0 else b.value.number - 1.0);
    SetVariableRule(st, env, name, v');
    SetVariableThenGet(st, env, name, v', env, name, VariableSpace);
  }

  /** `x++` on a const is refused by the write, and the store is kept. */
  lemma IncrementConstRejected(h: Host, st: Store, env: EnvId, op: Token, name: string, fuel: nat)
    requires op.kind == Increment || op.kind == Decrement
    requires fuel > 0 && env < |st|
    requires GetVariable(st, env, name).Ok? && GetVariable(st, env, name).value.value.NumberV?
    requires !IsDefinedIn(st, env, name, FunctionSpace) && !IsDefinedIn(st, env, name, TypeSpace)
    requires name !in PrimitiveTypes
    requires Owner(st, env, name, VariableSpace).Some? && name in st[Owner(st, env, name, VariableSpace).value].consts
    ensures EvalUnary(h, st, env, op, IdentifierExpr(name), fuel)
      == Step(Failure(EnvironmentError("Variable " + name + " is a const!")), st)
  {
    GetVariableSearch(st, env, name);
    IdentifierRules(h, st, env, name, fuel);
    var b := GetVariable(st, env, name).value;
    var v' := NumberV(if op.kind == Increment then b.value.number + 1.0 else b.value.number - 1.0);
    SetConstRejected(st, env, name, v');
  }

  /** `++` and `--` need a variable: on any other NUMBER they fail naming
      the operator and the kind. */
  lemma IncrementNeedsVariable(h: Host, st: Store, env: EnvId, op: Token, x: real, fuel: nat)
    requires op.kind == Increment || op.kind == Decrement
    requires fuel > 0
    ensures EvalUnary(h, st, env, op, NumberLiteralExpr(Some(x)), fuel)
      == Step(Failure(InterpreterError("Invalid unary expression: " + op.text + " " + NUMBER)), st)
  {
  }

  // ---------------------------------------------------------------- assignment

  /** An assignment evaluates its value first and then needs a bound
      target; a successful one stores the value it yields, recording its
      kind. */
  lemma AssignmentRule(h: Host, st: Store, env: EnvId, target: string, value: Expr, fuel: nat)
    ensures var s := Eval(h, st, env, value, fuel);
      !s.outcome.Normal? ==> EvalAssignment(h, st, env, target, value, fuel) == s
    ensures var s := Eval(h, st, env, value, fuel);
      s.outcome.Normal? && !IsDefinedIn(s.store, env, target, VariableSpace) ==>
        EvalAssignment(h, st, env, target, value, fuel)
        == Step(Failure(EnvironmentError("Variable " + target + " is not defined!")), s.store)
    ensures var r := EvalAssignment(h, st, env, target, value, fuel);
      r.outcome.Normal? ==> GetVariable(r.store, env, target) == Ok(Binding(r.outcome.value, Kind(r.outcome.value), false))
  {
    var s := Eval(h, st, env, value, fuel);
    if s.outcome.Normal? {
      var v := s.outcome.value;
      OwnerIsDefined(s.store, env, target, VariableSpace);
      if GetVariable(s.store, env, target).Ok? {
        var b := GetVariable(s.store, env, target).value;
        var c := VerifyType(s.store, env, v, Kind(v), b.typeName);
        if c.Ok? && SetVariable(s.store, env, target, c.value).Ok? {
          SetVariableThenGet(s.store, env, target, c.value, env, target, VariableSpace);
        }
      }
    }
  }

  /** The value is checked against its own kind, which must name a type
      (so an object, array or tuple needs a type named after its kind), and
      a primitive value against the type the target recorded. */
  lemma AssignmentTypeChecks(h: Host, st: Store, env: EnvId, target: string, value: Expr, fuel: nat)
    ensures var s := Eval(h, st, env, value, fuel);
      (s.outcome.Normal? && GetVariable(s.store, env, target).Ok? && !IsComposite(s.outcome.value)
       && IsDefinedIn(s.store, env, Kind(s.outcome.value), TypeSpace)
       && Kind(s.outcome.value) != GetVariable(s.store, env, target).value.typeName) ==>
        EvalAssignment(h, st, env, target, value, fuel)
        == Step(Failure(InterpreterError("Invalid variable type: " + Kind(s.outcome.value) + " expected "
                                         + GetVariable(s.store, env, target).value.typeName)), s.store)
    ensures var s := Eval(h, st, env, value, fuel);
      (s.outcome.Normal? && GetVariable(s.store, env, target).Ok?
       && !IsDefinedIn(s.store, env, Kind(s.outcome.value), TypeSpace)) ==>
        EvalAssignment(h, st, env, target, value, fuel)
        == Step(Failure(InterpreterError("Type " + Kind(s.outcome.value) + " is not defined!")), s.store)
  {
    var s := Eval(h, st, env, value, fuel);
    if s.outcome.Normal? && GetVariable(s.store, env, target).Ok? {
      var v := s.outcome.value;
      var b := GetVariable(s.store, env, target).value;
      if !IsDefinedIn(s.store, env, Kind(v), TypeSpace) {
        UnknownTypeRejected(s.store, env, v, Kind(v), b.typeName);
      } else {
        VerifyTypeRule(s.store, env, v, Kind(v), b.typeName);
      }
    }
  }

  // ---------------------------------------------------------------- declarations

  /** A declaration of type ANY, VOID or NULL is refused before its
      initializer is evaluated; one without an initializer is NULL, which
      no declarable type accepts; a successful one binds the checked value
      here with its kind and the const flag. */
  lemma VariableDeclarationRule(h: Host, st: Store, env: EnvId, name: string, typeName: string,
                                init: Option<Expr>, isConst: bool, fuel: nat)
    ensures typeName == ANY || typeName == VOID || typeName == NULL ==>
      EvalVariableDeclaration(h, st, env, name, typeName, init, isConst, fuel)
      == Step(Failure(InterpreterError("Invalid variable type: " + typeName)), st)
    ensures (init.None? && typeName != ANY && typeName != VOID && typeName != NULL
             && IsDefinedIn(st, env, typeName, TypeSpace)) ==>
      EvalVariableDeclaration(h, st, env, name, typeName, init, isConst, fuel)
      == Step(Failure(InterpreterError("Invalid variable type: " + NULL + " expected " + typeName)), st)
    ensures var r := EvalVariableDeclaration(h, st, env, name, typeName, init, isConst, fuel);
      r.outcome.Normal? && env < |r.store| ==>
        GetVariable(r.store, env, name) == Ok(Binding(r.outcome.value, Kind(r.outcome.value), isConst))
  {
    if typeName != ANY && typeName != VOID && typeName != NULL {
      var s := if init.Some? then Eval(h, st, env, init.value, fuel) else Step(Normal(NullV), st);
      if s.outcome.Normal? && IsDefinedIn(s.store, env, typeName, TypeSpace) {
        VerifyTypeRule(s.store, env, s.outcome.value, typeName, typeName);
      }
      var r := EvalVariableDeclaration(h, st, env, name, typeName, init, isConst, fuel);
      if r.outcome.Normal? && env < |s.store| {
        DefineVariableRule(s.store, env, name, r.outcome.value, isConst);
      }
    }
  }
}
