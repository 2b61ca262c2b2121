// The evaluation of a syntax tree: one function per node class, composed
// by `Eval`. An evaluation takes the store of environments and the current
// environment, and yields an outcome (a value, a Break, Continue or Return
// signal, or an error) and the store it leaves. Loops and calls need not
// terminate, so every evaluation carries fuel: a call of `Eval` spends one
// unit, a loop one unit per turn, and an exhausted budget is `OutOfFuel`.
module EvalSpec {
  import opened Wrappers
  import opened Strings
  import opened Tokens
  import opened Ast
  import opened Values
  import opened EnvironmentSpec
  import opened Stl
  import opened TypeChecks
  import opened Operators
  import opened Nodes

  /** `Interpreter.evaluateExpr`: the node's own rule, or the error for a
      node class without one. */
  function Eval(h: Host, st: Store, env: EnvId, e: Expr, fuel: nat): Step
    decreases fuel, 0, 0
  {
    if fuel == 0 then Step(Failure(OutOfFuel), st)
    else
      var f := fuel - 1;
      match e
      case EmptyExpr => Step(Normal(VoidV), st)
      case StringLiteralExpr(text) => Step(Normal(StringV(Unescape(text))), st)
      case NumberLiteralExpr(n) =>
        Step(if n.Some? then Normal(NumberV(n.value)) else Failure(InterpreterError("Cannot parse number literal")), st)
      case BooleanLiteralExpr(b) => Step(Normal(BoolV(b)), st)
      case NullLiteralExpr => Step(Normal(NullV), st)
      case IdentifierExpr(name) => Step(FromResult(ResolveIdentifier(st, env, name)), st)
      case AssignmentExpr(target, value) => EvalAssignment(h, st, env, target, value, f)
      case BinaryExpr(left, op, right) => EvalBinary(h, st, env, left, op, right, f)
      case UnaryExpr(op, operand) => EvalUnary(h, st, env, op, operand, f)
      case FunctionCallExpr(callee, args) => EvalCall(h, st, env, callee, args, f)
      case VariableDeclarationExpr(name, typeName, init, isConst) =>
        EvalVariableDeclaration(h, st, env, name, typeName, init, isConst, f)
      case FunctionDeclarationExpr(name, params, body, returnType) =>
        DeclareFunction(st, env, name, params, body, returnType)
      case IfStmt(condition, thenBranch, elseBranch) => EvalIf(h, st, env, condition, thenBranch, elseBranch, f)
      case TernaryExpr(condition, whenTrue, whenFalse) => EvalTernary(h, st, env, condition, whenTrue, whenFalse, f)
      case ForStmt(initializer, test, increment, failsafe, body) =>
        EvalFor(h, st, env, initializer, test, increment, failsafe, body, f)
      case WhileUntilStmt(isUntil, condition, failsafe, body) =>
        EvalWhile(h, st, env, isUntil, condition, failsafe, body, f)
      case DoWhileUntilStmt(isUntil, condition, failsafe, body) =>
        EvalDoWhile(h, st, env, isUntil, condition, failsafe, body, f)
      case BlockStmt(statements) => EvalBlock(h, st, env, statements, f)
      case ReturnStmt(value) => EvalReturn(h, st, env, value, f)
      case BreakStmt => Step(BreakSig, st)
      case ContinueStmt => Step(ContinueSig, st)
      case TemplateLiteralExpr(parts) => EvalTemplate(h, st, env, parts, f)
      case ArrayLiteralExpr(elements) => EvalArrayLiteral(h, st, env, elements, f)
      case TupleLiteralExpr(members) => EvalTupleLiteral(h, st, env, members, f)
      case ObjectLiteralExpr(fields) => EvalObjectLiteral(h, st, env, fields, f)
      case ObjectAccessExpr(obj, property) => EvalObjectAccess(h, st, env, obj, property, f)
      case ArrayAccessExpr(name, index) => EvalArrayAccess(h, st, env, name, index, f)
      case TypeDeclarationStmt(name, properties) => DeclareObjectType(st, env, name, properties)
      case TupleTypeDeclarationStmt(name, memberTypes) => DeclareTupleType(st, env, name, memberTypes)
      case ArrayTypeDeclarationStmt(name, elementType) => DeclareArrayType(st, env, name, elementType)
      case Unevaluated(className) => Step(Failure(InterpreterError("Invalid expression: " + className)), st)
  }

  /** `node.evaluate(interpreter)` called directly rather than through the
      dispatch: a node class without a rule of its own yields VOID. */
  function EvalNode(h: Host, st: Store, env: EnvId, e: Expr, fuel: nat): Step
    decreases fuel, 0, 1
  {
    if e.Unevaluated? then Step(Normal(VoidV), st) else Eval(h, st, env, e, fuel)
  }

  /** The expressions from position i on, in order, each in the store the
      previous one left; the first that does not complete stops the list.
      `direct` selects `node.evaluate` over the dispatch. */
  function EvalList(h: Host, st: Store, env: EnvId, es: seq<Expr>, i: nat, direct: bool, fuel: nat): ListStep
    requires i <= |es|
    decreases fuel, 1, |es| - i
  {
    if i == |es| then ListStep([], None, st)
    else
      var s := if direct then EvalNode(h, st, env, es[i], fuel) else Eval(h, st, env, es[i], fuel);
      if !s.outcome.Normal? then ListStep([], Some(s.outcome), s.store)
      else
        var rest := EvalList(h, s.store, env, es, i + 1, direct, fuel);
        ListStep([s.outcome.value] + rest.values, rest.stopped, rest.store)
  }

  /** `BinaryExpr.evaluate`: left, then right, each by its own `evaluate`
      (so an operand without a rule is VOID), then the operator table. */
  function EvalBinary(h: Host, st: Store, env: EnvId, left: Expr, op: Token, right: Expr, fuel: nat): Step
    decreases fuel, 2, 0
  {
    var l := EvalNode(h, st, env, left, fuel);
    if !l.outcome.Normal? then l
    else
      var r := EvalNode(h, l.store, env, right, fuel);
      if !r.outcome.Normal? then r
      else Step(FromResult(Binary(op, l.outcome.value, r.outcome.value)), r.store)
  }

  /** The write of `x++` and `x--`: the variable is read and set to its
      number moved by one. */
  function IncrementVariable(st: Store, env: EnvId, name: string, up: bool, result: Value): Step
  {
    match GetVariable(st, env, name)
    case Err(e) => Step(Failure(e), st)
    case Ok(b) =>
      if !b.value.NumberV? then Step(Failure(HostError("variable value is not a number")), st)
      else
        match SetVariable(st, env, name, NumberV(if up then b.value.number + 1.0 else b.value.number - 1.0))
        case Err(e) => Step(Failure(e), st)
        case Ok(st') => Step(Normal(result), st')
  }

  /** `UnaryExpr.evaluate`: the operand first; `++` and `--` take a NUMBER
      named by a bare identifier, write it, and yield the value read. */
  function EvalUnary(h: Host, st: Store, env: EnvId, op: Token, operand: Expr, fuel: nat): Step
    decreases fuel, 2, 0
  {
    var o := Eval(h, st, env, operand, fuel);
    if !o.outcome.Normal? then o else ApplyUnary(o.store, env, op, operand, o.outcome.value)
  }

  /** The operator applied to the operand's value v. */
  function ApplyUnary(st: Store, env: EnvId, op: Token, operand: Expr, v: Value): Step
  {
    if op.kind == Increment || op.kind == Decrement then
      if !v.NumberV? || !operand.IdentifierExpr? then
        Step(Failure(InterpreterError("Invalid unary expression: " + op.text + " " + Kind(v))), st)
      else IncrementVariable(st, env, operand.name, op.kind == Increment, v)
    else Step(FromResult(Unary(op, v)), st)
  }

  /** `AssignmentExpr.evaluate`: the value, then the target's binding, the
      type check against the value's own kind and the recorded type, and the
      write through `setVariable`. */
  function EvalAssignment(h: Host, st: Store, env: EnvId, target: string, value: Expr, fuel: nat): Step
    decreases fuel, 2, 0
  {
    var s := Eval(h, st, env, value, fuel);
    if !s.outcome.Normal? then s
    else
      var v := s.outcome.value;
      match GetVariable(s.store, env, target)
      case Err(e) => Step(Failure(e), s.store)
      case Ok(b) =>
        match VerifyType(s.store, env, v, Kind(v), b.typeName)
        case Err(e) => Step(Failure(e), s.store)
        case Ok(v') =>
          match SetVariable(s.store, env, target, v')
          case Err(e) => Step(Failure(e), s.store)
          case Ok(st') => Step(Normal(v'), st')
  }

  /** `VariableDeclarationExpr.evaluate`: ANY, VOID and NULL are refused
      before anything is evaluated; the initializer (NULL if absent) is
      checked against the declared type and bound in this environment. */
  function EvalVariableDeclaration(h: Host, st: Store, env: EnvId, name: string, typeName: string,
                                   init: Option<Expr>, isConst: bool, fuel: nat): Step
    decreases fuel, 2, 0
  {
    if typeName == ANY || typeName == VOID || typeName == NULL then
      Step(Failure(InterpreterError("Invalid variable type: " + typeName)), st)
    else
      var s := if init.Some? then Eval(h, st, env, init.value, fuel) else Step(Normal(NullV), st);
      if !s.outcome.Normal? then s
      else
        match VerifyType(s.store, env, s.outcome.value, typeName, typeName)
        case Err(e) => Step(Failure(e), s.store)
        case Ok(v) =>
          match DefineVariable(s.store, env, name, v, isConst)
          case Err(e) => Step(Failure(e), s.store)
          case Ok(st') => Step(Normal(v), st')
  }

  /** The arguments from position i on: each is evaluated in the caller's
      environment, checked against its parameter and bound in the call's
      environment. */
  function BindArguments(h: Host, st: Store, caller: EnvId, child: EnvId, f: Value, args: seq<Expr>, i: nat, fuel: nat): Step
    requires IsCallable(f) && |args| == |f.params| && i <= |args|
    decreases fuel, 1, |args| - i
  {
    if i == |args| then Step(Normal(VoidV), st)
    else
      var a := Eval(h, st, caller, args[i], fuel);
      if !a.outcome.Normal? then a
      else
        var v := a.outcome.value;
        var p := f.params[i];
        match ArgumentCheck(a.store, caller, f, p, v)
        case Err(e) => Step(Failure(e), a.store)
        case Ok(v') =>
          match BindArgument(a.store, child, p.name, v')
          case Err(e) => Step(Failure(e), a.store)
          case Ok(st') => BindArguments(h, st', caller, child, f, args, i + 1, fuel)
  }

  /** `FunctionCallExpr.evaluate`: the function is looked up, a new
      environment is made under its closure (or the caller's environment),
      the arity is checked, the arguments are bound, and the native body or
      the function body runs; what the body ends in is concluded by the
      call's `catch`. */
  function EvalCall(h: Host, st: Store, env: EnvId, callee: string, args: seq<Expr>, fuel: nat): Step
    decreases fuel, 3, 0
  {
    match GetFunction(st, env, callee)
    case Err(e) => Step(Failure(e), st)
    case Ok(f) =>
      if !IsCallable(f) then Step(Failure(HostError("func.params is undefined")), st)
      else
        var parent := if f.FunctionV? && f.closure.Some? then f.closure.value else env;
        var (st1, child) := NewLevel(st, Some(parent));
        if |args| != |f.params| then
          Step(Failure(InterpreterError("Invalid number of arguments: " + NatText(|args|) + " expected " + NatText(|f.params|))), st1)
        else
          var bound := BindArguments(h, st1, env, child, f, args, 0, fuel);
          if !bound.outcome.Normal? then Step(Conclude(bound.store, env, f.returnType, bound.outcome), bound.store)
          else if f.NativeFunctionV? then
            var again := EvalList(h, bound.store, env, args, 0, false, fuel);
            if again.stopped.Some? then Step(Conclude(again.store, env, f.returnType, again.stopped.value), again.store)
            else Step(Normal(h.native(f.name, again.values)), again.store)
          else
            var body := Eval(h, bound.store, child, f.body, fuel);
            Step(Conclude(body.store, env, f.returnType, body.outcome), body.store)
  }

  /** `BlockStmt.evaluate`: one new environment under the current one, the
      statements in order in it, and VOID. */
  function EvalBlock(h: Host, st: Store, env: EnvId, statements: seq<Expr>, fuel: nat): Step
    decreases fuel, 2, 0
  {
    var (st1, child) := NewLevel(st, Some(env));
    var r := EvalList(h, st1, child, statements, 0, false, fuel);
    Step(if r.stopped.Some? then r.stopped.value else Normal(VoidV), r.store)
  }

  /** `IfStmt.evaluate`. */
  function EvalIf(h: Host, st: Store, env: EnvId, condition: Expr, thenBranch: Expr, elseBranch: Option<Expr>, fuel: nat): Step
    decreases fuel, 2, 0
  {
    var c := Eval(h, st, env, condition, fuel);
    if !c.outcome.Normal? then c
    else if !c.outcome.value.BoolV? then
      Step(Failure(InterpreterError("Invalid if condition type: " + Kind(c.outcome.value))), c.store)
    else if c.outcome.value.flag then EvalNode(h, c.store, env, thenBranch, fuel)
    else if elseBranch.Some? && (elseBranch.value.IfStmt? || elseBranch.value.BlockStmt?) then
      EvalNode(h, c.store, env, elseBranch.value, fuel)
    else Step(Normal(VoidV), c.store)
  }

  /** `TernaryExpr.evaluate`. */
  function EvalTernary(h: Host, st: Store, env: EnvId, condition: Expr, whenTrue: Expr, whenFalse: Expr, fuel: nat): Step
    decreases fuel, 2, 0
  {
    var c := Eval(h, st, env, condition, fuel);
    if !c.outcome.Normal? then c
    else if !c.outcome.value.BoolV? then
      Step(Failure(InterpreterError("Invalid ternary condition type: " + Kind(c.outcome.value))), c.store)
    else Eval(h, c.store, env, if c.outcome.value.flag then whenTrue else whenFalse, fuel)
  }

  /** The failsafe expression's value, NULL when there is none. */
  function EvalFailsafe(h: Host, st: Store, env: EnvId, failsafe: Option<Expr>, direct: bool, fuel: nat): Step
    decreases fuel, 1, 0
  {
    if failsafe.None? then Step(Normal(NullV), st)
    else if direct then EvalNode(h, st, env, failsafe.value, fuel)
    else Eval(h, st, env, failsafe.value, fuel)
  }

  /** `ForStmt.evaluate`: one environment for the whole loop, the failsafe
      and the initializer once, then the turns. */
  function EvalFor(h: Host, st: Store, env: EnvId, initializer: Option<Expr>, test: Option<Expr>,
                   increment: Option<Expr>, failsafe: Option<Expr>, body: Expr, fuel: nat): Step
    decreases fuel, 3, 0
  {
    var (st1, child) := NewLevel(st, Some(env));
    var fs := EvalFailsafe(h, st1, child, failsafe, false, fuel);
    if !fs.outcome.Normal? then fs
    else
      var ini := if initializer.Some? then Eval(h, fs.store, child, initializer.value, fuel) else Step(Normal(VoidV), fs.store);
      if !ini.outcome.Normal? then ini
      else ForLoop(h, ini.store, child, test, increment, body, FailsafeCap(h, fs.outcome.value), fuel)
  }

  /** The turns of a for loop: the test (absent means true), the body, and
      the increment. Break and an exhausted failsafe end the loop, Continue
      skips the increment, Return passes, other errors are swallowed. */
  function ForLoop(h: Host, st: Store, env: EnvId, test: Option<Expr>, increment: Option<Expr>, body: Expr,
                   cap: Option<real>, fuel: nat): Step
    decreases fuel, 2, 0
  {
    if fuel == 0 then Step(Failure(OutOfFuel), st)
    else
      var t := if test.Some? then Eval(h, st, env, test.value, fuel) else Step(Normal(BoolV(true)), st);
      if !t.outcome.Normal? then t
      else if t.outcome.value != BoolV(true) then Step(Normal(VoidV), t.store)
      else
        var b := Eval(h, t.store, env, body, fuel);
        if b.outcome.BreakSig? then Step(Normal(VoidV), b.store)
        else if b.outcome.ReturnSig? || b.outcome == Failure(OutOfFuel) then b
        else if b.outcome.ContinueSig? then ForLoop(h, b.store, env, test, increment, body, cap, fuel - 1)
        else if b.outcome.Normal? && Exhausted(cap) then Step(Normal(VoidV), b.store)
        else
          var cap' := if b.outcome.Normal? then Countdown(cap) else cap;
          var inc := if increment.Some? then Eval(h, b.store, env, increment.value, fuel) else Step(Normal(VoidV), b.store);
          if !inc.outcome.Normal? then inc
          else ForLoop(h, inc.store, env, test, increment, body, cap', fuel - 1)
  }

  /** `WhileUntilStmt.evaluate`: the body's environment is made once; the
      condition is read in the enclosing one. */
  function EvalWhile(h: Host, st: Store, env: EnvId, isUntil: bool, condition: Expr, failsafe: Option<Expr>,
                     body: Expr, fuel: nat): Step
    decreases fuel, 3, 0
  {
    var (st1, child) := NewLevel(st, Some(env));
    var fs := EvalFailsafe(h, st1, child, failsafe, false, fuel);
    if !fs.outcome.Normal? then fs
    else WhileLoop(h, fs.store, env, child, isUntil, condition, body, FailsafeCap(h, fs.outcome.value), fuel)
  }

  /** The turns of a while (until) loop: it goes on while the condition is
      exactly true (false). Break and an exhausted failsafe end it, Continue
      goes to the next test, anything else passes. */
  function WhileLoop(h: Host, st: Store, outer: EnvId, child: EnvId, isUntil: bool, condition: Expr, body: Expr,
                     cap: Option<real>, fuel: nat): Step
    decreases fuel, 2, 0
  {
    if fuel == 0 then Step(Failure(OutOfFuel), st)
    else
      var c := Eval(h, st, outer, condition, fuel);
      if !c.outcome.Normal? then c
      else if c.outcome.value != BoolV(!isUntil) then Step(Normal(VoidV), c.store)
      else
        var b := Eval(h, c.store, child, body, fuel);
        if b.outcome.BreakSig? then Step(Normal(VoidV), b.store)
        else if b.outcome.ContinueSig? then WhileLoop(h, b.store, outer, child, isUntil, condition, body, cap, fuel - 1)
        else if !b.outcome.Normal? then b
        else if Exhausted(cap) then Step(Normal(VoidV), b.store)
        else WhileLoop(h, b.store, outer, child, isUntil, condition, body, Countdown(cap), fuel - 1)
  }

  /** `DoWhileUntilStmt.evaluate`: the failsafe and the condition are read
      in the loop's own environment. */
  function EvalDoWhile(h: Host, st: Store, env: EnvId, isUntil: bool, condition: Expr, failsafe: Option<Expr>,
                       body: Expr, fuel: nat): Step
    decreases fuel, 3, 0
  {
    var (st1, child) := NewLevel(st, Some(env));
    var fs := EvalFailsafe(h, st1, child, failsafe, true, fuel);
    if !fs.outcome.Normal? then fs
    else DoLoop(h, fs.store, child, isUntil, condition, body, FailsafeCap(h, fs.outcome.value), fuel)
  }

  /** The turns of a do-while (do-until) loop: the body first, then the
      test. Continue goes to the test. */
  function DoLoop(h: Host, st: Store, child: EnvId, isUntil: bool, condition: Expr, body: Expr,
                  cap: Option<real>, fuel: nat): Step
    decreases fuel, 2, 0
  {
    if fuel == 0 then Step(Failure(OutOfFuel), st)
    else
      var b := Eval(h, st, child, body, fuel);
      if b.outcome.BreakSig? then Step(Normal(VoidV), b.store)
      else if !b.outcome.Normal? && !b.outcome.ContinueSig? then b
      else if b.outcome.Normal? && Exhausted(cap) then Step(Normal(VoidV), b.store)
      else
        var cap' := if b.outcome.Normal? then Countdown(cap) else cap;
        var c := EvalNode(h, b.store, child, condition, fuel);
        if !c.outcome.Normal? then c
        else if c.outcome.value != BoolV(!isUntil) then Step(Normal(VoidV), c.store)
        else DoLoop(h, c.store, child, isUntil, condition, body, cap', fuel - 1)
  }

  /** `ReturnStmt.evaluate`: the value is carried out by a Return signal. */
  function EvalReturn(h: Host, st: Store, env: EnvId, value: Expr, fuel: nat): Step
    decreases fuel, 2, 0
  {
    var s := Eval(h, st, env, value, fuel);
    if s.outcome.Normal? then Step(ReturnSig(s.outcome.value), s.store) else s
  }

  /** `TemplateLiteralExpr.evaluate`: the parts' texts, concatenated, as a
      new STRING. */
  function EvalTemplate(h: Host, st: Store, env: EnvId, parts: seq<Expr>, fuel: nat): Step
    decreases fuel, 2, 0
  {
    var r := EvalList(h, st, env, parts, 0, false, fuel);
    if r.stopped.Some? then Step(r.stopped.value, r.store)
    else Step(Normal(StringV(Unescape(TemplateText(h, r.values)))), r.store)
  }

  /** `ArrayLiteralExpr.evaluate`. */
  function EvalArrayLiteral(h: Host, st: Store, env: EnvId, elements: seq<Expr>, fuel: nat): Step
    decreases fuel, 2, 0
  {
    var r := EvalList(h, st, env, elements, 0, false, fuel);
    if r.stopped.Some? then Step(r.stopped.value, r.store)
    else Step(FromResult(ArrayLiteralValue(r.values)), r.store)
  }

  /** `TupleLiteralExpr.evaluate`. */
  function EvalTupleLiteral(h: Host, st: Store, env: EnvId, members: seq<Expr>, fuel: nat): Step
    decreases fuel, 2, 0
  {
    var r := EvalList(h, st, env, members, 0, false, fuel);
    if r.stopped.Some? then Step(r.stopped.value, r.store)
    else Step(FromResult(TupleLiteralValue(r.values)), r.store)
  }

  /** `ObjectLiteralExpr.evaluate`: the field expressions in order, each
      `set` under its key, tagged OBJECT. */
  function EvalObjectLiteral(h: Host, st: Store, env: EnvId, fields: seq<(string, Expr)>, fuel: nat): Step
    decreases fuel, 2, 0
  {
    var r := EvalList(h, st, env, FieldExprs(fields), 0, true, fuel);
    if r.stopped.Some? then Step(r.stopped.value, r.store)
    else if |r.values| != |fields| then Step(Failure(HostError("field count")), r.store)
    else Step(Normal(ObjectV(BuildRecord(Keys(fields), r.values), OBJECT)), r.store)
  }

  /** `ObjectAccessExpr.evaluate`. */
  function EvalObjectAccess(h: Host, st: Store, env: EnvId, obj: Expr, property: string, fuel: nat): Step
    decreases fuel, 2, 0
  {
    var o := EvalNode(h, st, env, obj, fuel);
    if !o.outcome.Normal? then o
    else Step(FromResult(PropertyOf(o.outcome.value, property)), o.store)
  }

  /** `ArrayAccessExpr.evaluate`: the variable, then the index. */
  function EvalArrayAccess(h: Host, st: Store, env: EnvId, name: string, index: Expr, fuel: nat): Step
    decreases fuel, 2, 0
  {
    match GetVariable(st, env, name)
    case Err(e) => Step(Failure(e), st)
    case Ok(b) =>
      var i := EvalNode(h, st, env, index, fuel);
      if !i.outcome.Normal? then i
      else Step(FromResult(ElementAt(b, i.outcome.value)), i.store)
  }
}
