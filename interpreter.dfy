// The interpreter object as the source runs it: an environment of the
// shared store, and the node rules whose source changes that store step by
// step (a block's statements, the loops, a call's arguments, the template
// and object-literal builders, the writes and declarations). Every method is
// proved to leave the outcome and the store that the function of EvalSpec
// gives for the store it started with; the nodes that neither IsWrite nor
// IsCompound lists are evaluated by EvalSpec.Eval.
module Interpreting {
  import opened Wrappers
  import Strings
  import Tokens
  import opened Ast
  import opened Values
  import opened EnvironmentSpec
  import Environment
  import opened Stl
  import opened TypeChecks
  import Operators
  import opened Nodes
  import opened EvalSpec
  import NodeProps
  import ControlProps

  class Interpreter {
    /** Every Environment object, shared by all interpreters. */
    const scopes: Environment.Scopes
    /** The host services: number texts, `Number(text)`, native bodies. */
    const host: Host
    /** `this.environment`. */
    const environment: EnvId

    /** `new Interpreter(env)`: the given environment, or a new root
        environment seeded with the standard library. */
    constructor(scopes: Environment.Scopes, env: Option<EnvId>, host: Host)
      modifies scopes
      ensures this.scopes == scopes && this.host == host
      ensures env.Some? ==> environment == env.value && scopes.levels == old(scopes.levels)
      ensures env.None? ==> (scopes.levels, environment) == NewLevel(old(scopes.levels), None)
    {
      var id: EnvId;
      if env.Some? {
        id := env.value;
      } else {
        id := NewEnvironment(scopes, None);
      }
      this.scopes := scopes;
      this.host := host;
      this.environment := id;
    }

    /** `evaluate` on a list: the statements in order, in this environment,
        one result each; the first that does not complete ends the list. */
    method Evaluate(stmts: seq<Expr>, fuel: nat) returns (outputs: seq<Value>, stopped: Option<Outcome>)
      modifies scopes
      ensures ListStep(outputs, stopped, scopes.levels) == EvalList(host, old(scopes.levels), environment, stmts, 0, false, fuel)
      ensures stopped.None? ==> |outputs| == |stmts|
      ensures stopped.Some? ==> |outputs| < |stmts| && !stopped.value.Normal?
      decreases fuel, 2
    {
      ControlProps.ListStopsAtFirst(host, scopes.levels, environment, stmts, 0, false, fuel);
      outputs := [];
      stopped := None;
      var i := 0;
      while i < |stmts|
        invariant 0 <= i <= |stmts|
        invariant var rest := EvalList(host, scopes.levels, environment, stmts, i, false, fuel);
          ListStep(outputs + rest.values, rest.stopped, rest.store) == EvalList(host, old(scopes.levels), environment, stmts, 0, false, fuel)
      {
        var o := EvaluateExpr(stmts[i], fuel);
        if !o.Normal? {
          stopped := Some(o);
          assert outputs + [] == outputs;
          return;
        }
        outputs := outputs + [o.value];
        i := i + 1;
      }
      assert outputs + [] == outputs;
    }

    /** `evaluate` on one node: the node class's own rule. */
    method EvaluateExpr(e: Expr, fuel: nat) returns (o: Outcome)
      modifies scopes
      ensures Step(o, scopes.levels) == Eval(host, old(scopes.levels), environment, e, fuel)
      decreases fuel, 1
    {
      if fuel == 0 {
        o := Failure(OutOfFuel);
      } else if IsWrite(e) {
        o := EvaluateWrite(e, fuel);
      } else if IsCompound(e) {
        o := EvaluateCompound(e, fuel);
      } else {
        var s := Eval(host, scopes.levels, environment, e, fuel);
        scopes.levels := s.store;
        o := s.outcome;
      }
    }

    /** The nodes that write a binding or declare a name. */
    method EvaluateWrite(e: Expr, fuel: nat) returns (o: Outcome)
      requires fuel > 0 && IsWrite(e)
      modifies scopes
      ensures Step(o, scopes.levels) == Eval(host, old(scopes.levels), environment, e, fuel)
      decreases fuel, 0
    {
      if e.AssignmentExpr? {
        o := EvaluateAssignment(e.target, e.value, fuel - 1);
      } else if e.UnaryExpr? {
        o := EvaluateUnary(e.op, e.operand, fuel - 1);
      } else if e.VariableDeclarationExpr? {
        o := EvaluateVariableDeclaration(e.name, e.typeName, e.init, e.isConst, fuel - 1);
      } else if e.FunctionDeclarationExpr? {
        o := EvaluateFunctionDeclaration(e.name, e.params, e.body, e.returnType);
      } else if e.TypeDeclarationStmt? {
        o := EvaluateTypeDeclaration(e.name, e.properties);
      } else if e.TupleTypeDeclarationStmt? {
        o := EvaluateTupleTypeDeclaration(e.name, e.memberTypes);
      } else {
        o := EvaluateArrayTypeDeclaration(e.name, e.elementType);
      }
    }

    /** The nodes that run statements or loops, or build a value part by
        part. */
    method EvaluateCompound(e: Expr, fuel: nat) returns (o: Outcome)
      requires fuel > 0 && IsCompound(e)
      modifies scopes
      ensures Step(o, scopes.levels) == Eval(host, old(scopes.levels), environment, e, fuel)
      decreases fuel, 0
    {
      if e.FunctionCallExpr? {
        o := EvaluateCall(e.callee, e.args, fuel - 1);
      } else if e.BlockStmt? {
        o := EvaluateBlock(e.statements, fuel - 1);
      } else if e.ForStmt? {
        o := EvaluateFor(e.initializer, e.test, e.increment, e.failsafe, e.body, fuel - 1);
      } else if e.WhileUntilStmt? {
        o := EvaluateWhile(e.isUntil, e.condition, e.failsafe, e.body, fuel - 1);
      } else if e.DoWhileUntilStmt? {
        o := EvaluateDoWhile(e.isUntil, e.condition, e.failsafe, e.body, fuel - 1);
      } else if e.TemplateLiteralExpr? {
        o := EvaluateTemplate(e.parts, fuel - 1);
      } else {
        o := EvaluateObjectLiteral(e.fields, fuel - 1);
      }
    }

    /** `node.evaluate(interpreter)` called directly. */
    method EvaluateNode(e: Expr, fuel: nat) returns (o: Outcome)
      modifies scopes
      ensures Step(o, scopes.levels) == EvalNode(host, old(scopes.levels), environment, e, fuel)
      decreases fuel, 2
    {
      if e.Unevaluated? {
        o := Normal(VoidV);
      } else {
        o := EvaluateExpr(e, fuel);
      }
    }

    // ---------------------------------------------------------------- writes

    /** `AssignmentExpr.evaluate`. */
    method EvaluateAssignment(target: string, value: Expr, fuel: nat) returns (o: Outcome)
      modifies scopes
      ensures Step(o, scopes.levels) == EvalAssignment(host, old(scopes.levels), environment, target, value, fuel)
      decreases fuel, 3
    {
      var v := EvaluateExpr(value, fuel);
      if !v.Normal? {
        return v;
      }
      var found := GetVariable(scopes.levels, environment, target);
      if found.Err? {
        return Failure(found.error);
      }
      var checked := VerifyType(scopes.levels, environment, v.value, Kind(v.value), found.value.typeName);
      if checked.Err? {
        return Failure(checked.error);
      }
      var err := scopes.SetVariable(environment, target, checked.value);
      if err.Some? {
        return Failure(err.value);
      }
      o := Normal(checked.value);
    }

    /** `UnaryExpr.evaluate`: `++` and `--` write the variable. */
    method EvaluateUnary(op: Tokens.Token, operand: Expr, fuel: nat) returns (o: Outcome)
      modifies scopes
      ensures Step(o, scopes.levels) == EvalUnary(host, old(scopes.levels), environment, op, operand, fuel)
      decreases fuel, 3
    {
      var v := EvaluateExpr(operand, fuel);
      if !v.Normal? {
        return v;
      }
      o := ApplyUnaryIn(op, operand, v.value);
    }

    /** The operator applied to the operand's value. */
    method ApplyUnaryIn(op: Tokens.Token, operand: Expr, v: Value) returns (o: Outcome)
      modifies scopes
      ensures Step(o, scopes.levels) == ApplyUnary(old(scopes.levels), environment, op, operand, v)
    {
      if op.kind != Tokens.Increment && op.kind != Tokens.Decrement {
        return FromResult(Operators.Unary(op, v));
      }
      if !v.NumberV? || !operand.IdentifierExpr? {
        return Failure(InterpreterError("Invalid unary expression: " + op.text + " " + Kind(v)));
      }
      o := IncrementVariableIn(operand.name, op.kind == Tokens.Increment, v);
    }

    /** The write of `x++` and `x--`: the variable's number moved by one. */
    method IncrementVariableIn(name: string, up: bool, result: Value) returns (o: Outcome)
      modifies scopes
      ensures Step(o, scopes.levels) == IncrementVariable(old(scopes.levels), environment, name, up, result)
    {
      var found := GetVariable(scopes.levels, environment, name);
      if found.Err? {
        return Failure(found.error);
      }
      var b := found.value;
      if !b.value.NumberV? {
        return Failure(HostError("variable value is not a number"));
      }
      var moved := if up then b.value.number + 1.0 else b.value.number - 1.0;
      var err := scopes.SetVariable(environment, name, NumberV(moved));
      if err.Some? {
        return Failure(err.value);
      }
      o := Normal(result);
    }

    /** `VariableDeclarationExpr.evaluate`. */
    method EvaluateVariableDeclaration(name: string, typeName: string, init: Option<Expr>, isConst: bool, fuel: nat)
      returns (o: Outcome)
      modifies scopes
      ensures Step(o, scopes.levels) == EvalVariableDeclaration(host, old(scopes.levels), environment, name, typeName, init, isConst, fuel)
      decreases fuel, 2
    {
      if typeName == ANY || typeName == VOID || typeName == NULL {
        return Failure(InterpreterError("Invalid variable type: " + typeName));
      }
      var v := Normal(NullV);
      if init.Some? {
        v := EvaluateExpr(init.value, fuel);
        if !v.Normal? {
          return v;
        }
      }
      var checked := VerifyType(scopes.levels, environment, v.value, typeName, typeName);
      if checked.Err? {
        return Failure(checked.error);
      }
      var err := scopes.DefineVariable(environment, name, checked.value, isConst);
      if err.Some? {
        return Failure(err.value);
      }
      o := Normal(checked.value);
    }

    // ---------------------------------------------------------------- declarations

    /** `FunctionDeclarationExpr.evaluate`: every parameter is checked in
        order before the function is bound. */
    method EvaluateFunctionDeclaration(name: string, params: seq<Param>, body: Expr, returnType: string) returns (o: Outcome)
      modifies scopes
      ensures Step(o, scopes.levels) == DeclareFunction(old(scopes.levels), environment, name, params, body, returnType)
    {
      var e := CheckParameters(params);
      if e.Some? {
        return Failure(e.value);
      }
      o := BindFunction(name, params, body, returnType);
    }

    /** The binding step of `FunctionDeclarationExpr.evaluate`, once the
        parameters have passed. */
    method BindFunction(name: string, params: seq<Param>, body: Expr, returnType: string) returns (o: Outcome)
      modifies scopes
      ensures Step(o, scopes.levels) == Nodes.BindFunction(old(scopes.levels), environment, name, params, body, returnType)
    {
      if returnType == ANY || returnType == NULL {
        return Failure(InterpreterError("Invalid function return type: " + returnType));
      }
      var f := FunctionV(name, params, body, returnType, Some(environment));
      var err := scopes.DefineFunction(environment, name, f);
      if err.Some? {
        return Failure(err.value);
      }
      o := Normal(f);
    }

    /** The parameter loop of `FunctionDeclarationExpr.evaluate`: the first
        parameter that is duplicated, badly typed or of an unknown type
        stops the declaration. */
    method CheckParameters(params: seq<Param>) returns (e: Option<Error>)
      ensures e == ParamsError(scopes.levels, environment, params, |params|)
    {
      for i := 0 to |params|
        invariant ParamsError(scopes.levels, environment, params, i).None?
      {
        e := ParamError(scopes.levels, environment, params, i);
        if e.Some? {
          NodeProps.ParamsErrorNone(scopes.levels, environment, params, i);
          NodeProps.ParamsErrorFirst(scopes.levels, environment, params, |params|, i);
          return;
        }
      }
      e := None;
    }

    /** `TypeDeclarationStmt.evaluate`: each member in order is checked and
        recorded, then the type is bound. */
    method EvaluateTypeDeclaration(name: string, props: seq<(string, string)>) returns (o: Outcome)
      modifies scopes
      ensures Step(o, scopes.levels) == DeclareObjectType(old(scopes.levels), environment, name, props)
    {
      var members: Record<string> := [];
      for i := 0 to |props|
        invariant ObjectTypeMembers(scopes.levels, environment, props[..i]) == Ok(members)
        invariant scopes.levels == old(scopes.levels)
      {
        var (k, t) := props[i];
        assert props[..i + 1][..i] == props[..i];
        if t == ANY || t == NULL || t == VOID {
          ObjectTypeMembersStops(scopes.levels, environment, props, i + 1);
          return Failure(InterpreterError("Invalid property type: " + t));
        }
        members := Put(members, k, t);
        var found := GetType(scopes.levels, environment, t);
        if found.Err? {
          ObjectTypeMembersStops(scopes.levels, environment, props, i + 1);
          return Failure(found.error);
        }
      }
      assert props[..|props|] == props;
      var err := scopes.DefineType(environment, name, TypeDef(TYPE, Some(members)));
      if err.Some? {
        return Failure(err.value);
      }
      o := Normal(VoidV);
    }

    /** `TupleTypeDeclarationStmt.evaluate`. */
    method EvaluateTupleTypeDeclaration(name: string, types: seq<string>) returns (o: Outcome)
      modifies scopes
      ensures Step(o, scopes.levels) == DeclareTupleType(old(scopes.levels), environment, name, types)
    {
      var err := scopes.DefineType(environment, name, TypeDef(TUPLE, Some(TupleTypeMembers(types))));
      o := if err.Some? then Failure(err.value) else Normal(VoidV);
    }

    /** `ArrayTypeDeclarationStmt.evaluate`. */
    method EvaluateArrayTypeDeclaration(name: string, elementType: string) returns (o: Outcome)
      modifies scopes
      ensures Step(o, scopes.levels) == DeclareArrayType(old(scopes.levels), environment, name, elementType)
    {
      var err := scopes.DefineType(environment, name, TypeDef(ARRAY, Some([("$type", elementType)])));
      o := if err.Some? then Failure(err.value) else Normal(VoidV);
    }

    // ---------------------------------------------------------------- calls

    /** `FunctionCallExpr.evaluate`: a new interpreter over a new
        environment under the closure; the arguments are bound there; then
        the native body or the function body, and the `catch`. */
    method EvaluateCall(callee: string, args: seq<Expr>, fuel: nat) returns (o: Outcome)
      modifies scopes
      ensures Step(o, scopes.levels) == EvalCall(host, old(scopes.levels), environment, callee, args, fuel)
      decreases fuel, 5
    {
      var found := GetFunction(scopes.levels, environment, callee);
      if found.Err? {
        return Failure(found.error);
      }
      var f := found.value;
      if !IsCallable(f) {
        return Failure(HostError("func.params is undefined"));
      }
      var parent := if f.FunctionV? && f.closure.Some? then f.closure.value else environment;
      var child := NewEnvironment(scopes, Some(parent));
      var local := new Interpreter(scopes, Some(child), host);
      if |args| != |f.params| {
        return Failure(InterpreterError("Invalid number of arguments: " + Strings.NatText(|args|)
                                        + " expected " + Strings.NatText(|f.params|)));
      }
      var bound := BindAll(child, f, args, fuel);
      if !bound.Normal? {
        return Conclude(scopes.levels, environment, f.returnType, bound);
      }
      if f.NativeFunctionV? {
        var values, stopped := Evaluate(args, fuel);
        if stopped.Some? {
          return Conclude(scopes.levels, environment, f.returnType, stopped.value);
        }
        return Normal(host.native(f.name, values));
      }
      var b := local.EvaluateExpr(f.body, fuel);
      o := Conclude(scopes.levels, environment, f.returnType, b);
    }

    /** The `forEach` over the arguments: each is evaluated here, checked
        against its parameter and bound in the call's environment. */
    method BindAll(child: EnvId, f: Value, args: seq<Expr>, fuel: nat) returns (o: Outcome)
      requires IsCallable(f) && |args| == |f.params|
      modifies scopes
      ensures Step(o, scopes.levels) == BindArguments(host, old(scopes.levels), environment, child, f, args, 0, fuel)
      decreases fuel, 4
    {
      var i := 0;
      while i < |args|
        invariant i <= |args|
        invariant BindArguments(host, scopes.levels, environment, child, f, args, i, fuel)
                  == BindArguments(host, old(scopes.levels), environment, child, f, args, 0, fuel)
      {
        var a := EvaluateExpr(args[i], fuel);
        if !a.Normal? {
          return a;
        }
        var checked := ArgumentCheck(scopes.levels, environment, f, f.params[i], a.value);
        if checked.Err? {
          return Failure(checked.error);
        }
        var err := Bind(child, f.params[i].name, checked.value);
        if err.Some? {
          return Failure(err.value);
        }
        i := i + 1;
      }
      o := Normal(VoidV);
    }

    /** One argument bound by the kind of its value. */
    method Bind(child: EnvId, name: string, v: Value) returns (err: Option<Error>)
      modifies scopes
      ensures scopes.Agrees(err, BindArgument(old(scopes.levels), child, name, v), old(scopes.levels))
    {
      if v.FunctionV? || v.NativeFunctionV? {
        err := scopes.DefineFunction(child, name, v);
      } else if v.TypeV? {
        err := scopes.DefineType(child, name, v.def);
      } else {
        err := scopes.DefineVariable(child, name, v, false);
      }
    }

    // ---------------------------------------------------------------- blocks

    /** `BlockStmt.evaluate`: a new interpreter over a new environment runs
        the statements in order. */
    method EvaluateBlock(statements: seq<Expr>, fuel: nat) returns (o: Outcome)
      modifies scopes
      ensures Step(o, scopes.levels) == EvalBlock(host, old(scopes.levels), environment, statements, fuel)
      decreases fuel, 3
    {
      var child := NewEnvironment(scopes, Some(environment));
      var local := new Interpreter(scopes, Some(child), host);
      var i := 0;
      while i < |statements|
        invariant 0 <= i <= |statements|
        invariant var r := EvalList(host, scopes.levels, child, statements, i, false, fuel);
          Step(if r.stopped.Some? then r.stopped.value else Normal(VoidV), r.store)
          == EvalBlock(host, old(scopes.levels), environment, statements, fuel)
      {
        var s := local.EvaluateExpr(statements[i], fuel);
        if !s.Normal? {
          return s;
        }
        i := i + 1;
      }
      o := Normal(VoidV);
    }

    // ---------------------------------------------------------------- loops

    /** The failsafe expression's value, NULL when there is none. */
    method EvaluateFailsafe(failsafe: Option<Expr>, direct: bool, fuel: nat) returns (o: Outcome)
      modifies scopes
      ensures Step(o, scopes.levels) == EvalFailsafe(host, old(scopes.levels), environment, failsafe, direct, fuel)
      decreases fuel, 3
    {
      if failsafe.None? {
        o := Normal(NullV);
      } else if direct {
        o := EvaluateNode(failsafe.value, fuel);
      } else {
        o := EvaluateExpr(failsafe.value, fuel);
      }
    }

    /** `ForStmt.evaluate`: a new interpreter over a new environment reads
        the failsafe, runs the initializer and the turns. */
    method EvaluateFor(initializer: Option<Expr>, test: Option<Expr>, increment: Option<Expr>, failsafe: Option<Expr>,
                       body: Expr, fuel: nat) returns (o: Outcome)
      modifies scopes
      ensures Step(o, scopes.levels) == EvalFor(host, old(scopes.levels), environment, initializer, test, increment, failsafe, body, fuel)
      decreases fuel, 5
    {
      ControlProps.ForEntry(host, scopes.levels, environment, initializer, test, increment, failsafe, body, fuel);
      var child := NewEnvironment(scopes, Some(environment));
      var local := new Interpreter(scopes, Some(child), host);
      var fs := local.EvaluateFailsafe(failsafe, false, fuel);
      if !fs.Normal? {
        return fs;
      }
      if initializer.Some? {
        var ini := local.EvaluateExpr(initializer.value, fuel);
        if !ini.Normal? {
          return ini;
        }
      }
      o := local.ForTurns(test, increment, body, FailsafeCap(host, fs.value), fuel);
    }

    /** The `while (true)` of a for loop, in the loop's own environment. */
    method ForTurns(test: Option<Expr>, increment: Option<Expr>, body: Expr, cap: Option<real>, fuel: nat) returns (o: Outcome)
      modifies scopes
      ensures Step(o, scopes.levels) == ForLoop(host, old(scopes.levels), environment, test, increment, body, cap, fuel)
      decreases fuel, 4
    {
      var failsafe := cap;
      var turns: nat := fuel;
      while true
        invariant turns <= fuel
        invariant ForLoop(host, scopes.levels, environment, test, increment, body, failsafe, turns)
                  == ForLoop(host, old(scopes.levels), environment, test, increment, body, cap, fuel)
        decreases turns
      {
        if turns == 0 {
          return Failure(OutOfFuel);
        }
        var done, out, next := ForTurn(test, increment, body, failsafe, turns);
        if done {
          return out;
        }
        failsafe := next;
        turns := turns - 1;
      }
    }

    /** One turn of a for loop: the test, the body, the failsafe count and
        the increment. It either ends the loop with an outcome or leaves the
        failsafe for the next turn. */
    method ForTurn(test: Option<Expr>, increment: Option<Expr>, body: Expr, failsafe: Option<real>, turns: nat)
      returns (done: bool, o: Outcome, next: Option<real>)
      requires turns > 0
      modifies scopes
      ensures done ==> Step(o, scopes.levels) == ForLoop(host, old(scopes.levels), environment, test, increment, body, failsafe, turns)
      ensures !done ==> ForLoop(host, scopes.levels, environment, test, increment, body, next, turns - 1)
                        == ForLoop(host, old(scopes.levels), environment, test, increment, body, failsafe, turns)
      decreases turns, 3
    {
      ControlProps.ForTurnRule(host, scopes.levels, environment, test, increment, body, failsafe, turns);
      next := failsafe;
      if test.Some? {
        var t := EvaluateExpr(test.value, turns);
        if !t.Normal? {
          return true, t, next;
        }
        if t.value != BoolV(true) {
          return true, Normal(VoidV), next;
        }
      }
      var b := EvaluateExpr(body, turns);
      if b.BreakSig? {
        return true, Normal(VoidV), next;
      }
      if b.ReturnSig? || b == Failure(OutOfFuel) {
        return true, b, next;
      }
      if !b.ContinueSig? {
        if b.Normal? {
          if Exhausted(failsafe) {
            return true, Normal(VoidV), next;
          }
          next := Countdown(failsafe);
        }
        if increment.Some? {
          var inc := EvaluateExpr(increment.value, turns);
          if !inc.Normal? {
            return true, inc, next;
          }
        }
      }
      done, o := false, Normal(VoidV);
    }

    /** `WhileUntilStmt.evaluate`: the condition is read here, the body runs
        in a new interpreter over a new environment. */
    method EvaluateWhile(isUntil: bool, condition: Expr, failsafe: Option<Expr>, body: Expr, fuel: nat) returns (o: Outcome)
      modifies scopes
      ensures Step(o, scopes.levels) == EvalWhile(host, old(scopes.levels), environment, isUntil, condition, failsafe, body, fuel)
      decreases fuel, 5
    {
      ControlProps.WhileEntry(host, scopes.levels, environment, isUntil, condition, failsafe, body, fuel);
      var child := NewEnvironment(scopes, Some(environment));
      var local := new Interpreter(scopes, Some(child), host);
      var fs := local.EvaluateFailsafe(failsafe, false, fuel);
      if !fs.Normal? {
        return fs;
      }
      o := WhileTurns(local, isUntil, condition, body, FailsafeCap(host, fs.value), fuel);
    }

    /** The turns of a while (until) loop whose body runs in `local`. */
    method WhileTurns(local: Interpreter, isUntil: bool, condition: Expr, body: Expr, cap: Option<real>, fuel: nat)
      returns (o: Outcome)
      requires local.scopes == scopes && local.host == host
      modifies scopes
      ensures Step(o, scopes.levels)
              == WhileLoop(host, old(scopes.levels), environment, local.environment, isUntil, condition, body, cap, fuel)
      decreases fuel, 4
    {
      var failsafe := cap;
      var turns: nat := fuel;
      while true
        invariant turns <= fuel
        invariant WhileLoop(host, scopes.levels, environment, local.environment, isUntil, condition, body, failsafe, turns)
                  == WhileLoop(host, old(scopes.levels), environment, local.environment, isUntil, condition, body, cap, fuel)
        decreases turns
      {
        if turns == 0 {
          return Failure(OutOfFuel);
        }
        var done, out, next := WhileTurn(local, isUntil, condition, body, failsafe, turns);
        if done {
          return out;
        }
        failsafe := next;
        turns := turns - 1;
      }
    }

    /** One turn of a while (until) loop: the condition here, the body in
        `local`, the failsafe count. */
    method WhileTurn(local: Interpreter, isUntil: bool, condition: Expr, body: Expr, failsafe: Option<real>, turns: nat)
      returns (done: bool, o: Outcome, next: Option<real>)
      requires turns > 0
      requires local.scopes == scopes && local.host == host
      modifies scopes
      ensures done ==> Step(o, scopes.levels)
                       == WhileLoop(host, old(scopes.levels), environment, local.environment, isUntil, condition, body, failsafe, turns)
      ensures !done ==> WhileLoop(host, scopes.levels, environment, local.environment, isUntil, condition, body, next, turns - 1)
                        == WhileLoop(host, old(scopes.levels), environment, local.environment, isUntil, condition, body, failsafe, turns)
      decreases turns, 3
    {
      ControlProps.WhileTurnRule(host, scopes.levels, environment, local.environment, isUntil, condition, body, failsafe, turns);
      next := failsafe;
      var c := EvaluateExpr(condition, turns);
      if !c.Normal? {
        return true, c, next;
      }
      if c.value != BoolV(!isUntil) {
        return true, Normal(VoidV), next;
      }
      var b := local.EvaluateExpr(body, turns);
      if b.BreakSig? {
        return true, Normal(VoidV), next;
      }
      if !b.ContinueSig? {
        if !b.Normal? {
          return true, b, next;
        }
        if Exhausted(failsafe) {
          return true, Normal(VoidV), next;
        }
        next := Countdown(failsafe);
      }
      done, o := false, Normal(VoidV);
    }

    /** `DoWhileUntilStmt.evaluate`: body and condition both run in a new
        interpreter over a new environment. */
    method EvaluateDoWhile(isUntil: bool, condition: Expr, failsafe: Option<Expr>, body: Expr, fuel: nat) returns (o: Outcome)
      modifies scopes
      ensures Step(o, scopes.levels) == EvalDoWhile(host, old(scopes.levels), environment, isUntil, condition, failsafe, body, fuel)
      decreases fuel, 5
    {
      ControlProps.DoEntry(host, scopes.levels, environment, isUntil, condition, failsafe, body, fuel);
      var child := NewEnvironment(scopes, Some(environment));
      var local := new Interpreter(scopes, Some(child), host);
      var fs := local.EvaluateFailsafe(failsafe, true, fuel);
      if !fs.Normal? {
        return fs;
      }
      o := local.DoTurns(isUntil, condition, body, FailsafeCap(host, fs.value), fuel);
    }

    /** The turns of a do-while (do-until) loop, in the loop's environment. */
    method DoTurns(isUntil: bool, condition: Expr, body: Expr, cap: Option<real>, fuel: nat) returns (o: Outcome)
      modifies scopes
      ensures Step(o, scopes.levels) == DoLoop(host, old(scopes.levels), environment, isUntil, condition, body, cap, fuel)
      decreases fuel, 4
    {
      var failsafe := cap;
      var turns: nat := fuel;
      while true
        invariant turns <= fuel
        invariant DoLoop(host, scopes.levels, environment, isUntil, condition, body, failsafe, turns)
                  == DoLoop(host, old(scopes.levels), environment, isUntil, condition, body, cap, fuel)
        decreases turns
      {
        if turns == 0 {
          return Failure(OutOfFuel);
        }
        var done, out, next := DoTurn(isUntil, condition, body, failsafe, turns);
        if done {
          return out;
        }
        failsafe := next;
        turns := turns - 1;
      }
    }

    /** One turn of a do-while (do-until) loop: the body, the failsafe
        count, and the condition. */
    method DoTurn(isUntil: bool, condition: Expr, body: Expr, failsafe: Option<real>, turns: nat)
      returns (done: bool, o: Outcome, next: Option<real>)
      requires turns > 0
      modifies scopes
      ensures done ==> Step(o, scopes.levels) == DoLoop(host, old(scopes.levels), environment, isUntil, condition, body, failsafe, turns)
      ensures !done ==> DoLoop(host, scopes.levels, environment, isUntil, condition, body, next, turns - 1)
                        == DoLoop(host, old(scopes.levels), environment, isUntil, condition, body, failsafe, turns)
      decreases turns, 3
    {
      ControlProps.DoTurnRule(host, scopes.levels, environment, isUntil, condition, body, failsafe, turns);
      next := failsafe;
      var b := EvaluateExpr(body, turns);
      if b.BreakSig? {
        return true, Normal(VoidV), next;
      }
      if !b.Normal? && !b.ContinueSig? {
        return true, b, next;
      }
      if b.Normal? {
        if Exhausted(failsafe) {
          return true, Normal(VoidV), next;
        }
        next := Countdown(failsafe);
      }
      var c := EvaluateNode(condition, turns);
      if !c.Normal? {
        return true, c, next;
      }
      if c.value != BoolV(!isUntil) {
        return true, Normal(VoidV), next;
      }
      done, o := false, Normal(VoidV);
    }

    // ---------------------------------------------------------------- builders

    /** `TemplateLiteralExpr.evaluate`: the parts are evaluated, then their
        texts appended one by one. */
    method EvaluateTemplate(parts: seq<Expr>, fuel: nat) returns (o: Outcome)
      modifies scopes
      ensures Step(o, scopes.levels) == EvalTemplate(host, old(scopes.levels), environment, parts, fuel)
      decreases fuel, 3
    {
      var values, stopped := Evaluate(parts, fuel);
      if stopped.Some? {
        return stopped.value;
      }
      var result := "";
      for j := 0 to |values|
        invariant result == TemplateText(host, values[..j])
      {
        assert values[..j + 1][..j] == values[..j];
        result := result + TextOf(host, values[j]);
      }
      assert values[..|values|] == values;
      o := Normal(StringV(Unescape(result)));
    }

    /** `ObjectLiteralExpr.evaluate`: each field value is evaluated and `set`
        under its key in a fresh map. */
    method EvaluateObjectLiteral(fields: seq<(string, Expr)>, fuel: nat) returns (o: Outcome)
      modifies scopes
      ensures Step(o, scopes.levels) == EvalObjectLiteral(host, old(scopes.levels), environment, fields, fuel)
      decreases fuel, 4
    {
      ControlProps.ObjectLiteralRule(host, scopes.levels, environment, fields, fuel);
      var values, stopped := EvaluateFields(fields, fuel);
      if stopped.Some? {
        return stopped.value;
      }
      var record := SetFields(fields, values);
      o := Normal(ObjectV(record, OBJECT));
    }

    /** The field values of an object literal, each evaluated directly, in
        order, up to the first that does not complete. */
    method EvaluateFields(fields: seq<(string, Expr)>, fuel: nat) returns (values: seq<Value>, stopped: Option<Outcome>)
      modifies scopes
      ensures ListStep(values, stopped, scopes.levels)
        == EvalList(host, old(scopes.levels), environment, FieldExprs(fields), 0, true, fuel)
      decreases fuel, 3
    {
      ghost var exprs := FieldExprs(fields);
      values := [];
      var i := 0;
      while i < |fields|
        invariant 0 <= i <= |fields|
        invariant var rest := EvalList(host, scopes.levels, environment, exprs, i, true, fuel);
          ListStep(values + rest.values, rest.stopped, rest.store)
          == EvalList(host, old(scopes.levels), environment, exprs, 0, true, fuel)
      {
        FieldsAt(fields, i);
        ControlProps.ListNextStatement(host, scopes.levels, environment, exprs, i, true, fuel);
        var v := EvaluateNode(fields[i].1, fuel);
        if !v.Normal? {
          assert values + [] == values;
          return values, Some(v);
        }
        values := values + [v.value];
        i := i + 1;
      }
      assert values + [] == values;
      stopped := None;
    }
  }

  /** The nodes whose rule writes a binding or declares a name. */
  predicate IsWrite(e: Expr)
  {
    e.AssignmentExpr? || e.UnaryExpr? || e.VariableDeclarationExpr? || e.FunctionDeclarationExpr?
    || e.TypeDeclarationStmt? || e.TupleTypeDeclarationStmt? || e.ArrayTypeDeclarationStmt?
  }

  /** The nodes whose rule runs statements or loops, or builds a value part
      by part. */
  predicate IsCompound(e: Expr)
  {
    e.FunctionCallExpr? || e.BlockStmt? || e.ForStmt? || e.WhileUntilStmt? || e.DoWhileUntilStmt?
    || e.TemplateLiteralExpr? || e.ObjectLiteralExpr?
  }

  /** The i-th key and expression are those of the i-th field. */
  lemma {:induction false} FieldsAt(fields: seq<(string, Expr)>, i: nat)
    requires i < |fields|
    ensures Keys(fields)[i] == fields[i].0 && FieldExprs(fields)[i] == fields[i].1
  {
    if i > 0 {
      FieldsAt(fields[1..], i - 1);
    }
  }

  /** The `set` of every member name to its value, in order. */
  method SetFields(fields: seq<(string, Expr)>, values: seq<Value>) returns (record: Record<Value>)
    requires |values| == |fields|
    ensures record == BuildRecord(Keys(fields), values)
  {
    ghost var keys := Keys(fields);
    record := [];
    for i := 0 to |fields|
      invariant record == BuildRecord(keys[..i], values[..i])
    {
      FieldsAt(fields, i);
      assert keys[..i + 1][..i] == keys[..i] && values[..i + 1][..i] == values[..i];
      record := Put(record, fields[i].0, values[i]);
    }
    assert keys[..|fields|] == keys && values[..|fields|] == values;
  }

  /** A failing member ends the member map there. */
  lemma ObjectTypeMembersStops(st: Store, env: EnvId, props: seq<(string, string)>, n: nat)
    requires 0 < n <= |props|
    requires ObjectTypeMembers(st, env, props[..n]).Err?
    ensures ObjectTypeMembers(st, env, props).Err?
      && ObjectTypeMembers(st, env, props).error == ObjectTypeMembers(st, env, props[..n]).error
  {
    ObjectTypeMembersPrefix(st, env, props, n);
  }

  lemma {:induction false} ObjectTypeMembersPrefix(st: Store, env: EnvId, props: seq<(string, string)>, n: nat)
    requires n <= |props|
    requires ObjectTypeMembers(st, env, props[..n]).Err?
    ensures ObjectTypeMembers(st, env, props) == ObjectTypeMembers(st, env, props[..n])
    decreases |props| - n
  {
    if n < |props| {
      var longer := props[..n + 1];
      assert longer[..n] == props[..n];
      assert ObjectTypeMembers(st, env, longer).Err?;
      ObjectTypeMembersPrefix(st, env, props, n + 1);
    } else {
      assert props[..n] == props;
    }
  }
}
