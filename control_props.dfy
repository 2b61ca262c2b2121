// What the control constructs promise: the order in which a list of
// statements runs and where it stops, blocks, conditionals, returns, calls,
// and the turns of the three loops with their failsafe.
module ControlProps {
  import opened Wrappers
  import opened Strings
  import opened Ast
  import opened Values
  import opened EnvironmentSpec
  import opened Stl
  import opened Nodes
  import opened NodeProps
  import opened EvalSpec

  // ---------------------------------------------------------------- statement lists

  /** A list of statements either runs to the end, yielding one value per
      statement, or stops at a statement that does not complete, yielding
      the values of those before it and that statement's outcome. */
  lemma {:induction false} ListStopsAtFirst(h: Host, st: Store, env: EnvId, es: seq<Expr>, i: nat, direct: bool, fuel: nat)
    requires i <= |es|
    ensures var r := EvalList(h, st, env, es, i, direct, fuel);
      (r.stopped.None? ==> |r.values| == |es| - i)
      && (r.stopped.Some? ==> |r.values| < |es| - i && !r.stopped.value.Normal?)
    decreases |es| - i
  {
    if i < |es| {
      var s := if direct then EvalNode(h, st, env, es[i], fuel) else Eval(h, st, env, es[i], fuel);
      if s.outcome.Normal? {
        ListStopsAtFirst(h, s.store, env, es, i + 1, direct, fuel);
      }
    }
  }

  /** The expression at position i runs first, in the store given; its
      value heads the values, and the rest of the list runs in the store it
      left. */
  lemma ListNextStatement(h: Host, st: Store, env: EnvId, es: seq<Expr>, i: nat, direct: bool, fuel: nat)
    requires i < |es|
    ensures var s := if direct then EvalNode(h, st, env, es[i], fuel) else Eval(h, st, env, es[i], fuel);
      var rest := EvalList(h, s.store, env, es, i + 1, direct, fuel);
      EvalList(h, st, env, es, i, direct, fuel)
      == if s.outcome.Normal? then ListStep([s.outcome.value] + rest.values, rest.stopped, rest.store)
         else ListStep([], Some(s.outcome), s.store)
  {
  }

  /** An object literal either stops where one of its field values does
      not complete, or has one value per field and builds its map from them. */
  lemma ObjectLiteralRule(h: Host, st: Store, env: EnvId, fields: seq<(string, Expr)>, fuel: nat)
    ensures var r := EvalList(h, st, env, FieldExprs(fields), 0, true, fuel);
      r.stopped.None? ==> |r.values| == |fields|
    ensures var r := EvalList(h, st, env, FieldExprs(fields), 0, true, fuel);
      EvalObjectLiteral(h, st, env, fields, fuel)
      == if r.stopped.Some? then Step(r.stopped.value, r.store)
         else Step(Normal(ObjectV(BuildRecord(Keys(fields), r.values), OBJECT)), r.store)
  {
    ListStopsAtFirst(h, st, env, FieldExprs(fields), 0, true, fuel);
  }

  // ---------------------------------------------------------------- blocks

  /** A block runs its statements in one new environment under the current
      one; it yields VOID, or the outcome of the first statement that does
      not complete. */
  lemma BlockRule(h: Host, st: Store, env: EnvId, statements: seq<Expr>, fuel: nat)
    ensures EvalBlock(h, st, env, statements, fuel).outcome.Normal? ==>
      EvalBlock(h, st, env, statements, fuel).outcome == Normal(VoidV)
    ensures var r := EvalList(h, st + [EmptyLevel(Some(env))], |st|, statements, 0, false, fuel);
      EvalBlock(h, st, env, statements, fuel) == Step(if r.stopped.Some? then r.stopped.value else Normal(VoidV), r.store)
  {
    ChildIsEmpty(st, env);
    var r := EvalList(h, st + [EmptyLevel(Some(env))], |st|, statements, 0, false, fuel);
    ListStopsAtFirst(h, st + [EmptyLevel(Some(env))], |st|, statements, 0, false, fuel);
  }

  /** A statement that does not complete ends the block at once. */
  lemma BlockStopsAtSignal(h: Host, st: Store, env: EnvId, statements: seq<Expr>, fuel: nat)
    requires |statements| > 0
    ensures var s := Eval(h, st + [EmptyLevel(Some(env))], |st|, statements[0], fuel);
      !s.outcome.Normal? ==> EvalBlock(h, st, env, statements, fuel) == s
  {
    ChildIsEmpty(st, env);
  }

  // ---------------------------------------------------------------- conditionals

  // One case of each rule at a time: the cases together are more than
  // the solver handles in one proof.

  lemma IfPassesFailure(h: Host, st: Store, env: EnvId, condition: Expr, thenBranch: Expr, elseBranch: Option<Expr>, fuel: nat)
    ensures var c := Eval(h, st, env, condition, fuel);
      !c.outcome.Normal? ==> EvalIf(h, st, env, condition, thenBranch, elseBranch, fuel) == c
  {
  }

  lemma IfRejectsNonBool(h: Host, st: Store, env: EnvId, condition: Expr, thenBranch: Expr, elseBranch: Option<Expr>, fuel: nat)
    ensures var c := Eval(h, st, env, condition, fuel);
      c.outcome.Normal? && !c.outcome.value.BoolV? ==>
        EvalIf(h, st, env, condition, thenBranch, elseBranch, fuel)
        == Step(Failure(InterpreterError("Invalid if condition type: " + Kind(c.outcome.value))), c.store)
  {
  }

  lemma IfTakesThen(h: Host, st: Store, env: EnvId, condition: Expr, thenBranch: Expr, elseBranch: Option<Expr>, fuel: nat)
    ensures var c := Eval(h, st, env, condition, fuel);
      c.outcome == Normal(BoolV(true)) ==>
        EvalIf(h, st, env, condition, thenBranch, elseBranch, fuel) == EvalNode(h, c.store, env, thenBranch, fuel)
  {
  }

  lemma IfSkipsOtherElse(h: Host, st: Store, env: EnvId, condition: Expr, thenBranch: Expr, elseBranch: Option<Expr>, fuel: nat)
    ensures var c := Eval(h, st, env, condition, fuel);
      c.outcome == Normal(BoolV(false)) && (elseBranch.None? || !(elseBranch.value.IfStmt? || elseBranch.value.BlockStmt?)) ==>
        EvalIf(h, st, env, condition, thenBranch, elseBranch, fuel) == Step(Normal(VoidV), c.store)
  {
  }

  /** An if statement needs a BOOL condition; true runs the then branch,
      false the else branch when it is an if or a block, and otherwise
      nothing; a condition that does not complete passes. */
  lemma IfRule(h: Host, st: Store, env: EnvId, condition: Expr, thenBranch: Expr, elseBranch: Option<Expr>, fuel: nat)
    ensures var c := Eval(h, st, env, condition, fuel);
      var r := EvalIf(h, st, env, condition, thenBranch, elseBranch, fuel);
      (!c.outcome.Normal? ==> r == c)
      && (c.outcome.Normal? && !c.outcome.value.BoolV? ==>
            r == Step(Failure(InterpreterError("Invalid if condition type: " + Kind(c.outcome.value))), c.store))
      && (c.outcome == Normal(BoolV(true)) ==> r == EvalNode(h, c.store, env, thenBranch, fuel))
      && (c.outcome == Normal(BoolV(false)) && (elseBranch.None? || !(elseBranch.value.IfStmt? || elseBranch.value.BlockStmt?)) ==>
            r == Step(Normal(VoidV), c.store))
  {
    IfPassesFailure(h, st, env, condition, thenBranch, elseBranch, fuel);
    IfRejectsNonBool(h, st, env, condition, thenBranch, elseBranch, fuel);
    IfTakesThen(h, st, env, condition, thenBranch, elseBranch, fuel);
    IfSkipsOtherElse(h, st, env, condition, thenBranch, elseBranch, fuel);
  }

  lemma TernaryRejectsNonBool(h: Host, st: Store, env: EnvId, condition: Expr, whenTrue: Expr, whenFalse: Expr, fuel: nat)
    ensures var c := Eval(h, st, env, condition, fuel);
      c.outcome.Normal? && !c.outcome.value.BoolV? ==>
        EvalTernary(h, st, env, condition, whenTrue, whenFalse, fuel)
        == Step(Failure(InterpreterError("Invalid ternary condition type: " + Kind(c.outcome.value))), c.store)
  {
  }

  lemma TernaryChooses(h: Host, st: Store, env: EnvId, condition: Expr, whenTrue: Expr, whenFalse: Expr, fuel: nat)
    ensures var c := Eval(h, st, env, condition, fuel);
      c.outcome.Normal? && c.outcome.value.BoolV? ==>
        EvalTernary(h, st, env, condition, whenTrue, whenFalse, fuel)
        == Eval(h, c.store, env, if c.outcome.value.flag then whenTrue else whenFalse, fuel)
  {
  }

  /** A ternary needs a BOOL condition and yields the chosen branch. */
  lemma TernaryRule(h: Host, st: Store, env: EnvId, condition: Expr, whenTrue: Expr, whenFalse: Expr, fuel: nat)
    ensures var c := Eval(h, st, env, condition, fuel);
      var r := EvalTernary(h, st, env, condition, whenTrue, whenFalse, fuel);
      (c.outcome.Normal? && !c.outcome.value.BoolV? ==>
         r == Step(Failure(InterpreterError("Invalid ternary condition type: " + Kind(c.outcome.value))), c.store))
      && (c.outcome == Normal(BoolV(true)) ==> r == Eval(h, c.store, env, whenTrue, fuel))
      && (c.outcome == Normal(BoolV(false)) ==> r == Eval(h, c.store, env, whenFalse, fuel))
  {
    TernaryRejectsNonBool(h, st, env, condition, whenTrue, whenFalse, fuel);
    TernaryChooses(h, st, env, condition, whenTrue, whenFalse, fuel);
  }

  /** A return statement never completes: it carries its value out. */
  lemma ReturnRule(h: Host, st: Store, env: EnvId, value: Expr, fuel: nat)
    ensures !EvalReturn(h, st, env, value, fuel).outcome.Normal?
    ensures var s := Eval(h, st, env, value, fuel);
      s.outcome.Normal? ==> EvalReturn(h, st, env, value, fuel) == Step(ReturnSig(s.outcome.value), s.store)
  {
  }

  // ---------------------------------------------------------------- calls

  /** A call of a name that is no function fails with the lookup's error
      and changes nothing; a call with the wrong number of arguments fails
      naming both counts. */
  lemma CallErrors(h: Host, st: Store, env: EnvId, callee: string, args: seq<Expr>, fuel: nat)
    ensures GetFunction(st, env, callee).Err? ==>
      EvalCall(h, st, env, callee, args, fuel) == Step(Failure(GetFunction(st, env, callee).error), st)
    ensures var f := GetFunction(st, env, callee);
      f.Ok? && IsCallable(f.value) && |args| != |f.value.params| ==>
        EvalCall(h, st, env, callee, args, fuel).outcome
        == Failure(InterpreterError("Invalid number of arguments: " + NatText(|args|) + " expected " + NatText(|f.value.params|)))
  {
  }

  /** No Break, Continue or Return signal leaves a call. */
  lemma CallIsClean(h: Host, st: Store, env: EnvId, callee: string, args: seq<Expr>, fuel: nat)
    ensures var o := EvalCall(h, st, env, callee, args, fuel).outcome;
      o.Normal? || o.Failure?
  {
    match GetFunction(st, env, callee)
    case Err(_) =>
    case Ok(f) =>
      if IsCallable(f) {
        var parent := if f.FunctionV? && f.closure.Some? then f.closure.value else env;
        var (st1, child) := NewLevel(st, Some(parent));
        if |args| == |f.params| {
          var bound := BindArguments(h, st1, env, child, f, args, 0, fuel);
          ConcludeRule(bound.store, env, f.returnType, bound.outcome);
          if bound.outcome.Normal? {
            if f.NativeFunctionV? {
              var again := EvalList(h, bound.store, env, args, 0, false, fuel);
              if again.stopped.Some? {
                ConcludeRule(again.store, env, f.returnType, again.stopped.value);
              }
            } else {
              ConcludeRule(Eval(h, bound.store, child, f.body, fuel).store, env, f.returnType, Eval(h, bound.store, child, f.body, fuel).outcome);
            }
          }
        }
      }
  }

  /** A call of a user function without parameters runs the body in a new
      environment under the function's closure and concludes: a body that
      completes yields VOID, a Return from a VOID function is an error, and
      Break and Continue are errors. */
  lemma NullaryCallRule(h: Host, st: Store, env: EnvId, callee: string, fuel: nat)
    requires GetFunction(st, env, callee).Ok?
    requires GetFunction(st, env, callee).value.FunctionV? && GetFunction(st, env, callee).value.params == []
    ensures var f := GetFunction(st, env, callee).value;
      var parent := if f.closure.Some? then f.closure.value else env;
      var b := Eval(h, st + [EmptyLevel(Some(parent))], |st|, f.body, fuel);
      EvalCall(h, st, env, callee, [], fuel) == Step(Conclude(b.store, env, f.returnType, b.outcome), b.store)
      && (b.outcome.Normal? ==> EvalCall(h, st, env, callee, [], fuel).outcome == Normal(VoidV))
      && (b.outcome.ReturnSig? && f.returnType == VOID ==>
            EvalCall(h, st, env, callee, [], fuel).outcome
            == Failure(InterpreterError("Function of type VOID cannot return a value")))
      && (b.outcome.BreakSig? ==>
            EvalCall(h, st, env, callee, [], fuel).outcome == Failure(InterpreterError("Break statement outside of loop")))
  {
    var f := GetFunction(st, env, callee).value;
    var parent := if f.closure.Some? then f.closure.value else env;
    ChildIsEmpty(st, parent);
  }

  // ---------------------------------------------------------------- for

  /** The increment after the body, VOID when there is none. */
  function Increment(h: Host, st: Store, env: EnvId, increment: Option<Expr>, fuel: nat): Step
  {
    if increment.Some? then Eval(h, st, env, increment.value, fuel) else Step(Normal(VoidV), st)
  }

  /** The test, true when there is none. */
  function Test(h: Host, st: Store, env: EnvId, test: Option<Expr>, fuel: nat): Step
  {
    if test.Some? then Eval(h, st, env, test.value, fuel) else Step(Normal(BoolV(true)), st)
  }

  lemma ForEndsOnTest(h: Host, st: Store, env: EnvId, test: Option<Expr>, increment: Option<Expr>, body: Expr,
                      cap: Option<real>, fuel: nat)
    requires fuel > 0
    ensures var t := Test(h, st, env, test, fuel);
      (!t.outcome.Normal? ==> ForLoop(h, st, env, test, increment, body, cap, fuel) == t)
      && (t.outcome.Normal? && t.outcome.value != BoolV(true) ==>
            ForLoop(h, st, env, test, increment, body, cap, fuel) == Step(Normal(VoidV), t.store))
  {
  }

  lemma ForSignals(h: Host, st: Store, env: EnvId, test: Option<Expr>, increment: Option<Expr>, body: Expr,
                   cap: Option<real>, fuel: nat)
    requires fuel > 0
    ensures var t := Test(h, st, env, test, fuel);
      var b := Eval(h, t.store, env, body, fuel);
      t.outcome == Normal(BoolV(true)) ==>
        (b.outcome.BreakSig? ==> ForLoop(h, st, env, test, increment, body, cap, fuel) == Step(Normal(VoidV), b.store))
        && (b.outcome.ReturnSig? || b.outcome == Failure(OutOfFuel) ==> ForLoop(h, st, env, test, increment, body, cap, fuel) == b)
  {
  }

  lemma ForContinues(h: Host, st: Store, env: EnvId, test: Option<Expr>, increment: Option<Expr>, body: Expr,
                     cap: Option<real>, fuel: nat)
    requires fuel > 0
    ensures var t := Test(h, st, env, test, fuel);
      var b := Eval(h, t.store, env, body, fuel);
      t.outcome == Normal(BoolV(true)) && b.outcome.ContinueSig? ==>
        ForLoop(h, st, env, test, increment, body, cap, fuel) == ForLoop(h, b.store, env, test, increment, body, cap, fuel - 1)
  {
  }

  lemma ForCounts(h: Host, st: Store, env: EnvId, test: Option<Expr>, increment: Option<Expr>, body: Expr,
                  cap: Option<real>, fuel: nat)
    requires fuel > 0
    ensures var t := Test(h, st, env, test, fuel);
      var b := Eval(h, t.store, env, body, fuel);
      var inc := Increment(h, b.store, env, increment, fuel);
      t.outcome == Normal(BoolV(true)) && b.outcome.Normal? ==>
        ForLoop(h, st, env, test, increment, body, cap, fuel)
        == if Exhausted(cap) then Step(Normal(VoidV), b.store)
           else if !inc.outcome.Normal? then inc
           else ForLoop(h, inc.store, env, test, increment, body, Countdown(cap), fuel - 1)
  {
  }

  lemma ForSwallows(h: Host, st: Store, env: EnvId, test: Option<Expr>, increment: Option<Expr>, body: Expr,
                    cap: Option<real>, fuel: nat)
    requires fuel > 0
    ensures var t := Test(h, st, env, test, fuel);
      var b := Eval(h, t.store, env, body, fuel);
      var inc := Increment(h, b.store, env, increment, fuel);
      t.outcome == Normal(BoolV(true)) && b.outcome.Failure? && b.outcome.error != OutOfFuel ==>
        ForLoop(h, st, env, test, increment, body, cap, fuel)
        == if !inc.outcome.Normal? then inc else ForLoop(h, inc.store, env, test, increment, body, cap, fuel - 1)
  {
  }

  /** The turns of a for loop: a test that does not complete passes, one
      other than true ends the loop before the body; Break ends it; Return
      passes, and so does running out of fuel; Continue skips the increment
      and the failsafe count; a completed body is counted, and ends the loop
      once the failsafe is exhausted; any other error is swallowed, and the
      increment runs with the failsafe not counted. */
  lemma ForTurnRule(h: Host, st: Store, env: EnvId, test: Option<Expr>, increment: Option<Expr>, body: Expr,
                    cap: Option<real>, fuel: nat)
    requires fuel > 0
    ensures var t := Test(h, st, env, test, fuel);
      var b := Eval(h, t.store, env, body, fuel);
      var inc := Increment(h, b.store, env, increment, fuel);
      var r := ForLoop(h, st, env, test, increment, body, cap, fuel);
      (!t.outcome.Normal? ==> r == t)
      && (t.outcome.Normal? && t.outcome.value != BoolV(true) ==> r == Step(Normal(VoidV), t.store))
      && (t.outcome == Normal(BoolV(true)) ==>
            (b.outcome.BreakSig? ==> r == Step(Normal(VoidV), b.store))
            && (b.outcome.ReturnSig? || b.outcome == Failure(OutOfFuel) ==> r == b)
            && (b.outcome.ContinueSig? ==> r == ForLoop(h, b.store, env, test, increment, body, cap, fuel - 1))
            && (b.outcome.Normal? && Exhausted(cap) ==> r == Step(Normal(VoidV), b.store))
            && ((b.outcome.Normal? && !Exhausted(cap)) || (b.outcome.Failure? && b.outcome.error != OutOfFuel) ==>
                  (!inc.outcome.Normal? ==> r == inc)
                  && (inc.outcome.Normal? ==>
                        r == ForLoop(h, inc.store, env, test, increment, body, if b.outcome.Normal? then Countdown(cap) else cap, fuel - 1))))
  {
    ForEndsOnTest(h, st, env, test, increment, body, cap, fuel);
    ForSignals(h, st, env, test, increment, body, cap, fuel);
    ForContinues(h, st, env, test, increment, body, cap, fuel);
    ForCounts(h, st, env, test, increment, body, cap, fuel);
    ForSwallows(h, st, env, test, increment, body, cap, fuel);
  }

  // ---------------------------------------------------------------- while and until

  lemma WhileEndsOnTest(h: Host, st: Store, outer: EnvId, child: EnvId, isUntil: bool, condition: Expr, body: Expr,
                        cap: Option<real>, fuel: nat)
    requires fuel > 0
    ensures var c := Eval(h, st, outer, condition, fuel);
      c.outcome.Normal? && c.outcome.value != BoolV(!isUntil) ==>
        WhileLoop(h, st, outer, child, isUntil, condition, body, cap, fuel) == Step(Normal(VoidV), c.store)
  {
  }

  lemma WhileSignals(h: Host, st: Store, outer: EnvId, child: EnvId, isUntil: bool, condition: Expr, body: Expr,
                     cap: Option<real>, fuel: nat)
    requires fuel > 0
    ensures var c := Eval(h, st, outer, condition, fuel);
      var b := Eval(h, c.store, child, body, fuel);
      c.outcome == Normal(BoolV(!isUntil)) ==>
        (b.outcome.BreakSig? ==> WhileLoop(h, st, outer, child, isUntil, condition, body, cap, fuel) == Step(Normal(VoidV), b.store))
        && (b.outcome.ReturnSig? || b.outcome.Failure? ==> WhileLoop(h, st, outer, child, isUntil, condition, body, cap, fuel) == b)
  {
  }

  lemma WhileContinues(h: Host, st: Store, outer: EnvId, child: EnvId, isUntil: bool, condition: Expr, body: Expr,
                       cap: Option<real>, fuel: nat)
    requires fuel > 0
    ensures var c := Eval(h, st, outer, condition, fuel);
      var b := Eval(h, c.store, child, body, fuel);
      c.outcome == Normal(BoolV(!isUntil)) && b.outcome.ContinueSig? ==>
        WhileLoop(h, st, outer, child, isUntil, condition, body, cap, fuel)
        == WhileLoop(h, b.store, outer, child, isUntil, condition, body, cap, fuel - 1)
  {
  }

  lemma WhileCounts(h: Host, st: Store, outer: EnvId, child: EnvId, isUntil: bool, condition: Expr, body: Expr,
                    cap: Option<real>, fuel: nat)
    requires fuel > 0
    ensures var c := Eval(h, st, outer, condition, fuel);
      var b := Eval(h, c.store, child, body, fuel);
      c.outcome == Normal(BoolV(!isUntil)) && b.outcome.Normal? ==>
        WhileLoop(h, st, outer, child, isUntil, condition, body, cap, fuel)
        == if Exhausted(cap) then Step(Normal(VoidV), b.store)
           else WhileLoop(h, b.store, outer, child, isUntil, condition, body, Countdown(cap), fuel - 1)
  {
  }

  /** The turns of a while (until) loop: a condition other than exactly
      true (false), read in the enclosing environment, ends it; Break ends
      it; Continue goes to the next test with the failsafe not counted;
      Return and errors pass; a completed body is counted, and ends the
      loop once the failsafe is exhausted. */
  lemma WhileTurnRule(h: Host, st: Store, outer: EnvId, child: EnvId, isUntil: bool, condition: Expr, body: Expr,
                      cap: Option<real>, fuel: nat)
    requires fuel > 0
    ensures var c := Eval(h, st, outer, condition, fuel);
      var b := Eval(h, c.store, child, body, fuel);
      var r := WhileLoop(h, st, outer, child, isUntil, condition, body, cap, fuel);
      (c.outcome.Normal? && c.outcome.value != BoolV(!isUntil) ==> r == Step(Normal(VoidV), c.store))
      && (c.outcome == Normal(BoolV(!isUntil)) ==>
            (b.outcome.BreakSig? ==> r == Step(Normal(VoidV), b.store))
            && (b.outcome.ContinueSig? ==> r == WhileLoop(h, b.store, outer, child, isUntil, condition, body, cap, fuel - 1))
            && (b.outcome.ReturnSig? || b.outcome.Failure? ==> r == b)
            && (b.outcome.Normal? && Exhausted(cap) ==> r == Step(Normal(VoidV), b.store))
            && (b.outcome.Normal? && !Exhausted(cap) ==>
                  r == WhileLoop(h, b.store, outer, child, isUntil, condition, body, Countdown(cap), fuel - 1)))
  {
    WhileEndsOnTest(h, st, outer, child, isUntil, condition, body, cap, fuel);
    WhileSignals(h, st, outer, child, isUntil, condition, body, cap, fuel);
    WhileContinues(h, st, outer, child, isUntil, condition, body, cap, fuel);
    WhileCounts(h, st, outer, child, isUntil, condition, body, cap, fuel);
  }

  /** `while (true)` over an empty body with a failsafe of n: from the k-th
      test on, n + 2 - k more turns end the loop, and fewer run out of
      fuel. So the body runs exactly n + 2 times. */
  lemma {:induction false} WhileFailsafeTurns(h: Host, st: Store, outer: EnvId, child: EnvId, n: nat, k: nat, fuel: nat)
    requires k <= n + 1
    ensures var r := WhileLoop(h, st, outer, child, false, BooleanLiteralExpr(true), EmptyExpr, CountdownTimes(Some(n as real), k), fuel);
      r == (if fuel >= n + 2 - k then Step(Normal(VoidV), st) else Step(Failure(OutOfFuel), st))
    decreases n + 1 - k
  {
    FailsafeBound(n, k);
    if fuel > 0 && k <= n {
      FailsafeBound(n, k + 1);
      WhileFailsafeTurns(h, st, outer, child, n, k + 1, fuel - 1);
    }
  }

  // ---------------------------------------------------------------- loop entries

  /** A for loop makes one new environment under the current one, at the
      end of the store; the failsafe, the initializer and every turn run in
      it. */
  lemma ForEntry(h: Host, st: Store, env: EnvId, initializer: Option<Expr>, test: Option<Expr>,
                 increment: Option<Expr>, failsafe: Option<Expr>, body: Expr, fuel: nat)
    ensures var fs := EvalFailsafe(h, st + [EmptyLevel(Some(env))], |st|, failsafe, false, fuel);
      var ini := if initializer.Some? then Eval(h, fs.store, |st|, initializer.value, fuel) else Step(Normal(VoidV), fs.store);
      EvalFor(h, st, env, initializer, test, increment, failsafe, body, fuel)
      == if !fs.outcome.Normal? then fs
         else if !ini.outcome.Normal? then ini
         else ForLoop(h, ini.store, |st|, test, increment, body, FailsafeCap(h, fs.outcome.value), fuel)
  {
    ChildIsEmpty(st, env);
  }

  /** A while (until) loop makes one new environment for its failsafe and
      its body; the condition is read in the enclosing environment. */
  lemma WhileEntry(h: Host, st: Store, env: EnvId, isUntil: bool, condition: Expr, failsafe: Option<Expr>, body: Expr, fuel: nat)
    ensures var fs := EvalFailsafe(h, st + [EmptyLevel(Some(env))], |st|, failsafe, false, fuel);
      EvalWhile(h, st, env, isUntil, condition, failsafe, body, fuel)
      == if !fs.outcome.Normal? then fs
         else WhileLoop(h, fs.store, env, |st|, isUntil, condition, body, FailsafeCap(h, fs.outcome.value), fuel)
  {
    ChildIsEmpty(st, env);
  }

  /** A do-while (do-until) loop makes one new environment, in which its
      failsafe, its body and its condition all run. */
  lemma DoEntry(h: Host, st: Store, env: EnvId, isUntil: bool, condition: Expr, failsafe: Option<Expr>, body: Expr, fuel: nat)
    ensures var fs := EvalFailsafe(h, st + [EmptyLevel(Some(env))], |st|, failsafe, true, fuel);
      EvalDoWhile(h, st, env, isUntil, condition, failsafe, body, fuel)
      == if !fs.outcome.Normal? then fs
         else DoLoop(h, fs.store, |st|, isUntil, condition, body, FailsafeCap(h, fs.outcome.value), fuel)
  {
    ChildIsEmpty(st, env);
  }

  // ---------------------------------------------------------------- do-while and do-until

  lemma DoSignals(h: Host, st: Store, child: EnvId, isUntil: bool, condition: Expr, body: Expr, cap: Option<real>, fuel: nat)
    requires fuel > 0
    ensures var b := Eval(h, st, child, body, fuel);
      (b.outcome.BreakSig? ==> DoLoop(h, st, child, isUntil, condition, body, cap, fuel) == Step(Normal(VoidV), b.store))
      && (b.outcome.ReturnSig? || b.outcome.Failure? ==> DoLoop(h, st, child, isUntil, condition, body, cap, fuel) == b)
  {
  }

  lemma DoExhausts(h: Host, st: Store, child: EnvId, isUntil: bool, condition: Expr, body: Expr, cap: Option<real>, fuel: nat)
    requires fuel > 0
    ensures var b := Eval(h, st, child, body, fuel);
      b.outcome.Normal? && Exhausted(cap) ==> DoLoop(h, st, child, isUntil, condition, body, cap, fuel) == Step(Normal(VoidV), b.store)
  {
  }

  lemma DoEndsOnTest(h: Host, st: Store, child: EnvId, isUntil: bool, condition: Expr, body: Expr, cap: Option<real>, fuel: nat)
    requires fuel > 0
    ensures var b := Eval(h, st, child, body, fuel);
      var c := EvalNode(h, b.store, child, condition, fuel);
      (b.outcome.ContinueSig? || (b.outcome.Normal? && !Exhausted(cap))) && c.outcome.Normal? && c.outcome.value != BoolV(!isUntil) ==>
        DoLoop(h, st, child, isUntil, condition, body, cap, fuel) == Step(Normal(VoidV), c.store)
  {
  }

  lemma DoGoesOn(h: Host, st: Store, child: EnvId, isUntil: bool, condition: Expr, body: Expr, cap: Option<real>, fuel: nat)
    requires fuel > 0
    ensures var b := Eval(h, st, child, body, fuel);
      var c := EvalNode(h, b.store, child, condition, fuel);
      (b.outcome.ContinueSig? || (b.outcome.Normal? && !Exhausted(cap))) && c.outcome == Normal(BoolV(!isUntil)) ==>
        DoLoop(h, st, child, isUntil, condition, body, cap, fuel)
        == DoLoop(h, c.store, child, isUntil, condition, body, if b.outcome.Normal? then Countdown(cap) else cap, fuel - 1)
  {
  }

  /** The turns of a do-while (do-until) loop: the body runs before the
      test; Break ends the loop; Return and errors pass; a completed body
      is counted, and ends the loop once the failsafe is exhausted; after
      it, and after Continue, the test decides. */
  lemma DoTurnRule(h: Host, st: Store, child: EnvId, isUntil: bool, condition: Expr, body: Expr, cap: Option<real>, fuel: nat)
    requires fuel > 0
    ensures var b := Eval(h, st, child, body, fuel);
      var c := EvalNode(h, b.store, child, condition, fuel);
      var r := DoLoop(h, st, child, isUntil, condition, body, cap, fuel);
      (b.outcome.BreakSig? ==> r == Step(Normal(VoidV), b.store))
      && (b.outcome.ReturnSig? || b.outcome.Failure? ==> r == b)
      && (b.outcome.Normal? && Exhausted(cap) ==> r == Step(Normal(VoidV), b.store))
      && ((b.outcome.ContinueSig? || (b.outcome.Normal? && !Exhausted(cap))) ==>
            (c.outcome.Normal? && c.outcome.value != BoolV(!isUntil) ==> r == Step(Normal(VoidV), c.store))
            && (c.outcome == Normal(BoolV(!isUntil)) ==>
                  r == DoLoop(h, c.store, child, isUntil, condition, body, if b.outcome.Normal? then Countdown(cap) else cap, fuel - 1)))
  {
    DoSignals(h, st, child, isUntil, condition, body, cap, fuel);
    DoExhausts(h, st, child, isUntil, condition, body, cap, fuel);
    DoEndsOnTest(h, st, child, isUntil, condition, body, cap, fuel);
    DoGoesOn(h, st, child, isUntil, condition, body, cap, fuel);
  }

  /** `do {} while (false)` runs its body once; a while loop whose
      condition is false runs it no times. */
  lemma DoRunsOnce(h: Host, st: Store, outer: EnvId, child: EnvId, body: Expr, cap: Option<real>, fuel: nat)
    requires fuel > 1
    ensures var b := Eval(h, st, child, body, fuel);
      b.outcome.Normal? && !Exhausted(cap) ==>
        DoLoop(h, st, child, false, BooleanLiteralExpr(false), body, cap, fuel) == Step(Normal(VoidV), b.store)
    ensures WhileLoop(h, st, outer, child, false, BooleanLiteralExpr(false), body, cap, fuel) == Step(Normal(VoidV), st)
  {
    var b := Eval(h, st, child, body, fuel);
    assert EvalNode(h, b.store, child, BooleanLiteralExpr(false), fuel) == Step(Normal(BoolV(false)), b.store);
    DoEndsOnTest(h, st, child, false, BooleanLiteralExpr(false), body, cap, fuel);
  }
}
