// The rules of the syntax-tree nodes once their operands are values: how an
// identifier is read, how functions, parameters, arguments and returns are
// checked, how literals, accessors and type declarations build their
// results, and how a loop's failsafe counts down. Nothing here evaluates an
// expression; the evaluator composes these rules.
module Nodes {
  import opened Wrappers
  import opened Strings
  import opened Ast
  import opened Values
  import opened EnvironmentSpec
  import opened TypeChecks

  /** What an evaluation ends in: a value, one of the three statement
      signals the source throws, or an error. */
  datatype Outcome =
    | Normal(value: Value)
    | BreakSig
    | ContinueSig
    | ReturnSig(value: Value)
    | Failure(error: Error)

  /** An outcome and the store it leaves behind. */
  datatype Step = Step(outcome: Outcome, store: Store)

  /** A list of expressions evaluated in order: the values of those that
      completed, the outcome of the one that did not (if any), and the
      store. */
  datatype ListStep = ListStep(values: seq<Value>, stopped: Option<Outcome>, store: Store)

  /** The host services the evaluator calls: the text of a number inside a
      template, `Number(text)` (None for NaN), and the bodies of the native
      functions. */
  datatype Host = Host(
    numberText: real -> string,
    stringToNumber: string -> Option<real>,
    native: (string, seq<Value>) -> Value)

  function FromResult(r: Result<Value, Error>): (o: Outcome)
    ensures o.Normal? <==> r.Ok?
  {
    if r.Ok? then Normal(r.value) else Failure(r.error)
  }

  // ---------------------------------------------------------------- identifiers

  /** The value an identifier yields for a variable's binding: a fresh copy
      of a primitive (a STRING is built again, so decoded again), an object
      over the same fields tagged with the recorded type, a function without
      its closure, and for the other kinds an object wrapper when the
      recorded type is defined. */
  function CopyOfBinding(st: Store, env: EnvId, b: Binding): Result<Value, Error>
  {
    match b.value
    case NumberV(_) => Ok(b.value)
    case StringV(s) => Ok(StringV(Unescape(s)))
    case BoolV(_) => Ok(b.value)
    case NullV => Ok(NullV)
    case ObjectV(fields, _) => Ok(ObjectV(fields, b.typeName))
    case WrapperV(payload, _) => Ok(WrapperV(payload, b.typeName))
    case TypeV(def) => Ok(TypeV(def))
    case FunctionV(name, params, body, returnType, _) => Ok(FunctionV(name, params, body, returnType, None))
    case NativeFunctionV(_, _, _) => Ok(b.value)
    case _ =>
      if IsDefinedIn(st, env, b.typeName, TypeSpace) then Ok(WrapperV(b.value, TYPE))
      else Err(InterpreterError("Invalid value type: " + b.typeName))
  }

  /** `IdentifierExpr.evaluate`: a variable, else a function, else a type,
      each searched up the chain; otherwise the unbound-variable error. */
  function ResolveIdentifier(st: Store, env: EnvId, name: string): Result<Value, Error>
  {
    if IsDefinedIn(st, env, name, VariableSpace) then
      match GetVariable(st, env, name)
      case Err(e) => Err(e)
      case Ok(b) => CopyOfBinding(st, env, b)
    else if IsDefinedIn(st, env, name, FunctionSpace) then
      GetFunction(st, env, name)
    else if IsDefinedIn(st, env, name, TypeSpace) then
      match GetType(st, env, name)
      case Err(e) => Err(e)
      case Ok(t) => Ok(TypeV(t))
    else
      Err(EnvironmentError("Variable " + name + " is not defined!"))
  }

  // ---------------------------------------------------------------- functions

  /** How many parameters carry the name. */
  function Occurrences(params: seq<Param>, name: string): nat
  {
    if params == [] then 0
    else (if params[0].name == name then 1 else 0) + Occurrences(params[1..], name)
  }

  /** The check of parameter i: its name occurs once, its type is not VOID,
      ANY or NULL, and its type is defined. */
  function ParamError(st: Store, env: EnvId, params: seq<Param>, i: nat): Option<Error>
    requires i < |params|
  {
    var p := params[i];
    if Occurrences(params, p.name) > 1 then Some(InterpreterError("Duplicate parameter name: " + p.name))
    else if p.typeName == VOID || p.typeName == ANY || p.typeName == NULL then
      Some(InterpreterError("Invalid parameter type: " + p.typeName))
    else
      match GetType(st, env, p.typeName)
      case Err(e) => Some(e)
      case Ok(_) => None
  }

  /** The first failing check among the first n parameters. */
  function ParamsError(st: Store, env: EnvId, params: seq<Param>, n: nat): Option<Error>
    requires n <= |params|
  {
    if n == 0 then None
    else if ParamsError(st, env, params, n - 1).Some? then ParamsError(st, env, params, n - 1)
    else ParamError(st, env, params, n - 1)
  }

  /** `FunctionDeclarationExpr.evaluate`: the parameters are checked, the
      return type may not be ANY or NULL, and the function, closed over the
      declaring environment, is bound by name there. */
  function DeclareFunction(st: Store, env: EnvId, name: string, params: seq<Param>, body: Expr, returnType: string): Step
  {
    match ParamsError(st, env, params, |params|)
    case Some(e) => Step(Failure(e), st)
    case None => BindFunction(st, env, name, params, body, returnType)
  }

  /** What follows the parameter checks: the return type may not be ANY or
      NULL, and the function, closed over the declaring environment, is
      bound by name there. */
  function BindFunction(st: Store, env: EnvId, name: string, params: seq<Param>, body: Expr, returnType: string): Step
  {
    if returnType == ANY || returnType == NULL then
      Step(Failure(InterpreterError("Invalid function return type: " + returnType)), st)
    else
      var f := FunctionV(name, params, body, returnType, Some(env));
      match DefineFunction(st, env, name, f)
      case Err(e) => Step(Failure(e), st)
      case Ok(st') => Step(Normal(f), st')
  }

  predicate IsCallable(f: Value)
  {
    f.FunctionV? || f.NativeFunctionV?
  }

  /** The argument check of a call: a native parameter typed ANY takes any
      value, every other parameter the kind it names, and an object given
      to a user function's OBJECT parameter with another tag is verified
      structurally against OBJECT in the caller's environment, which tags
      it OBJECT. The result is the value to bind. */
  function ArgumentCheck(st: Store, env: EnvId, f: Value, p: Param, v: Value): Result<Value, Error>
    requires IsCallable(f)
  {
    var mismatch := Err(InterpreterError("Invalid argument type: " + Kind(v) + " expected " + p.typeName));
    if f.NativeFunctionV? then
      (if p.typeName != ANY && p.typeName != Kind(v) then mismatch else Ok(v))
    else if p.typeName != Kind(v) then mismatch
    else if p.typeName == OBJECT && IsObject(v) && v.typeOf != OBJECT then VerifyObject(st, env, v, OBJECT)
    else Ok(v)
  }

  /** The argument check as written: the structural check is asked of the
      interpreter, which has no such method, so the host fails there. */
  function ArgumentErrorAsWritten(f: Value, p: Param, v: Value): Option<Error>
    requires IsCallable(f)
  {
    var mismatch := Some(InterpreterError("Invalid argument type: " + Kind(v) + " expected " + p.typeName));
    if f.NativeFunctionV? then
      (if p.typeName != ANY && p.typeName != Kind(v) then mismatch else None)
    else if p.typeName != Kind(v) then mismatch
    else if p.typeName == OBJECT && IsObject(v) && v.typeOf != OBJECT then
      Some(HostError("interpreter.verifyObject is not a function"))
    else None
  }

  /** How an argument is bound in the call's scope: a function as a
      function, a type as a type, anything else as a non-const variable. */
  function BindArgument(st: Store, child: EnvId, name: string, v: Value): Result<Store, Error>
  {
    if v.FunctionV? || v.NativeFunctionV? then DefineFunction(st, child, name, v)
    else if v.TypeV? then DefineType(st, child, name, v.def)
    else DefineVariable(st, child, name, v, false)
  }

  /** The check of a returned value against the declared return type: a
      VOID function returns nothing, a value that is no object must have the
      declared kind, and an object with another tag is verified structurally
      against the declared type in the caller's environment, which tags it
      with that type. The result is the call's value. */
  function ReturnCheck(st: Store, env: EnvId, returnType: string, v: Value): Result<Value, Error>
  {
    if returnType == VOID then Err(InterpreterError("Function of type VOID cannot return a value"))
    else if !IsObject(v) && returnType != Kind(v) then
      Err(InterpreterError("Invalid return type: " + Kind(v) + ", but expected " + returnType))
    else if IsObject(v) && v.typeOf != returnType then VerifyObject(st, env, v, returnType)
    else Ok(v)
  }

  /** The return check as written: the structural check is asked of the
      interpreter, which has no such method, so the host fails there. */
  function ReturnCheckAsWritten(returnType: string, v: Value): Result<Value, Error>
  {
    if returnType == VOID then Err(InterpreterError("Function of type VOID cannot return a value"))
    else if !IsObject(v) && returnType != Kind(v) then
      Err(InterpreterError("Invalid return type: " + Kind(v) + ", but expected " + returnType))
    else if IsObject(v) && v.typeOf != returnType then
      Err(HostError("interpreter.verifyObject is not a function"))
    else Ok(v)
  }

  /** The `catch` of a call, with the caller's store and environment for the
      return check: a body that completes yields VOID, a Return is checked,
      Break and Continue become errors, errors pass. */
  function Conclude(st: Store, env: EnvId, returnType: string, o: Outcome): Outcome
  {
    match o
    case Normal(_) => Normal(VoidV)
    case ReturnSig(v) => FromResult(ReturnCheck(st, env, returnType, v))
    case BreakSig => Failure(InterpreterError("Break statement outside of loop"))
    case ContinueSig => Failure(InterpreterError("Continue statement outside of loop"))
    case Failure(e) => Failure(e)
  }

  // ---------------------------------------------------------------- literals

  /** The text of `.value.toString()` for the value of a template part;
      an absent value gives the empty text. */
  function TextOf(h: Host, v: Value): string
  {
    match v
    case StringV(s) => s
    case NumberV(n) => h.numberText(n)
    case BoolV(b) => if b then "true" else "false"
    case ArrayV(elements, _) => ObjectsText(|elements|)
    case TupleV(members, _) => ObjectsText(|members|)
    case ObjectV(_, _) => "[object Map]"
    case TypeV(def) => if def.kind == TUPLE then "" else def.kind
    case WrapperV(payload, _) => TextOf(h, payload)
    case _ => ""
  }

  /** How a host array of n value objects prints. */
  function ObjectsText(n: nat): string
  {
    if n == 0 then "" else if n == 1 then "[object Object]" else ObjectsText(n - 1) + ",[object Object]"
  }

  /** The texts of the values, concatenated in order. */
  function TemplateText(h: Host, values: seq<Value>): string
  {
    if values == [] then "" else TemplateText(h, values[..|values| - 1]) + TextOf(h, values[|values| - 1])
  }

  /** Every value has the first value's kind. */
  predicate SameKind(values: seq<Value>)
  {
    forall i :: 0 <= i < |values| ==> Kind(values[i]) == Kind(values[0])
  }

  /** `ArrayLiteralExpr.evaluate` on the evaluated elements, as written: an
      empty literal reads the kind of an element that does not exist. */
  function ArrayLiteralValueAsWritten(values: seq<Value>): Result<Value, Error>
  {
    if !SameKind(values) then Err(InterpreterError("All values in array must be of same type"))
    else if values == [] then Err(HostError("Cannot read properties of undefined (reading 'type')"))
    else Ok(ArrayV(values, Kind(values[0])))
  }

  /** The same, with the ANY fallback the source provides applied to the
      empty literal. */
  function ArrayLiteralValue(values: seq<Value>): Result<Value, Error>
  {
    if !SameKind(values) then Err(InterpreterError("All values in array must be of same type"))
    else if values == [] then Ok(ArrayV([], ANY))
    else Ok(ArrayV(values, Kind(values[0])))
  }

  /** The kinds of the values, position by position. */
  function KindsOf(values: seq<Value>): (ks: seq<string>)
    ensures |ks| == |values|
  {
    if values == [] then [] else KindsOf(values[..|values| - 1]) + [Kind(values[|values| - 1])]
  }

  /** `TupleLiteralExpr.evaluate` on the evaluated members. */
  function TupleLiteralValue(values: seq<Value>): Result<Value, Error>
  {
    if |values| < 2 then Err(InterpreterError("Tuple must have at least 2 values"))
    else Ok(TupleV(values, KindsOf(values)))
  }

  function FieldExprs(fields: seq<(string, Expr)>): (es: seq<Expr>)
    ensures |es| == |fields|
  {
    if fields == [] then [] else [fields[0].1] + FieldExprs(fields[1..])
  }

  /** The map one `set` per pair builds, in order. */
  function BuildRecord(keys: seq<string>, values: seq<Value>): Record<Value>
    requires |keys| == |values|
  {
    if keys == [] then []
    else Put(BuildRecord(keys[..|keys| - 1], values[..|values| - 1]), keys[|keys| - 1], values[|values| - 1])
  }

  /** The values whose host object has no `value`: VOID, NULL, the
      functions, and a tuple type, whose value is the undefined
      `ValueType.TUPLE`. */
  predicate HoldsNoValue(v: Value)
  {
    v.VoidV? || v.NullV? || IsCallable(v) || (v.TypeV? && v.def.kind == TUPLE)
  }

  /** `ObjectAccessExpr.evaluate` on the evaluated object. Only an object
      value holds a field map; a value that holds no `value` and every
      other value, whose `value` has no `has`, both fail in the host. */
  function PropertyOf(obj: Value, property: string): Result<Value, Error>
  {
    if HoldsNoValue(obj) then Err(HostError("Cannot read properties of undefined (reading 'has')"))
    else if !obj.ObjectV? then Err(HostError("object.value.has is not a function"))
    else match Lookup(obj.fields, property)
      case None => Err(InterpreterError("Invalid property access: " + property))
      case Some(v) => Ok(v)
  }

  /** The elements of an array or the members of a tuple. */
  function ElementsOf(v: Value): seq<Value>
  {
    if v.ArrayV? then v.elements else if v.TupleV? then v.members else []
  }

  /** A number that names a position of a host array of length n. */
  predicate IsIndex(x: real, n: nat)
  {
    x.Floor as real == x && 0 <= x.Floor < n
  }

  /** `ArrayAccessExpr.evaluate` once the variable is found and the index
      evaluated. */
  function ElementAt(b: Binding, index: Value): Result<Value, Error>
  {
    if !index.NumberV? then Err(InterpreterError("Array index must be a number"))
    else if b.typeName != ARRAY && b.typeName != TUPLE then Err(InterpreterError("Variable is not an array"))
    else if !IsIndex(index.number, |ElementsOf(b.value)|) then Err(InterpreterError("Array index out of bounds"))
    else Ok(ElementsOf(b.value)[index.number.Floor])
  }

  // ---------------------------------------------------------------- types

  /** The member map of an object type: each member in order is checked,
      recorded (a repeated name keeps its place and takes the later type),
      and its type looked up. */
  function ObjectTypeMembers(st: Store, env: EnvId, props: seq<(string, string)>): Result<Record<string>, Error>
  {
    if props == [] then Ok([])
    else
      match ObjectTypeMembers(st, env, props[..|props| - 1])
      case Err(e) => Err(e)
      case Ok(m) =>
        var k := props[|props| - 1].0;
        var t := props[|props| - 1].1;
        if t == ANY || t == NULL || t == VOID then Err(InterpreterError("Invalid property type: " + t))
        else
          match GetType(st, env, t)
          case Err(e) => Err(e)
          case Ok(_) => Ok(Put(m, k, t))
  }

  /** `TypeDeclarationStmt.evaluate`. */
  function DeclareObjectType(st: Store, env: EnvId, name: string, props: seq<(string, string)>): Step
  {
    match ObjectTypeMembers(st, env, props)
    case Err(e) => Step(Failure(e), st)
    case Ok(m) =>
      match DefineType(st, env, name, TypeDef(TYPE, Some(m)))
      case Err(e) => Step(Failure(e), st)
      case Ok(st') => Step(Normal(VoidV), st')
  }

  /** The member map of a tuple type: key i holds the i-th member type. */
  function TupleTypeMembers(types: seq<string>): (m: Record<string>)
    ensures |m| == |types|
  {
    if types == [] then []
    else TupleTypeMembers(types[..|types| - 1]) + [(NatText(|types| - 1), types[|types| - 1])]
  }

  /** `TupleTypeDeclarationStmt.evaluate`. */
  function DeclareTupleType(st: Store, env: EnvId, name: string, types: seq<string>): Step
  {
    match DefineType(st, env, name, TypeDef(TUPLE, Some(TupleTypeMembers(types))))
    case Err(e) => Step(Failure(e), st)
    case Ok(st') => Step(Normal(VoidV), st')
  }

  /** `ArrayTypeDeclarationStmt.evaluate`. */
  function DeclareArrayType(st: Store, env: EnvId, name: string, elementType: string): Step
  {
    match DefineType(st, env, name, TypeDef(ARRAY, Some([("$type", elementType)])))
    case Err(e) => Step(Failure(e), st)
    case Ok(st') => Step(Normal(VoidV), st')
  }

  // ---------------------------------------------------------------- loops

  /** `Number(v.value) || undefined`: the failsafe counter a loop starts
      with, None for no cap. */
  function FailsafeCap(h: Host, v: Value): Option<real>
  {
    match v
    case NumberV(n) => if n == 0.0 then None else Some(n)
    case BoolV(b) => if b then Some(1.0) else None
    case StringV(s) =>
      (match h.stringToNumber(s)
       case None => None
       case Some(n) => if n == 0.0 then None else Some(n))
    case _ => None
  }

  /** `failsafe-- < 0`: the test after a completed body. */
  predicate Exhausted(cap: Option<real>)
  {
    cap.Some? && cap.value < 0.0
  }

  function Countdown(cap: Option<real>): Option<real>
  {
    if cap.Some? then Some(cap.value - 1.0) else None
  }
}
