// Structural verification of composite values against registered types, as
// object, array and tuple values are checked against the type a variable
// declares. A successful check returns the value with the type tags it
// stamps on the objects it verified.
module TypeChecks {
  import opened Wrappers
  import opened Strings
  import opened Values
  import opened EnvironmentSpec

  /** The values the verifiers descend into. */
  predicate IsComposite(v: Value)
  {
    v.TupleV? || v.ArrayV? || IsObject(v)
  }

  /** The keys of ks that others lacks, in the order of ks. */
  function Missing(ks: seq<string>, others: seq<string>): seq<string>
  {
    if ks == [] then [] else (if ks[0] in others then [] else [ks[0]]) + Missing(ks[1..], others)
  }

  /** How an absent entry of a member map prints. */
  function NameOr(t: Option<string>): string
  {
    if t.Some? then t.value else "undefined"
  }

  /** The check a composite member gets: by its own verifier. */
  function VerifyNested(st: Store, env: EnvId, v: Value, typeName: string): (r: Result<Value, Error>)
    requires IsComposite(v)
    ensures r.Ok? ==> Kind(r.value) == Kind(v) && IsComposite(r.value)
    decreases v, 3, 0
  {
    if v.TupleV? then VerifyTuple(st, env, v, typeName)
    else if v.ArrayV? then VerifyArray(st, env, v, typeName)
    else VerifyObject(st, env, v, typeName)
  }

  /** `ObjectValue.verifyObject`: the type is resolved, missing declared
      keys are rejected, then undeclared keys, then every field is checked
      against its declared type; the object is then tagged with the type
      name. */
  function VerifyObject(st: Store, env: EnvId, obj: Value, typeName: string): (r: Result<Value, Error>)
    requires IsObject(obj)
    ensures r.Ok? ==> obj.ObjectV? && r.value.ObjectV? && r.value.typeOf == typeName && |r.value.fields| == |obj.fields|
    decreases obj, 2, 0
  {
    match GetType(st, env, typeName)
    case Err(e) => Err(e)
    case Ok(t) =>
      if obj.WrapperV? then Err(HostError("Object field map is not a Map"))
      else if t.definition.None? then Err(HostError("Cannot convert undefined or null to object"))
      else
        var def := t.definition.value;
        var missing := Missing(Keys(def), Keys(obj.fields));
        var extra := Missing(Keys(obj.fields), Keys(def));
        if |missing| > 0 then
          Err(InterpreterError("Object is missing keys: " + Join(missing, ", ") + " from type " + typeName))
        else if |extra| > 0 then
          Err(InterpreterError("Object has extra keys: " + Join(extra, ", ") + " from type " + typeName))
        else
          match VerifyFields(st, env, obj, def, 0)
          case Err(e) => Err(e)
          case Ok(fields) => Ok(ObjectV(fields, typeName))
  }

  /** The fields from position i on, in the map's order. */
  function VerifyFields(st: Store, env: EnvId, obj: Value, def: Record<string>, i: nat): (r: Result<Record<Value>, Error>)
    requires obj.ObjectV? && i <= |obj.fields|
    ensures r.Ok? ==> |r.value| == |obj.fields| - i
    decreases obj, 1, |obj.fields| - i
  {
    if i == |obj.fields| then Ok([])
    else
      var key := obj.fields[i].0;
      var v := obj.fields[i].1;
      var fieldType := NameOr(Lookup(def, key));
      var checked :=
        if IsComposite(v) then VerifyNested(st, env, v, fieldType)
        else if Kind(v) != fieldType then
          Err(InterpreterError("Invalid object property type: " + Kind(v) + " expected " + fieldType))
        else Ok(v);
      match checked
      case Err(e) => Err(e)
      case Ok(v') =>
        match VerifyFields(st, env, obj, def, i + 1)
        case Err(e) => Err(e)
        case Ok(rest) => Ok([(key, v')] + rest)
  }

  /** `ArrayValue.verifyArray`: the type is resolved, an empty array passes,
      and every element is checked against the declared element type. */
  function VerifyArray(st: Store, env: EnvId, arr: Value, typeName: string): (r: Result<Value, Error>)
    requires arr.ArrayV?
    ensures r.Ok? ==> r.value.ArrayV? && r.value.typeOf == arr.typeOf && |r.value.elements| == |arr.elements|
    decreases arr, 2, 0
  {
    match GetType(st, env, typeName)
    case Err(e) => Err(e)
    case Ok(t) =>
      if |arr.elements| == 0 then Ok(arr)
      else
        match VerifyElements(st, env, arr, typeName, t.definition, 0)
        case Err(e) => Err(e)
        case Ok(elements) => Ok(ArrayV(elements, arr.typeOf))
  }

  /** The elements from position i on. */
  function VerifyElements(st: Store, env: EnvId, arr: Value, typeName: string, def: Option<Record<string>>, i: nat)
    : (r: Result<seq<Value>, Error>)
    requires arr.ArrayV? && i <= |arr.elements|
    ensures r.Ok? ==> |r.value| == |arr.elements| - i
    decreases arr, 1, |arr.elements| - i
  {
    if i == |arr.elements| then Ok([])
    else
      var e := arr.elements[i];
      var checked :=
        if def.None? then Err(HostError("Cannot read properties of undefined (reading '$type')"))
        else if IsComposite(e) then VerifyNested(st, env, e, NameOr(Lookup(def.value, "$type")))
        else if Lookup(def.value, "$type") != Some(Kind(e)) then
          Err(InterpreterError("Invalid array element type: " + Kind(e) + " expected " + typeName))
        else Ok(e);
      match checked
      case Err(err) => Err(err)
      case Ok(e') =>
        match VerifyElements(st, env, arr, typeName, def, i + 1)
        case Err(err) => Err(err)
        case Ok(rest) => Ok([e'] + rest)
  }

  /** `TupleValue.verifyTuple`: the type is resolved, the length must be the
      number of declared members, and member i is checked against the
      declared member i. */
  function VerifyTuple(st: Store, env: EnvId, tup: Value, typeName: string): (r: Result<Value, Error>)
    requires tup.TupleV?
    ensures r.Ok? ==> r.value.TupleV? && r.value.memberTypes == tup.memberTypes && |r.value.members| == |tup.members|
    decreases tup, 2, 0
  {
    match GetType(st, env, typeName)
    case Err(e) => Err(e)
    case Ok(t) =>
      if t.definition.None? then Err(HostError("Cannot convert undefined or null to object"))
      else if |tup.members| != |t.definition.value| then
        Err(InterpreterError("Invalid tuple length: " + NatText(|tup.members|) + " expected " + NatText(|t.definition.value|)))
      else
        match VerifyMembers(st, env, tup, t.definition.value, 0)
        case Err(e) => Err(e)
        case Ok(members) => Ok(TupleV(members, tup.memberTypes))
  }

  /** The members from position i on; member i is declared under the key
      that is the decimal text of i. */
  function VerifyMembers(st: Store, env: EnvId, tup: Value, def: Record<string>, i: nat): (r: Result<seq<Value>, Error>)
    requires tup.TupleV? && i <= |tup.members|
    ensures r.Ok? ==> |r.value| == |tup.members| - i
    decreases tup, 1, |tup.members| - i
  {
    if i == |tup.members| then Ok([])
    else
      var m := tup.members[i];
      var declared := Lookup(def, NatText(i));
      var checked :=
        if IsComposite(m) then VerifyNested(st, env, m, NameOr(declared))
        else if declared != Some(Kind(m)) then
          Err(InterpreterError("Invalid tuple element type: " + Kind(m) + " expected " + NameOr(declared)))
        else Ok(m);
      match checked
      case Err(e) => Err(e)
      case Ok(m') =>
        match VerifyMembers(st, env, tup, def, i + 1)
        case Err(e) => Err(e)
        case Ok(rest) => Ok([m'] + rest)
  }

  /** `VariableDeclarationExpr.verifyType`: the type name must be defined;
      an object is verified (and so tagged), an array is verified and
      tagged with the type name, a tuple is verified and not tagged, and
      any other value must have the expected kind. */
  function VerifyType(st: Store, env: EnvId, value: Value, typeName: string, expected: string): Result<Value, Error>
  {
    if !IsDefinedIn(st, env, typeName, TypeSpace) then
      Err(InterpreterError("Type " + typeName + " is not defined!"))
    else if IsObject(value) then
      VerifyObject(st, env, value, typeName)
    else if value.ArrayV? then
      match VerifyArray(st, env, value, typeName)
      case Err(e) => Err(e)
      case Ok(a) => Ok(ArrayV(a.elements, typeName))
    else if value.TupleV? then
      VerifyTuple(st, env, value, typeName)
    else if Kind(value) != expected then
      Err(InterpreterError("Invalid variable type: " + Kind(value) + " expected " + expected))
    else
      Ok(value)
  }
}
