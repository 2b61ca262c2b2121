// Properties of the node rules: the checks a function declaration makes,
// the argument and return checks of a call, what the literals build, what
// the accessors find, the member maps of type declarations, and how the
// failsafe counter runs out.
module NodeProps {
  import opened Wrappers
  import opened Strings
  import opened Ast
  import opened Values
  import opened EnvironmentSpec
  import opened EnvironmentProps
  import opened Nodes
  import opened TypeChecks
  import TypeCheckProps

  // ---------------------------------------------------------------- parameters

  lemma {:induction false} OccurrencesOfMember(params: seq<Param>, j: nat)
    requires j < |params|
    ensures Occurrences(params, params[j].name) >= 1
    decreases j
  {
    if j > 0 {
      OccurrencesOfMember(params[1..], j - 1);
    }
  }

  /** A name carried by two parameters occurs more than once. */
  lemma {:induction false} OccurrencesOfRepeated(params: seq<Param>, i: nat, j: nat)
    requires i < j < |params| && params[i].name == params[j].name
    ensures Occurrences(params, params[i].name) >= 2
    decreases i
  {
    if i == 0 {
      OccurrencesOfMember(params[1..], j - 1);
    } else {
      OccurrencesOfRepeated(params[1..], i - 1, j - 1);
    }
  }

  /** A name carried by one parameter only occurs once. */
  lemma {:induction false} OccurrencesOfUnique(params: seq<Param>, i: nat)
    requires i < |params|
    requires forall j :: 0 <= j < |params| && j != i ==> params[j].name != params[i].name
    ensures Occurrences(params, params[i].name) == 1
    decreases |params|
  {
    var n := params[i].name;
    if i == 0 {
      OccurrencesAbsent(params[1..], n);
    } else {
      OccurrencesOfUnique(params[1..], i - 1);
    }
  }

  lemma {:induction false} OccurrencesAbsent(params: seq<Param>, name: string)
    requires forall j :: 0 <= j < |params| ==> params[j].name != name
    ensures Occurrences(params, name) == 0
    decreases |params|
  {
    if params != [] {
      OccurrencesAbsent(params[1..], name);
    }
  }

  /** Parameter i passes its check exactly when no other parameter has its
      name, its type is not VOID, ANY or NULL, and its type is defined. */
  lemma ParamErrorRule(st: Store, env: EnvId, params: seq<Param>, i: nat)
    requires i < |params|
    ensures ParamError(st, env, params, i).None? <==>
      ((forall j :: 0 <= j < |params| && j != i ==> params[j].name != params[i].name)
       && params[i].typeName != VOID && params[i].typeName != ANY && params[i].typeName != NULL
       && GetType(st, env, params[i].typeName).Ok?)
  {
    if forall j :: 0 <= j < |params| && j != i ==> params[j].name != params[i].name {
      OccurrencesOfUnique(params, i);
    } else {
      var j :| 0 <= j < |params| && j != i && params[j].name == params[i].name;
      if i < j {
        OccurrencesOfRepeated(params, i, j);
      } else {
        OccurrencesOfRepeated(params, j, i);
      }
    }
  }

  /** The parameter checks pass exactly when each one does. */
  lemma {:induction false} ParamsErrorNone(st: Store, env: EnvId, params: seq<Param>, n: nat)
    requires n <= |params|
    ensures ParamsError(st, env, params, n).None? <==> (forall i :: 0 <= i < n ==> ParamError(st, env, params, i).None?)
  {
    if n > 0 {
      ParamsErrorNone(st, env, params, n - 1);
    }
  }

  /** The error reported is that of the first parameter that fails. */
  lemma {:induction false} ParamsErrorFirst(st: Store, env: EnvId, params: seq<Param>, n: nat, j: nat)
    requires j < n <= |params| && ParamError(st, env, params, j).Some?
    requires forall k :: 0 <= k < j ==> ParamError(st, env, params, k).None?
    ensures ParamsError(st, env, params, n) == ParamError(st, env, params, j)
  {
    if n - 1 == j {
      ParamsErrorNone(st, env, params, j);
    } else {
      ParamsErrorFirst(st, env, params, n - 1, j);
    }
  }

  /** A function declaration succeeds exactly when every parameter passes
      its check, the return type is not ANY or NULL and the name is free
      here; it then yields the function closed over this environment, which
      `getFunction` finds. A failed one leaves the store as it was. */
  lemma DeclareFunctionRule(st: Store, env: EnvId, name: string, params: seq<Param>, body: Expr, returnType: string)
    requires env < |st|
    ensures var r := DeclareFunction(st, env, name, params, body, returnType);
      r.outcome.Normal? <==>
        ((forall i :: 0 <= i < |params| ==> ParamError(st, env, params, i).None?)
         && returnType != ANY && returnType != NULL && name !in st[env].names && name !in PrimitiveTypes)
    ensures var r := DeclareFunction(st, env, name, params, body, returnType);
      r.outcome.Normal? ==>
        r.outcome.value == FunctionV(name, params, body, returnType, Some(env))
        && GetFunction(r.store, env, name) == Ok(FunctionV(name, params, body, returnType, Some(env)))
    ensures var r := DeclareFunction(st, env, name, params, body, returnType);
      !r.outcome.Normal? ==> r.store == st && r.outcome.Failure?
  {
    ParamsErrorNone(st, env, params, |params|);
    DefineFunctionRule(st, env, name, FunctionV(name, params, body, returnType, Some(env)));
  }

  /** Two parameters of one name make the declaration fail. */
  lemma DuplicateParameterRejected(st: Store, env: EnvId, name: string, params: seq<Param>, body: Expr,
                                   returnType: string, i: nat, j: nat)
    requires env < |st| && i < j < |params| && params[i].name == params[j].name
    ensures DeclareFunction(st, env, name, params, body, returnType).outcome.Failure?
    ensures DeclareFunction(st, env, name, params, body, returnType).store == st
  {
    ParamErrorRule(st, env, params, i);
    DeclareFunctionRule(st, env, name, params, body, returnType);
  }

  // ---------------------------------------------------------------- calls

  /** A native parameter typed ANY takes anything and any other parameter
      takes exactly the kind it names; a user function's OBJECT parameter
      takes an object with another tag exactly when it verifies against
      OBJECT. What is bound has the argument's kind, and an object bound to
      a user function's OBJECT parameter is tagged OBJECT. */
  lemma ArgumentRule(st: Store, env: EnvId, f: Value, p: Param, v: Value)
    requires IsCallable(f)
    ensures f.NativeFunctionV? ==>
      (ArgumentCheck(st, env, f, p, v).Ok? <==> (p.typeName == ANY || p.typeName == Kind(v)))
      && (ArgumentCheck(st, env, f, p, v).Ok? ==> ArgumentCheck(st, env, f, p, v).value == v)
    ensures f.FunctionV? ==>
      (ArgumentCheck(st, env, f, p, v).Ok? <==>
        (p.typeName == Kind(v) && (IsObject(v) && v.typeOf != OBJECT ==> VerifyObject(st, env, v, OBJECT).Ok?)))
    ensures ArgumentCheck(st, env, f, p, v).Ok? ==> Kind(ArgumentCheck(st, env, f, p, v).value) == Kind(v)
    ensures f.FunctionV? && IsObject(v) && ArgumentCheck(st, env, f, p, v).Ok? ==>
      ArgumentCheck(st, env, f, p, v).value.typeOf == OBJECT
    ensures p.typeName != Kind(v) && (f.FunctionV? || p.typeName != ANY) ==>
      ArgumentCheck(st, env, f, p, v) == Err(InterpreterError("Invalid argument type: " + Kind(v) + " expected " + p.typeName))
  {
    ObjectKind(v);
  }

  /** As written, an object with another tag given to a user function's
      OBJECT parameter reaches the missing interpreter method and fails in
      the host, whether or not it fits; the structural check decides it. */
  lemma ArgumentAsWrittenFails(st: Store, env: EnvId, f: Value, p: Param, v: Value)
    requires f.FunctionV? && p.typeName == OBJECT && IsObject(v) && v.typeOf != OBJECT
    ensures ArgumentErrorAsWritten(f, p, v) == Some(HostError("interpreter.verifyObject is not a function"))
    ensures ArgumentCheck(st, env, f, p, v) == VerifyObject(st, env, v, OBJECT)
  {
    ObjectKind(v);
  }

  /** Where no object with another tag reaches a user function's OBJECT
      parameter, the check as written and the structural one agree. */
  lemma ArgumentVersionsAgree(st: Store, env: EnvId, f: Value, p: Param, v: Value)
    requires IsCallable(f)
    requires !(f.FunctionV? && p.typeName == OBJECT && IsObject(v) && v.typeOf != OBJECT)
    ensures ArgumentErrorAsWritten(f, p, v)
      == (if ArgumentCheck(st, env, f, p, v).Err? then Some(ArgumentCheck(st, env, f, p, v).error) else None)
    ensures ArgumentCheck(st, env, f, p, v).Ok? ==> ArgumentCheck(st, env, f, p, v).value == v
  {
  }

  /** A returned value is accepted exactly when the function is not VOID and
      the value has the declared kind, or is an object that carries the
      declared tag or verifies against the declared type. The call's value
      has the returned value's kind, an object comes back tagged with the
      declared type, and anything else comes back unchanged. */
  lemma ReturnCheckRule(st: Store, env: EnvId, returnType: string, v: Value)
    ensures ReturnCheck(st, env, returnType, v).Ok? <==>
      (returnType != VOID
       && (if IsObject(v) then v.typeOf == returnType || VerifyObject(st, env, v, returnType).Ok?
           else Kind(v) == returnType))
    ensures ReturnCheck(st, env, returnType, v).Ok? ==>
      Kind(ReturnCheck(st, env, returnType, v).value) == Kind(v)
      && (IsObject(v) ==> ReturnCheck(st, env, returnType, v).value.typeOf == returnType)
      && (!IsObject(v) ==> ReturnCheck(st, env, returnType, v).value == v)
  {
    ObjectKind(v);
  }

  /** An object returned under another tag has, once accepted, exactly the
      keys of the declared type. */
  lemma ReturnedObjectHasDeclaredKeys(st: Store, env: EnvId, returnType: string, v: Value, k: string)
    requires IsObject(v) && v.typeOf != returnType && ReturnCheck(st, env, returnType, v).Ok?
    ensures v.ObjectV? && GetType(st, env, returnType).Ok? && GetType(st, env, returnType).value.definition.Some?
    ensures k in Keys(v.fields) <==> k in Keys(GetType(st, env, returnType).value.definition.value)
  {
    TypeCheckProps.ObjectKeysExact(st, env, v, returnType, k);
  }

  /** As written, an object returned under another tag than the declared
      type reaches the missing interpreter method and fails in the host,
      whether or not it fits the type; the structural check decides it. */
  lemma ReturnCheckAsWrittenFails(st: Store, env: EnvId, returnType: string, v: Value)
    requires returnType != VOID && IsObject(v) && v.typeOf != returnType
    ensures ReturnCheckAsWritten(returnType, v) == Err(HostError("interpreter.verifyObject is not a function"))
    ensures ReturnCheck(st, env, returnType, v) == VerifyObject(st, env, v, returnType)
  {
  }

  /** Elsewhere the return check as written and the structural one agree. */
  lemma ReturnCheckVersionsAgree(st: Store, env: EnvId, returnType: string, v: Value)
    requires !(IsObject(v) && v.typeOf != returnType)
    ensures ReturnCheckAsWritten(returnType, v) == ReturnCheck(st, env, returnType, v)
  {
  }

  /** No statement signal leaves a call: a body that completes yields VOID,
      a Return yields its checked value, Break and Continue are errors. */
  lemma ConcludeRule(st: Store, env: EnvId, returnType: string, o: Outcome)
    ensures Conclude(st, env, returnType, o).Normal? || Conclude(st, env, returnType, o).Failure?
    ensures o.Normal? ==> Conclude(st, env, returnType, o) == Normal(VoidV)
    ensures o.ReturnSig? ==> Conclude(st, env, returnType, o) == FromResult(ReturnCheck(st, env, returnType, o.value))
    ensures o.ReturnSig? && returnType == VOID ==>
      Conclude(st, env, returnType, o) == Failure(InterpreterError("Function of type VOID cannot return a value"))
    ensures o.BreakSig? ==> Conclude(st, env, returnType, o) == Failure(InterpreterError("Break statement outside of loop"))
    ensures o.ContinueSig? ==> Conclude(st, env, returnType, o) == Failure(InterpreterError("Continue statement outside of loop"))
    ensures o.Failure? ==> Conclude(st, env, returnType, o) == o
  {
  }

  // ---------------------------------------------------------------- templates

  /** The text of a template is the texts of its parts, in order. */
  lemma {:induction false} TemplateTextAppend(h: Host, a: seq<Value>, b: seq<Value>)
    ensures TemplateText(h, a + b) == TemplateText(h, a) + TemplateText(h, b)
    decreases |b|
  {
    if b == [] {
      assert a + b == a;
    } else {
      var b' := b[..|b| - 1];
      assert (a + b)[..|a + b| - 1] == a + b';
      assert (a + b)[|a + b| - 1] == b[|b| - 1];
      TemplateTextAppend(h, a, b');
    }
  }

  /** NULL and VOID parts print as nothing; a string part prints as its
      text. */
  lemma TemplatePartTexts(h: Host, values: seq<Value>, s: string)
    ensures TemplateText(h, values + [NullV]) == TemplateText(h, values)
    ensures TemplateText(h, values + [VoidV]) == TemplateText(h, values)
    ensures TemplateText(h, values + [StringV(s)]) == TemplateText(h, values) + s
  {
    assert (values + [NullV])[..|values|] == values;
    assert (values + [VoidV])[..|values|] == values;
    assert (values + [StringV(s)])[..|values|] == values;
  }

  // ---------------------------------------------------------------- arrays and tuples

  /** An array literal is accepted exactly when its elements share one kind,
      which becomes the array's element type (ANY for no elements); the
      elements are kept as they are. */
  lemma ArrayLiteralRule(values: seq<Value>)
    ensures ArrayLiteralValue(values).Ok? <==> SameKind(values)
    ensures ArrayLiteralValue(values).Ok? ==>
      ArrayLiteralValue(values).value.elements == values
      && (forall i :: 0 <= i < |values| ==> Kind(values[i]) == ArrayLiteralValue(values).value.typeOf)
      && (values == [] ==> ArrayLiteralValue(values).value.typeOf == ANY)
  {
  }

  /** Two elements of different kinds make the literal fail. */
  lemma ArrayLiteralMixedRejected(values: seq<Value>, i: nat, j: nat)
    requires i < |values| && j < |values| && Kind(values[i]) != Kind(values[j])
    ensures ArrayLiteralValue(values) == Err(InterpreterError("All values in array must be of same type"))
    ensures ArrayLiteralValueAsWritten(values) == Err(InterpreterError("All values in array must be of same type"))
  {
  }

  /** As written, the empty literal reads the kind of a missing element and
      fails in the host, where the fallback to ANY is evidently meant; on any
      other literal the two agree. */
  lemma EmptyArrayLiteralAsWrittenFails()
    ensures ArrayLiteralValueAsWritten([]) == Err(HostError("Cannot read properties of undefined (reading 'type')"))
    ensures ArrayLiteralValue([]) == Ok(ArrayV([], ANY))
  {
  }

  lemma ArrayLiteralVersionsAgree(values: seq<Value>)
    requires values != []
    ensures ArrayLiteralValueAsWritten(values) == ArrayLiteralValue(values)
  {
  }

  lemma {:induction false} KindsOfAt(values: seq<Value>, i: nat)
    requires i < |values|
    ensures KindsOf(values)[i] == Kind(values[i])
    decreases |values|
  {
    if i < |values| - 1 {
      KindsOfAt(values[..|values| - 1], i);
    }
  }

  /** A tuple literal needs two members or more; its member types are the
      members' kinds, position by position. */
  lemma TupleLiteralRule(values: seq<Value>)
    ensures TupleLiteralValue(values).Ok? <==> |values| >= 2
    ensures TupleLiteralValue(values).Ok? ==>
      TupleLiteralValue(values).value.members == values
      && |TupleLiteralValue(values).value.memberTypes| == |values|
      && (forall i :: 0 <= i < |values| ==> TupleLiteralValue(values).value.memberTypes[i] == Kind(values[i]))
  {
    forall i | 0 <= i < |values| {
      KindsOfAt(values, i);
    }
  }

  // ---------------------------------------------------------------- objects

  /** The record of an object literal holds each key once, with the value
      of its last occurrence; no other key. */
  lemma {:induction false} BuildRecordLookup(keys: seq<string>, values: seq<Value>, k: string, j: nat)
    requires |keys| == |values| && j < |keys| && keys[j] == k
    requires forall m :: j < m < |keys| ==> keys[m] != k
    ensures Lookup(BuildRecord(keys, values), k) == Some(values[j])
    decreases |keys|
  {
    var n := |keys| - 1;
    LookupPut(BuildRecord(keys[..n], values[..n]), keys[n], values[n], k);
    if j < n {
      BuildRecordLookup(keys[..n], values[..n], k, j);
    }
  }

  lemma {:induction false} BuildRecordAbsent(keys: seq<string>, values: seq<Value>, k: string)
    requires |keys| == |values| && k !in keys
    ensures Lookup(BuildRecord(keys, values), k).None?
    ensures k !in Keys(BuildRecord(keys, values))
    decreases |keys|
  {
    if keys != [] {
      var n := |keys| - 1;
      assert k !in keys[..n] by {
        assert forall m :: 0 <= m < n ==> keys[..n][m] == keys[m];
      }
      BuildRecordAbsent(keys[..n], values[..n], k);
      LookupPut(BuildRecord(keys[..n], values[..n]), keys[n], values[n], k);
      LookupKeys(BuildRecord(keys, values), k);
    }
  }

  /** Reading a property: an object yields the value under the key or the
      invalid-access error; anything else fails in the host, with the
      message of a missing `value` (VOID, NULL, a function, a tuple type)
      or of a missing `has`. */
  lemma PropertyRule(obj: Value, property: string)
    ensures HoldsNoValue(obj) ==>
      PropertyOf(obj, property) == Err(HostError("Cannot read properties of undefined (reading 'has')"))
    ensures obj.TypeV? && obj.def.kind == TUPLE ==>
      PropertyOf(obj, property) == Err(HostError("Cannot read properties of undefined (reading 'has')"))
    ensures !obj.ObjectV? && !HoldsNoValue(obj) ==>
      PropertyOf(obj, property) == Err(HostError("object.value.has is not a function"))
    ensures obj.ObjectV? ==> (PropertyOf(obj, property).Ok? <==> property in Keys(obj.fields))
    ensures obj.ObjectV? && property !in Keys(obj.fields) ==>
      PropertyOf(obj, property) == Err(InterpreterError("Invalid property access: " + property))
  {
    if obj.ObjectV? {
      PropertyOfObject(obj, property);
    } else {
      PropertyOfOther(obj, property);
    }
  }

  /** The host half of `PropertyRule`. */
  lemma PropertyOfOther(obj: Value, property: string)
    requires !obj.ObjectV?
    ensures HoldsNoValue(obj) ==>
      PropertyOf(obj, property) == Err(HostError("Cannot read properties of undefined (reading 'has')"))
    ensures !HoldsNoValue(obj) ==>
      PropertyOf(obj, property) == Err(HostError("object.value.has is not a function"))
  {
  }

  /** The object half of `PropertyRule`. */
  lemma PropertyOfObject(obj: Value, property: string)
    requires obj.ObjectV?
    ensures PropertyOf(obj, property).Ok? <==> property in Keys(obj.fields)
    ensures property !in Keys(obj.fields) ==>
      PropertyOf(obj, property) == Err(InterpreterError("Invalid property access: " + property))
  {
    LookupKeys(obj.fields, property);
  }

  /** An object literal and a property read are inverse: the read yields
      the value last written under the key. */
  lemma LiteralThenProperty(keys: seq<string>, values: seq<Value>, j: nat)
    requires |keys| == |values| && j < |keys|
    requires forall m :: j < m < |keys| ==> keys[m] != keys[j]
    ensures PropertyOf(ObjectV(BuildRecord(keys, values), OBJECT), keys[j]) == Ok(values[j])
  {
    BuildRecordLookup(keys, values, keys[j], j);
  }

  // ---------------------------------------------------------------- indexing

  /** An element read succeeds exactly on a NUMBER index that is a whole
      position of a variable recorded as ARRAY or TUPLE, and yields the
      element there. */
  lemma ElementAtRule(b: Binding, index: Value)
    ensures ElementAt(b, index).Ok? <==>
      (index.NumberV? && (b.typeName == ARRAY || b.typeName == TUPLE) && IsIndex(index.number, |ElementsOf(b.value)|))
    ensures ElementAt(b, index).Ok? ==> ElementAt(b, index).value == ElementsOf(b.value)[index.number.Floor]
    ensures !index.NumberV? ==> ElementAt(b, index) == Err(InterpreterError("Array index must be a number"))
  {
  }

  /** Every position of an array can be read, and yields its element. */
  lemma ElementAtPosition(b: Binding, i: nat)
    requires b.typeName == ARRAY || b.typeName == TUPLE
    requires i < |ElementsOf(b.value)|
    ensures ElementAt(b, NumberV(i as real)) == Ok(ElementsOf(b.value)[i])
  {
    assert (i as real).Floor == i;
  }

  /** A fraction or a negative number is no position. */
  lemma ElementAtFraction(b: Binding, x: real)
    requires b.typeName == ARRAY || b.typeName == TUPLE
    requires x.Floor as real != x || x < 0.0
    ensures ElementAt(b, NumberV(x)) == Err(InterpreterError("Array index out of bounds"))
  {
  }

  // ---------------------------------------------------------------- type declarations

  /** A member type an object type may use. */
  predicate MemberTypeAllowed(st: Store, env: EnvId, t: string)
  {
    t != ANY && t != NULL && t != VOID && GetType(st, env, t).Ok?
  }

  /** An object type's members are accepted exactly when each member type
      is allowed. */
  lemma {:induction false} ObjectTypeMembersOk(st: Store, env: EnvId, props: seq<(string, string)>)
    ensures ObjectTypeMembers(st, env, props).Ok? <==>
      (forall i :: 0 <= i < |props| ==> MemberTypeAllowed(st, env, props[i].1))
    decreases |props|
  {
    if props != [] {
      var n := |props| - 1;
      ObjectTypeMembersOk(st, env, props[..n]);
      assert forall i :: 0 <= i < n ==> props[..n][i] == props[i];
    }
  }

  /** Each member name maps to the type of its last occurrence. */
  lemma {:induction false} ObjectTypeMembersLookup(st: Store, env: EnvId, props: seq<(string, string)>, j: nat)
    requires ObjectTypeMembers(st, env, props).Ok? && j < |props|
    requires forall m :: j < m < |props| ==> props[m].0 != props[j].0
    ensures Lookup(ObjectTypeMembers(st, env, props).value, props[j].0) == Some(props[j].1)
    decreases |props|
  {
    var n := |props| - 1;
    var m := ObjectTypeMembers(st, env, props[..n]).value;
    LookupPut(m, props[n].0, props[n].1, props[j].0);
    if j < n {
      assert props[..n][j] == props[j];
      ObjectTypeMembersLookup(st, env, props[..n], j);
    }
  }

  /** Key i of a tuple type's member map is the text of i and holds the
      i-th member type. */
  lemma {:induction false} TupleTypeMembersAt(types: seq<string>, i: nat)
    requires i < |types|
    ensures TupleTypeMembers(types)[i] == (NatText(i), types[i])
    decreases |types|
  {
    if i < |types| - 1 {
      TupleTypeMembersAt(types[..|types| - 1], i);
    }
  }

  // ---------------------------------------------------------------- failsafe

  /** The counter after k completed bodies. */
  function CountdownTimes(cap: Option<real>, k: nat): Option<real>
  {
    if k == 0 then cap else Countdown(CountdownTimes(cap, k - 1))
  }

  /** With a failsafe of n, the test after the (k+1)-th completed body
      stops the loop exactly when k exceeds n: the body runs n + 2 times.
      Without a failsafe the test never stops it. */
  lemma {:induction false} FailsafeBound(n: nat, k: nat)
    ensures CountdownTimes(Some(n as real), k) == Some(n as real - k as real)
    ensures Exhausted(CountdownTimes(Some(n as real), k)) <==> k > n
    ensures CountdownTimes(None, k) == None
  {
    if k > 0 {
      FailsafeBound(n, k - 1);
    }
  }
}
