// What the Environment methods promise: lookups find the nearest binding,
// definitions bind at the current level only and reject taken names,
// and assignment rewrites the owning binding and nothing else.
module EnvironmentProps {
  import opened Wrappers
  import opened Values
  import opened EnvironmentSpec

  /** Every const name is also a variable of the same level, and every
      variable is among the level's names; define* and setVariable keep
      this. */
  ghost predicate ConstsBound(st: Store)
  {
    forall i :: 0 <= i < |st| ==> st[i].consts <= st[i].variables.Keys <= st[i].names
  }

  /** Two stores agree on every level up to env. */
  ghost predicate AgreeUpTo(st: Store, st': Store, env: EnvId)
  {
    forall i :: 0 <= i <= env ==> (i < |st| <==> i < |st'|) && (i < |st| ==> st[i] == st'[i])
  }

  /** l' has the same parent and the same names in every namespace as l. */
  ghost predicate SameShape(l: Level, l': Level)
  {
    l'.parent == l.parent && l'.variables.Keys == l.variables.Keys && l'.types.Keys == l.types.Keys
    && l'.functions.Keys == l.functions.Keys && l'.names == l.names
  }

  /** A name is defined exactly when there is a nearest level holding it. */
  lemma {:induction false} OwnerIsDefined(st: Store, env: EnvId, name: string, sp: Space)
    ensures Owner(st, env, name, sp).Some? <==> IsDefinedIn(st, env, name, sp)
    decreases env
  {
    if env < |st| && !Holds(st[env], sp, name) && Up(st, env).Some? {
      OwnerIsDefined(st, Up(st, env).value, name, sp);
    }
  }

  /** `getVariable` as the source writes it: the local binding if there is
      one, otherwise the parent's answer; an unbound name is an error. */
  lemma GetVariableSearch(st: Store, env: EnvId, name: string)
    requires env < |st|
    ensures name in st[env].variables ==> GetVariable(st, env, name) == Ok(st[env].variables[name])
    ensures name !in st[env].variables && Up(st, env).Some? ==>
      GetVariable(st, env, name) == GetVariable(st, Up(st, env).value, name)
    ensures !IsDefinedIn(st, env, name, VariableSpace) <==>
      GetVariable(st, env, name) == Err(EnvironmentError("Variable " + name + " is not defined!"))
  {
    OwnerIsDefined(st, env, name, VariableSpace);
  }

  /** The same for `getType` and `getFunction`. */
  lemma GetTypeAndFunctionSearch(st: Store, env: EnvId, name: string)
    requires env < |st|
    ensures name in st[env].types ==> GetType(st, env, name) == Ok(st[env].types[name])
    ensures name !in st[env].types && Up(st, env).Some? ==> GetType(st, env, name) == GetType(st, Up(st, env).value, name)
    ensures IsDefinedIn(st, env, name, TypeSpace) <==> GetType(st, env, name).Ok?
    ensures name in st[env].functions ==> GetFunction(st, env, name) == Ok(st[env].functions[name])
    ensures name !in st[env].functions && Up(st, env).Some? ==>
      GetFunction(st, env, name) == GetFunction(st, Up(st, env).value, name)
    ensures IsDefinedIn(st, env, name, FunctionSpace) <==> GetFunction(st, env, name).Ok?
  {
    OwnerIsDefined(st, env, name, TypeSpace);
    OwnerIsDefined(st, env, name, FunctionSpace);
  }

  /** A search from env sees only the levels up to env. */
  lemma {:induction false} OwnerLocal(st: Store, st': Store, env: EnvId, name: string, sp: Space)
    requires AgreeUpTo(st, st', env)
    ensures Owner(st', env, name, sp) == Owner(st, env, name, sp)
    ensures IsDefinedIn(st', env, name, sp) == IsDefinedIn(st, env, name, sp)
    decreases env
  {
    if env < |st| && Up(st, env).Some? {
      assert Up(st', env) == Up(st, env);
      OwnerLocal(st, st', Up(st, env).value, name, sp);
    }
  }

  /** Replacing a level by one of the same shape changes no answer to
      `isDefined*` and no owner. */
  lemma {:induction false} ShapeKeepsOwners(st: Store, o: EnvId, l': Level, env: EnvId, name: string, sp: Space)
    requires o < |st| && SameShape(st[o], l')
    ensures Owner(Replace(st, o, l'), env, name, sp) == Owner(st, env, name, sp)
    ensures IsDefinedIn(Replace(st, o, l'), env, name, sp) == IsDefinedIn(st, env, name, sp)
    decreases env
  {
    var st' := Replace(st, o, l');
    if env < |st| {
      assert Holds(st'[env], sp, name) == Holds(st[env], sp, name);
      assert Up(st', env) == Up(st, env);
      if Up(st, env).Some? {
        ShapeKeepsOwners(st, o, l', Up(st, env).value, name, sp);
      }
    }
  }

  /** `defineVariable` succeeds exactly when the name is free at this
      level, is no type anywhere up the chain and is no primitive type
      name; it then binds the value, its kind and the const flag here, and
      no other level changes. A name bound only in an ancestor is
      shadowed. */
  lemma DefineVariableRule(st: Store, env: EnvId, name: string, value: Value, isConst: bool)
    requires env < |st|
    ensures DefineVariable(st, env, name, value, isConst).Ok? <==>
      (name !in st[env].names && !IsDefinedIn(st, env, name, TypeSpace) && name !in PrimitiveTypes)
    ensures DefineVariable(st, env, name, value, isConst).Ok? ==>
      (var st' := DefineVariable(st, env, name, value, isConst).value;
       |st'| == |st| && (forall i :: 0 <= i < |st| && i != env ==> st'[i] == st[i])
       && GetVariable(st', env, name) == Ok(Binding(value, Kind(value), isConst))
       && (ConstsBound(st) ==> IsConst(st', env, name) == Ok(isConst)))
  {
    if DefineVariable(st, env, name, value, isConst).Ok? {
      var st' := DefineVariable(st, env, name, value, isConst).value;
      assert Holds(st'[env], VariableSpace, name);
      OwnerIsDefined(st', env, name, VariableSpace);
    }
  }

  /** `defineType` succeeds exactly at a level without a parent, for a
      name defined nowhere up the chain; the type is then found there. */
  lemma DefineTypeRule(st: Store, env: EnvId, name: string, def: TypeDef)
    requires env < |st|
    ensures DefineType(st, env, name, def).Ok? <==> (st[env].parent.None? && !IsDefinedIn(st, env, name, AnyName))
    ensures DefineType(st, env, name, def).Ok? ==>
      (var st' := DefineType(st, env, name, def).value;
       |st'| == |st| && (forall i :: 0 <= i < |st| && i != env ==> st'[i] == st[i])
       && GetType(st', env, name) == Ok(def))
  {
  }

  /** `defineFunction` succeeds exactly for a name free at this level that
      is no primitive type name; the function is then found there. */
  lemma DefineFunctionRule(st: Store, env: EnvId, name: string, f: Value)
    requires env < |st|
    ensures DefineFunction(st, env, name, f).Ok? <==> (name !in st[env].names && name !in PrimitiveTypes)
    ensures DefineFunction(st, env, name, f).Ok? ==>
      (var st' := DefineFunction(st, env, name, f).value;
       |st'| == |st| && (forall i :: 0 <= i < |st| && i != env ==> st'[i] == st[i])
       && GetFunction(st', env, name) == Ok(f))
  {
  }

  /** Defining at a level leaves every search from a lower level as it
      was, so a shadowed binding is still what its own level sees. */
  lemma DefineLeavesLowerLevels(st: Store, env: EnvId, name: string, value: Value, isConst: bool, e: EnvId, n: string)
    requires e < env < |st| && DefineVariable(st, env, name, value, isConst).Ok?
    ensures GetVariable(DefineVariable(st, env, name, value, isConst).value, e, n) == GetVariable(st, e, n)
  {
    OwnerLocal(st, DefineVariable(st, env, name, value, isConst).value, e, n, VariableSpace);
  }

  /** The level and binding `setVariable` rewrites: the owner of the name,
      whose entry takes the new value, its kind and a cleared const flag. */
  ghost function Rewritten(st: Store, o: EnvId, name: string, value: Value): Store
  {
    Replace(st, o, At(st, o).(variables := At(st, o).variables[name := Binding(value, Kind(value), false)]))
  }

  /** A successful `setVariable` rewrites only the nearest level holding
      the name, and there only that name's entry. */
  lemma {:induction false} SetVariableRewritesOwner(st: Store, env: EnvId, name: string, value: Value)
    requires SetVariable(st, env, name, value).Ok?
    ensures Owner(st, env, name, VariableSpace).Some?
    ensures SetVariable(st, env, name, value).value == Rewritten(st, Owner(st, env, name, VariableSpace).value, name, value)
    decreases env
  {
    var l := At(st, env);
    if name !in l.variables {
      SetVariableRewritesOwner(st, Up(st, env).value, name, value);
    }
  }

  /** `setVariable` never creates or removes a binding: every `isDefined*`
      answer is the same afterwards, and the assigned name now reads back
      the new value. */
  lemma SetVariableThenGet(st: Store, env: EnvId, name: string, value: Value, e: EnvId, n: string, sp: Space)
    requires SetVariable(st, env, name, value).Ok?
    ensures IsDefinedIn(SetVariable(st, env, name, value).value, e, n, sp) == IsDefinedIn(st, e, n, sp)
    ensures GetVariable(SetVariable(st, env, name, value).value, env, name) == Ok(Binding(value, Kind(value), false))
    ensures n != name ==> GetVariable(SetVariable(st, env, name, value).value, e, n) == GetVariable(st, e, n)
  {
    SetVariableRewritesOwner(st, env, name, value);
    var o := Owner(st, env, name, VariableSpace).value;
    var l' := At(st, o).(variables := At(st, o).variables[name := Binding(value, Kind(value), false)]);
    assert SameShape(st[o], l');
    ShapeKeepsOwners(st, o, l', e, n, sp);
    ShapeKeepsOwners(st, o, l', env, name, VariableSpace);
    ShapeKeepsOwners(st, o, l', e, n, VariableSpace);
  }

  /** Assignment succeeds exactly when the name is a variable up the
      chain, is no function, type or primitive type name, and is not const
      at the level that owns it. */
  lemma {:induction false} SetVariableRule(st: Store, env: EnvId, name: string, value: Value)
    requires ConstsBound(st)
    ensures SetVariable(st, env, name, value).Ok? <==>
      (Owner(st, env, name, VariableSpace).Some? && !IsDefinedIn(st, env, name, FunctionSpace)
       && !IsDefinedIn(st, env, name, TypeSpace) && name !in PrimitiveTypes
       && name !in st[Owner(st, env, name, VariableSpace).value].consts)
    decreases env
  {
    OwnerIsDefined(st, env, name, VariableSpace);
    if env < |st| && name !in st[env].variables && Up(st, env).Some? {
      var p := Up(st, env).value;
      assert name !in st[env].consts;
      SetVariableRule(st, p, name, value);
    }
  }

  /** The const check fires at the level that owns the binding, as the
      call climbs towards it. */
  lemma {:induction false} SetConstRejected(st: Store, env: EnvId, name: string, value: Value)
    requires Owner(st, env, name, VariableSpace).Some?
    requires name in st[Owner(st, env, name, VariableSpace).value].consts
    requires !IsDefinedIn(st, env, name, FunctionSpace) && !IsDefinedIn(st, env, name, TypeSpace)
    requires name !in PrimitiveTypes
    ensures SetVariable(st, env, name, value) == Err(EnvironmentError("Variable " + name + " is a const!"))
    decreases env
  {
    OwnerIsDefined(st, env, name, VariableSpace);
    if name !in st[env].consts && name !in st[env].variables {
      SetConstRejected(st, Up(st, env).value, name, value);
    }
  }

  /** Functions and types cannot be assigned to, and an unbound name is
      reported as such. */
  lemma SetVariableErrors(st: Store, env: EnvId, name: string, value: Value)
    ensures !IsDefinedIn(st, env, name, VariableSpace) ==>
      SetVariable(st, env, name, value) == Err(EnvironmentError("Variable " + name + " is not defined!"))
    ensures IsDefinedIn(st, env, name, VariableSpace) && IsDefinedIn(st, env, name, FunctionSpace) ==>
      SetVariable(st, env, name, value) == Err(EnvironmentError("Variable " + name + " is a function!"))
    ensures (IsDefinedIn(st, env, name, VariableSpace) && !IsDefinedIn(st, env, name, FunctionSpace)
             && IsDefinedIn(st, env, name, TypeSpace)) ==>
      SetVariable(st, env, name, value) == Err(EnvironmentError("Variable " + name + " is a type!"))
  {
  }

  /** Every define and every assignment keeps consts among variables. */
  lemma ConstsBoundByDefines(st: Store, env: EnvId, name: string, value: Value, isConst: bool, def: TypeDef)
    requires ConstsBound(st)
    ensures DefineVariable(st, env, name, value, isConst).Ok? ==> ConstsBound(DefineVariable(st, env, name, value, isConst).value)
    ensures DefineType(st, env, name, def).Ok? ==> ConstsBound(DefineType(st, env, name, def).value)
    ensures DefineFunction(st, env, name, value).Ok? ==> ConstsBound(DefineFunction(st, env, name, value).value)
  {
  }

  lemma ConstsBoundBySet(st: Store, env: EnvId, name: string, value: Value)
    requires ConstsBound(st)
    ensures SetVariable(st, env, name, value).Ok? ==> ConstsBound(SetVariable(st, env, name, value).value)
  {
    if SetVariable(st, env, name, value).Ok? {
      SetVariableRewritesOwner(st, env, name, value);
    }
  }
}
