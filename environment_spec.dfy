// Scopes. Every Environment object is one level of a store; a level names
// its parent by index, and a new level is always appended, so a parent's
// index is smaller than its child's. The functions here are the
// specification of the Environment methods: what each one answers or
// answers with, and the store it leaves behind.
module EnvironmentSpec {
  import opened Wrappers
  import opened Values

  type EnvId = nat

  /** A variable's entry: its value, the type name recorded for it, and
      whether it is const. */
  datatype Binding = Binding(value: Value, typeName: string, isConst: bool)

  /** One Environment: its parent, its four maps and sets, and the set of
      every name bound at this level in any namespace. */
  datatype Level = Level(
    parent: Option<EnvId>,
    variables: map<string, Binding>,
    consts: set<string>,
    types: map<string, TypeDef>,
    functions: map<string, Value>,
    names: set<string>)

  type Store = seq<Level>

  function EmptyLevel(parent: Option<EnvId>): Level
  {
    Level(parent, map[], {}, map[], map[], {})
  }

  /** The level env; an index the store does not hold reads as an empty
      root level, so that every function here is total. */
  function At(st: Store, env: EnvId): Level
  {
    if env < |st| then st[env] else EmptyLevel(None)
  }

  /** The store with level env replaced by l. */
  function Replace(st: Store, env: EnvId, l: Level): Store
  {
    if env < |st| then st[env := l] else st
  }

  /** Parents precede their children. */
  ghost predicate WellFormed(st: Store)
  {
    forall i :: 0 <= i < |st| && st[i].parent.Some? ==> st[i].parent.value < i
  }

  /** The parent a search moves to. In a well-formed store this is the
      level's own parent. */
  function Up(st: Store, env: EnvId): (p: Option<EnvId>)
    ensures p.Some? ==> p.value < env
  {
    if env < |st| && st[env].parent.Some? && st[env].parent.value < env then st[env].parent else None
  }

  /** The four questions `isDefined`, `isDefinedVariable`, `isDefinedType`
      and `isDefinedFunction` ask of one level. */
  datatype Space = AnyName | VariableSpace | TypeSpace | FunctionSpace

  predicate Holds(l: Level, sp: Space, name: string)
  {
    match sp
    case AnyName => name in l.names
    case VariableSpace => name in l.variables
    case TypeSpace => name in l.types
    case FunctionSpace => name in l.functions
  }

  /** `isDefined*`: the name is held here or, recursively, by the parent. */
  predicate IsDefinedIn(st: Store, env: EnvId, name: string, sp: Space)
    decreases env
  {
    env < |st| && (Holds(st[env], sp, name) || (Up(st, env).Some? && IsDefinedIn(st, Up(st, env).value, name, sp)))
  }

  /** The nearest level, from env upwards, that holds the name. */
  function Owner(st: Store, env: EnvId, name: string, sp: Space): (o: Option<EnvId>)
    ensures o.Some? ==> o.value <= env && o.value < |st| && Holds(st[o.value], sp, name)
    decreases env
  {
    if env >= |st| then None
    else if Holds(st[env], sp, name) then Some(env)
    else if Up(st, env).Some? then Owner(st, Up(st, env).value, name, sp)
    else None
  }

  /** `getVariable`: the nearest binding, or an error naming the variable. */
  function GetVariable(st: Store, env: EnvId, name: string): Result<Binding, Error>
  {
    match Owner(st, env, name, VariableSpace)
    case None => Err(EnvironmentError("Variable " + name + " is not defined!"))
    case Some(o) => Ok(st[o].variables[name])
  }

  /** `getType`. */
  function GetType(st: Store, env: EnvId, name: string): Result<TypeDef, Error>
  {
    match Owner(st, env, name, TypeSpace)
    case None => Err(EnvironmentError("Type " + name + " is not defined!"))
    case Some(o) => Ok(st[o].types[name])
  }

  /** `getFunction`. */
  function GetFunction(st: Store, env: EnvId, name: string): Result<Value, Error>
  {
    match Owner(st, env, name, FunctionSpace)
    case None => Err(EnvironmentError("Function " + name + " is not defined!"))
    case Some(o) => Ok(st[o].functions[name])
  }

  /** `isConst`: defined anywhere up the chain, const at this level. */
  function IsConst(st: Store, env: EnvId, name: string): Result<bool, Error>
  {
    if !IsDefinedIn(st, env, name, VariableSpace) then Err(EnvironmentError("Variable " + name + " is not defined!"))
    else Ok(name in At(st, env).consts)
  }

  /** `defineVariable`: binds the name at this level, recording the value's
      kind as its type. */
  function DefineVariable(st: Store, env: EnvId, name: string, value: Value, isConst: bool): Result<Store, Error>
  {
    var l := At(st, env);
    if name in l.names || IsDefinedIn(st, env, name, TypeSpace) then
      Err(EnvironmentError("Name " + name + " is already defined!"))
    else if name in PrimitiveTypes then
      Err(EnvironmentError("Variable " + name + " is already defined as a primitive type!"))
    else
      Ok(Replace(st, env, l.(
        variables := l.variables[name := Binding(value, Kind(value), isConst)],
        consts := if isConst then l.consts + {name} else l.consts,
        names := l.names + {name})))
  }

  /** `defineType`: only a level without a parent takes types. */
  function DefineType(st: Store, env: EnvId, name: string, def: TypeDef): Result<Store, Error>
  {
    var l := At(st, env);
    if l.parent.Some? then
      Err(EnvironmentError("Types can be defined only in global scope!"))
    else if IsDefinedIn(st, env, name, AnyName) then
      Err(EnvironmentError("Name " + name + " is already taken!"))
    else
      Ok(Replace(st, env, l.(types := l.types[name := def], names := l.names + {name})))
  }

  /** `defineFunction` and `defineNativeFunction`, whose bodies are the
      same. */
  function DefineFunction(st: Store, env: EnvId, name: string, f: Value): Result<Store, Error>
  {
    var l := At(st, env);
    if name in l.names then
      Err(EnvironmentError("Name " + name + " is already defined!"))
    else if name in PrimitiveTypes then
      Err(EnvironmentError("Function " + name + " is already defined as a primitive type!"))
    else
      Ok(Replace(st, env, l.(functions := l.functions[name := f], names := l.names + {name})))
  }

  /** `setVariable`: the checks run at this level, then either the local
      binding is rewritten or the call moves to the parent. */
  function SetVariable(st: Store, env: EnvId, name: string, value: Value): Result<Store, Error>
    decreases env
  {
    var l := At(st, env);
    if !IsDefinedIn(st, env, name, VariableSpace) then
      Err(EnvironmentError("Variable " + name + " is not defined!"))
    else if IsDefinedIn(st, env, name, FunctionSpace) then
      Err(EnvironmentError("Variable " + name + " is a function!"))
    else if IsDefinedIn(st, env, name, TypeSpace) then
      Err(EnvironmentError("Variable " + name + " is a type!"))
    else if IsConst(st, env, name) == Ok(true) then
      Err(EnvironmentError("Variable " + name + " is a const!"))
    else if name in PrimitiveTypes then
      Err(EnvironmentError("Variable " + name + " is already defined as a primitive type!"))
    else if name in l.variables then
      Ok(Replace(st, env, l.(variables := l.variables[name := Binding(value, Kind(value), name in l.consts)])))
    else if Up(st, env).Some? then
      SetVariable(st, Up(st, env).value, name, value)
    else
      Ok(st)
  }
}
