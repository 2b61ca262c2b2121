// The standard library every root scope starts with, and the Environment
// constructor that installs it: two const variables, six types and three
// native functions (their signatures only; their bodies are the host's).
module Stl {
  import opened Wrappers
  import opened Ast
  import opened Values
  import opened EnvironmentSpec
  import opened EnvironmentProps
  import Environment

  /** The host's Math.PI. */
  const Pi: real := 3.141592653589793

  const PrintFunction := NativeFunctionV("print", [Param("value", ANY)], VOID)
  const InputFunction := NativeFunctionV("input", [Param("prompt", ANY)], STRING)
  const TimeFunction := NativeFunctionV("time", [], NUMBER)

  /** `populateWithSTLVariables`. The version text has no escape pair, so
      the STRING built from it is the text itself (`NewStringValue`). */
  function PopulateWithSTLVariables(st: Store, root: EnvId): Result<Store, Error>
  {
    match DefineVariable(st, root, "PI", NumberV(Pi), true)
    case Err(e) => Err(e)
    case Ok(st1) => DefineVariable(st1, root, "version", StringV("0.0.1"), true)
  }

  /** `populateWithSTLTypes`: the standard types carry no member map. */
  function PopulateWithSTLTypes(st: Store, root: EnvId): Result<Store, Error>
  {
    match DefineType(st, root, STRING, TypeDef(STRING, None))
    case Err(e) => Err(e)
    case Ok(st1) =>
      match DefineType(st1, root, NUMBER, TypeDef(NUMBER, None))
      case Err(e) => Err(e)
      case Ok(st2) =>
        match DefineType(st2, root, BOOL, TypeDef(BOOL, None))
        case Err(e) => Err(e)
        case Ok(st3) => PopulateWithSTLTypesRest(st3, root)
  }

  function PopulateWithSTLTypesRest(st: Store, root: EnvId): Result<Store, Error>
  {
    match DefineType(st, root, NULL, TypeDef(NULL, None))
    case Err(e) => Err(e)
    case Ok(st1) =>
      match DefineType(st1, root, VOID, TypeDef(VOID, None))
      case Err(e) => Err(e)
      case Ok(st2) => DefineType(st2, root, ANY, TypeDef(ANY, None))
  }

  /** `populateWithSTLFunctions`. */
  function PopulateWithSTLFunctions(st: Store, root: EnvId): Result<Store, Error>
  {
    match DefineFunction(st, root, "print", PrintFunction)
    case Err(e) => Err(e)
    case Ok(st1) =>
      match DefineFunction(st1, root, "input", InputFunction)
      case Err(e) => Err(e)
      case Ok(st2) => DefineFunction(st2, root, "time", TimeFunction)
  }

  /** The three steps of the constructor, in order. */
  function Seed(st: Store, root: EnvId): Result<Store, Error>
  {
    match PopulateWithSTLVariables(st, root)
    case Err(e) => Err(e)
    case Ok(st1) =>
      match PopulateWithSTLTypes(st1, root)
      case Err(e) => Err(e)
      case Ok(st2) => PopulateWithSTLFunctions(st2, root)
  }

  /** `new Environment(parent)`: a new level at the end of the store; a
      level without a parent is seeded. */
  function NewLevel(st: Store, parent: Option<EnvId>): (Store, EnvId)
  {
    var st1 := st + [EmptyLevel(parent)];
    if parent.Some? then (st1, |st|)
    else match Seed(st1, |st|)
      case Ok(st2) => (st2, |st|)
      case Err(_) => (st1, |st|)
  }

  /** The root level after the variables, after the first three types,
      after all six types, and after the functions. */
  function VariablesLevel(): Level
  {
    var l := EmptyLevel(None);
    l.(variables := l.variables["PI" := Binding(NumberV(Pi), NUMBER, true)]["version" := Binding(StringV("0.0.1"), STRING, true)],
       consts := l.consts + {"PI"} + {"version"},
       names := l.names + {"PI"} + {"version"})
  }

  function FirstTypesLevel(): Level
  {
    var l := VariablesLevel();
    l.(types := map[STRING := TypeDef(STRING, None), NUMBER := TypeDef(NUMBER, None), BOOL := TypeDef(BOOL, None)],
       names := l.names + {STRING} + {NUMBER} + {BOOL})
  }

  function TypesLevel(): Level
  {
    var l := FirstTypesLevel();
    l.(types := l.types[NULL := TypeDef(NULL, None)][VOID := TypeDef(VOID, None)][ANY := TypeDef(ANY, None)],
       names := l.names + {NULL} + {VOID} + {ANY})
  }

  function RootLevel(): Level
  {
    var l := TypesLevel();
    l.(functions := map["print" := PrintFunction, "input" := InputFunction, "time" := TimeFunction],
       names := l.names + {"print"} + {"input"} + {"time"})
  }

  /** In a root level at the end of the store, a search sees that level
      only. */
  lemma RootSearch(st: Store, l: Level, name: string, sp: Space)
    requires l.parent.None?
    ensures IsDefinedIn(st + [l], |st|, name, sp) == Holds(l, sp, name)
  {
    assert Up(st + [l], |st|) == None;
  }

  /** Replacing the last level of a store. */
  lemma ReplaceLast(st: Store, l: Level, l': Level)
    ensures Replace(st + [l], |st|, l') == st + [l']
  {
    assert (st + [l])[|st| := l'] == st + [l'];
  }

  lemma VariablesSeeded(st: Store)
    ensures PopulateWithSTLVariables(st + [EmptyLevel(None)], |st|) == Ok(st + [VariablesLevel()])
  {
    var l0 := EmptyLevel(None);
    RootSearch(st, l0, "PI", TypeSpace);
    var l1 := l0.(variables := l0.variables["PI" := Binding(NumberV(Pi), NUMBER, true)], consts := l0.consts + {"PI"}, names := l0.names + {"PI"});
    ReplaceLast(st, l0, l1);
    assert DefineVariable(st + [l0], |st|, "PI", NumberV(Pi), true) == Ok(st + [l1]);
    RootSearch(st, l1, "version", TypeSpace);
    ReplaceLast(st, l1, VariablesLevel());
  }

  lemma FirstTypesSeeded(st: Store)
    ensures PopulateWithSTLTypes(st + [VariablesLevel()], |st|) == PopulateWithSTLTypesRest(st + [FirstTypesLevel()], |st|)
  {
    var l0 := VariablesLevel();
    RootSearch(st, l0, STRING, AnyName);
    var l1 := l0.(types := map[STRING := TypeDef(STRING, None)], names := l0.names + {STRING});
    ReplaceLast(st, l0, l1);
    assert DefineType(st + [l0], |st|, STRING, TypeDef(STRING, None)) == Ok(st + [l1]);
    RootSearch(st, l1, NUMBER, AnyName);
    var l2 := l1.(types := l1.types[NUMBER := TypeDef(NUMBER, None)], names := l1.names + {NUMBER});
    ReplaceLast(st, l1, l2);
    assert DefineType(st + [l1], |st|, NUMBER, TypeDef(NUMBER, None)) == Ok(st + [l2]);
    RootSearch(st, l2, BOOL, AnyName);
    ReplaceLast(st, l2, FirstTypesLevel());
    assert DefineType(st + [l2], |st|, BOOL, TypeDef(BOOL, None)) == Ok(st + [FirstTypesLevel()]);
  }

  lemma LastTypesSeeded(st: Store)
    ensures PopulateWithSTLTypesRest(st + [FirstTypesLevel()], |st|) == Ok(st + [TypesLevel()])
  {
    var l0 := FirstTypesLevel();
    RootSearch(st, l0, NULL, AnyName);
    var l1 := l0.(types := l0.types[NULL := TypeDef(NULL, None)], names := l0.names + {NULL});
    ReplaceLast(st, l0, l1);
    assert DefineType(st + [l0], |st|, NULL, TypeDef(NULL, None)) == Ok(st + [l1]);
    RootSearch(st, l1, VOID, AnyName);
    var l2 := l1.(types := l1.types[VOID := TypeDef(VOID, None)], names := l1.names + {VOID});
    ReplaceLast(st, l1, l2);
    assert DefineType(st + [l1], |st|, VOID, TypeDef(VOID, None)) == Ok(st + [l2]);
    RootSearch(st, l2, ANY, AnyName);
    ReplaceLast(st, l2, TypesLevel());
    assert DefineType(st + [l2], |st|, ANY, TypeDef(ANY, None)) == Ok(st + [TypesLevel()]);
  }

  lemma FunctionsSeeded(st: Store)
    ensures PopulateWithSTLFunctions(st + [TypesLevel()], |st|) == Ok(st + [RootLevel()])
  {
    var l0 := TypesLevel();
    var l1 := l0.(functions := map["print" := PrintFunction], names := l0.names + {"print"});
    ReplaceLast(st, l0, l1);
    assert DefineFunction(st + [l0], |st|, "print", PrintFunction) == Ok(st + [l1]);
    var l2 := l1.(functions := l1.functions["input" := InputFunction], names := l1.names + {"input"});
    ReplaceLast(st, l1, l2);
    assert DefineFunction(st + [l1], |st|, "input", InputFunction) == Ok(st + [l2]);
    ReplaceLast(st, l2, RootLevel());
    assert DefineFunction(st + [l2], |st|, "time", TimeFunction) == Ok(st + [RootLevel()]);
  }

  /** Seeding a fresh root never fails and yields exactly RootLevel. */
  lemma SeedBuildsRoot(st: Store)
    ensures Seed(st + [EmptyLevel(None)], |st|) == Ok(st + [RootLevel()])
    ensures NewLevel(st, None) == (st + [RootLevel()], |st|)
  {
    VariablesSeeded(st);
    FirstTypesSeeded(st);
    LastTypesSeeded(st);
    FunctionsSeeded(st);
  }

  /** Only a level without a parent is seeded; any other starts empty. */
  lemma ChildIsEmpty(st: Store, p: EnvId)
    ensures NewLevel(st, Some(p)) == (st + [EmptyLevel(Some(p))], |st|)
  {
  }

  /** What a program finds in a fresh root: PI and version as consts, the
      six standard types, and the three native function signatures. */
  lemma RootVariables(st: Store)
    ensures GetVariable(st + [RootLevel()], |st|, "PI") == Ok(Binding(NumberV(Pi), NUMBER, true))
    ensures GetVariable(st + [RootLevel()], |st|, "version") == Ok(Binding(StringV("0.0.1"), STRING, true))
  {
  }

  lemma RootTypes(st: Store, t: string)
    requires t in PrimitiveTypes
    ensures GetType(st + [RootLevel()], |st|, t) == Ok(TypeDef(t, None))
  {
  }

  lemma RootFunctions(st: Store)
    ensures GetFunction(st + [RootLevel()], |st|, "print") == Ok(PrintFunction)
    ensures GetFunction(st + [RootLevel()], |st|, "input") == Ok(InputFunction)
    ensures GetFunction(st + [RootLevel()], |st|, "time") == Ok(TimeFunction)
  {
  }

  /** PI and version cannot be assigned. */
  lemma ConstantsAreConst(st: Store, value: Value)
    ensures SetVariable(st + [RootLevel()], |st|, "PI", value) == Err(EnvironmentError("Variable " + "PI" + " is a const!"))
    ensures SetVariable(st + [RootLevel()], |st|, "version", value) == Err(EnvironmentError("Variable " + "version" + " is a const!"))
  {
    var root := RootLevel();
    assert root.parent == None && "PI" in root.consts && "version" in root.consts;
    assert "PI" in root.variables && "version" in root.variables;
    RootSearch(st, root, "PI", FunctionSpace);
    RootSearch(st, root, "PI", TypeSpace);
    RootSearch(st, root, "version", FunctionSpace);
    RootSearch(st, root, "version", TypeSpace);
    SetConstRejected(st + [root], |st|, "PI", value);
    SetConstRejected(st + [root], |st|, "version", value);
  }

  /** A fresh root keeps consts among its variables. */
  lemma RootConstsBound(st: Store)
    requires ConstsBound(st)
    ensures ConstsBound(NewLevel(st, None).0)
  {
    SeedBuildsRoot(st);
  }

  /** The same steps on the mutable store. */
  method PopulateWithSTLVariablesOn(scopes: Environment.Scopes, root: EnvId) returns (err: Option<Error>)
    modifies scopes
    ensures err.None? <==> PopulateWithSTLVariables(old(scopes.levels), root).Ok?
    ensures err.None? ==> scopes.levels == PopulateWithSTLVariables(old(scopes.levels), root).value
    ensures err.Some? ==> err.value == PopulateWithSTLVariables(old(scopes.levels), root).error
  {
    err := scopes.DefineVariable(root, "PI", NumberV(Pi), true);
    if err.Some? {
      return;
    }
    var version := NewStringValue("0.0.1");
    err := scopes.DefineVariable(root, "version", version, true);
  }

  method PopulateWithSTLTypesOn(scopes: Environment.Scopes, root: EnvId) returns (err: Option<Error>)
    modifies scopes
    ensures err.None? <==> PopulateWithSTLTypes(old(scopes.levels), root).Ok?
    ensures err.None? ==> scopes.levels == PopulateWithSTLTypes(old(scopes.levels), root).value
    ensures err.Some? ==> err.value == PopulateWithSTLTypes(old(scopes.levels), root).error
  {
    err := scopes.DefineType(root, STRING, TypeDef(STRING, None));
    if err.None? { err := scopes.DefineType(root, NUMBER, TypeDef(NUMBER, None)); }
    if err.None? { err := scopes.DefineType(root, BOOL, TypeDef(BOOL, None)); }
    if err.None? { err := scopes.DefineType(root, NULL, TypeDef(NULL, None)); }
    if err.None? { err := scopes.DefineType(root, VOID, TypeDef(VOID, None)); }
    if err.None? { err := scopes.DefineType(root, ANY, TypeDef(ANY, None)); }
  }

  method PopulateWithSTLFunctionsOn(scopes: Environment.Scopes, root: EnvId) returns (err: Option<Error>)
    modifies scopes
    ensures err.None? <==> PopulateWithSTLFunctions(old(scopes.levels), root).Ok?
    ensures err.None? ==> scopes.levels == PopulateWithSTLFunctions(old(scopes.levels), root).value
    ensures err.Some? ==> err.value == PopulateWithSTLFunctions(old(scopes.levels), root).error
  {
    err := scopes.DefineFunction(root, "print", PrintFunction);
    if err.None? { err := scopes.DefineFunction(root, "input", InputFunction); }
    if err.None? { err := scopes.DefineFunction(root, "time", TimeFunction); }
  }

  /** `new Environment(parent)` on the mutable store. */
  method NewEnvironment(scopes: Environment.Scopes, parent: Option<EnvId>) returns (id: EnvId)
    modifies scopes
    ensures (scopes.levels, id) == NewLevel(old(scopes.levels), parent)
  {
    id := scopes.AddLevel(parent);
    if parent.None? {
      SeedBuildsRoot(old(scopes.levels));
      var err := PopulateWithSTLVariablesOn(scopes, id);
      var err2 := PopulateWithSTLTypesOn(scopes, id);
      var err3 := PopulateWithSTLFunctionsOn(scopes, id);
    }
  }
}
