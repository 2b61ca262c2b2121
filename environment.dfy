// The Environment objects as one mutable store of levels. Each method
// changes the store as the matching Environment method changes its maps,
// and is proved to leave exactly the store its specification describes.
module Environment {
  import opened Wrappers
  import opened Values
  import opened EnvironmentSpec

  class Scopes {
    /** Every Environment created so far, by index. */
    var levels: Store

    constructor()
      ensures levels == []
    {
      levels := [];
    }

    /** What an operation that may fail left behind: on success the store
        its specification computes, on failure the same error and an
        untouched store. */
    ghost predicate Agrees(err: Option<Error>, spec: Result<Store, Error>, before: Store)
      reads this
    {
      (err.None? <==> spec.Ok?)
      && (spec.Ok? ==> levels == spec.value)
      && (spec.Err? ==> err == Some(spec.error) && levels == before)
    }

    /** A new Environment object: an empty level with the given parent. */
    method AddLevel(parent: Option<EnvId>) returns (id: EnvId)
      modifies this
      ensures levels == old(levels) + [EmptyLevel(parent)]
      ensures id == |old(levels)|
    {
      id := |levels|;
      levels := levels + [EmptyLevel(parent)];
    }

    method DefineVariable(env: EnvId, name: string, value: Value, isConst: bool) returns (err: Option<Error>)
      modifies this
      ensures Agrees(err, EnvironmentSpec.DefineVariable(old(levels), env, name, value, isConst), old(levels))
    {
      var l := At(levels, env);
      if name in l.names || IsDefinedIn(levels, env, name, TypeSpace) {
        return Some(EnvironmentError("Name " + name + " is already defined!"));
      }
      if name in PrimitiveTypes {
        return Some(EnvironmentError("Variable " + name + " is already defined as a primitive type!"));
      }
      l := l.(variables := l.variables[name := Binding(value, Kind(value), isConst)]);
      if isConst {
        l := l.(consts := l.consts + {name});
      }
      l := l.(names := l.names + {name});
      levels := Replace(levels, env, l);
      err := None;
    }

    method DefineType(env: EnvId, name: string, def: TypeDef) returns (err: Option<Error>)
      modifies this
      ensures Agrees(err, EnvironmentSpec.DefineType(old(levels), env, name, def), old(levels))
    {
      var l := At(levels, env);
      if l.parent.Some? {
        return Some(EnvironmentError("Types can be defined only in global scope!"));
      }
      if IsDefinedIn(levels, env, name, AnyName) {
        return Some(EnvironmentError("Name " + name + " is already taken!"));
      }
      l := l.(types := l.types[name := def]);
      l := l.(names := l.names + {name});
      levels := Replace(levels, env, l);
      err := None;
    }

    /** `defineFunction`, and `defineNativeFunction`, which is the same. */
    method DefineFunction(env: EnvId, name: string, f: Value) returns (err: Option<Error>)
      modifies this
      ensures Agrees(err, EnvironmentSpec.DefineFunction(old(levels), env, name, f), old(levels))
    {
      var l := At(levels, env);
      if name in l.names {
        return Some(EnvironmentError("Name " + name + " is already defined!"));
      }
      if name in PrimitiveTypes {
        return Some(EnvironmentError("Function " + name + " is already defined as a primitive type!"));
      }
      l := l.(functions := l.functions[name := f]);
      l := l.(names := l.names + {name});
      levels := Replace(levels, env, l);
      err := None;
    }

    /** `setVariable`: the checks at this level, then the local rewrite or
        the same call on the parent. */
    method SetVariable(env: EnvId, name: string, value: Value) returns (err: Option<Error>)
      modifies this
      ensures Agrees(err, EnvironmentSpec.SetVariable(old(levels), env, name, value), old(levels))
      decreases env
    {
      if !IsDefinedIn(levels, env, name, VariableSpace) {
        return Some(EnvironmentError("Variable " + name + " is not defined!"));
      }
      if IsDefinedIn(levels, env, name, FunctionSpace) {
        return Some(EnvironmentError("Variable " + name + " is a function!"));
      }
      if IsDefinedIn(levels, env, name, TypeSpace) {
        return Some(EnvironmentError("Variable " + name + " is a type!"));
      }
      if IsConst(levels, env, name) == Ok(true) {
        return Some(EnvironmentError("Variable " + name + " is a const!"));
      }
      if name in PrimitiveTypes {
        return Some(EnvironmentError("Variable " + name + " is already defined as a primitive type!"));
      }
      var l := At(levels, env);
      if name in l.variables {
        levels := Replace(levels, env, l.(variables := l.variables[name := Binding(value, Kind(value), name in l.consts)]));
        return None;
      }
      var parent := Up(levels, env);
      if parent.Some? {
        err := SetVariable(parent.value, name, value);
      } else {
        err := None;
      }
    }
  }
}
