// What a successful structural check guarantees, and which inputs each
// check rejects.
module TypeCheckProps {
  import opened Wrappers
  import opened Strings
  import opened Values
  import opened EnvironmentSpec
  import opened EnvironmentProps
  import opened TypeChecks

  /** The missing-key list holds exactly the keys of ks that others lacks. */
  lemma {:induction false} MissingMembers(ks: seq<string>, others: seq<string>, k: string)
    ensures k in Missing(ks, others) <==> (k in ks && k !in others)
    decreases |ks|
  {
    if ks != [] {
      MissingMembers(ks[1..], others, k);
      assert ks == [ks[0]] + ks[1..];
    }
  }

  /** Nothing is missing exactly when every key of ks is among others. */
  lemma MissingEmpty(ks: seq<string>, others: seq<string>)
    ensures Missing(ks, others) == [] <==> (forall k :: k in ks ==> k in others)
  {
    if Missing(ks, others) != [] {
      MissingMembers(ks, others, Missing(ks, others)[0]);
    }
    forall k | k in ks
      ensures Missing(ks, others) == [] ==> k in others
    {
      MissingMembers(ks, others, k);
    }
  }

  /** No value's kind prints as an absent entry; the tuples, and only they,
      carry the model's own kind name TUPLE, which the source's enum lacks. */
  lemma KindIsNamed(v: Value)
    ensures Kind(v) != "undefined"
    ensures Kind(v) == TUPLE <==> v.TupleV?
  {
  }

  /** Every check of a type that is not defined fails with the lookup's
      error, and the declaration check fails with its own. */
  lemma UnknownTypeRejected(st: Store, env: EnvId, v: Value, typeName: string, expected: string)
    requires !IsDefinedIn(st, env, typeName, TypeSpace)
    ensures IsObject(v) ==> VerifyObject(st, env, v, typeName) == Err(EnvironmentError("Type " + typeName + " is not defined!"))
    ensures v.ArrayV? ==> VerifyArray(st, env, v, typeName) == Err(EnvironmentError("Type " + typeName + " is not defined!"))
    ensures v.TupleV? ==> VerifyTuple(st, env, v, typeName) == Err(EnvironmentError("Type " + typeName + " is not defined!"))
    ensures VerifyType(st, env, v, typeName, expected) == Err(InterpreterError("Type " + typeName + " is not defined!"))
  {
    OwnerIsDefined(st, env, typeName, TypeSpace);
  }

  /** An object passes only if its keys are exactly the declared ones. */
  lemma ObjectKeysExact(st: Store, env: EnvId, obj: Value, typeName: string, k: string)
    requires IsObject(obj) && VerifyObject(st, env, obj, typeName).Ok?
    ensures obj.ObjectV? && GetType(st, env, typeName).Ok? && GetType(st, env, typeName).value.definition.Some?
    ensures k in Keys(obj.fields) <==> k in Keys(GetType(st, env, typeName).value.definition.value)
  {
    var def := GetType(st, env, typeName).value.definition.value;
    MissingMembers(Keys(def), Keys(obj.fields), k);
    MissingMembers(Keys(obj.fields), Keys(def), k);
  }

  /** A declared key the object lacks is reported, before any extra key. */
  lemma ObjectMissingReported(st: Store, env: EnvId, obj: Value, typeName: string, def: Record<string>, k: string)
    requires obj.ObjectV? && GetType(st, env, typeName).Ok? && GetType(st, env, typeName).value.definition == Some(def)
    requires k in Keys(def) && k !in Keys(obj.fields)
    ensures k in Missing(Keys(def), Keys(obj.fields))
    ensures VerifyObject(st, env, obj, typeName)
      == Err(InterpreterError("Object is missing keys: " + Join(Missing(Keys(def), Keys(obj.fields)), ", ") + " from type " + typeName))
  {
    MissingMembers(Keys(def), Keys(obj.fields), k);
  }

  /** With every declared key present, a key the type does not declare is
      reported. */
  lemma ObjectExtraReported(st: Store, env: EnvId, obj: Value, typeName: string, def: Record<string>, k: string)
    requires obj.ObjectV? && GetType(st, env, typeName).Ok? && GetType(st, env, typeName).value.definition == Some(def)
    requires forall d :: d in Keys(def) ==> d in Keys(obj.fields)
    requires k in Keys(obj.fields) && k !in Keys(def)
    ensures k in Missing(Keys(obj.fields), Keys(def))
    ensures VerifyObject(st, env, obj, typeName)
      == Err(InterpreterError("Object has extra keys: " + Join(Missing(Keys(obj.fields), Keys(def)), ", ") + " from type " + typeName))
  {
    MissingEmpty(Keys(def), Keys(obj.fields));
    MissingMembers(Keys(obj.fields), Keys(def), k);
  }

  /** What checking one field guarantees: the key is kept, so is the kind,
      and a plain field is unchanged and has exactly its declared kind. */
  predicate FieldChecked(def: Record<string>, after: (string, Value), before: (string, Value))
  {
    after.0 == before.0 && Kind(after.1) == Kind(before.1)
    && (!IsComposite(before.1) ==> after.1 == before.1 && Lookup(def, after.0) == Some(Kind(after.1)))
  }

  /** Field-by-field agreement of a checked suffix. */
  predicate FieldsAgree(def: Record<string>, after: Record<Value>, before: Record<Value>)
    decreases |before|
  {
    |after| == |before|
    && (|before| > 0 ==> FieldChecked(def, after[0], before[0]) && FieldsAgree(def, after[1..], before[1..]))
  }

  lemma {:induction false} FieldsAgreeAt(def: Record<string>, after: Record<Value>, before: Record<Value>, k: nat)
    requires FieldsAgree(def, after, before) && k < |before|
    ensures FieldChecked(def, after[k], before[k])
    decreases k
  {
    if k > 0 {
      FieldsAgreeAt(def, after[1..], before[1..], k - 1);
    }
  }

  /** One step of the field check: the head is checked and the rest passes. */
  lemma FieldStep(st: Store, env: EnvId, obj: Value, def: Record<string>, i: nat)
    requires obj.ObjectV? && i < |obj.fields| && VerifyFields(st, env, obj, def, i).Ok?
    ensures VerifyFields(st, env, obj, def, i + 1).Ok?
    ensures VerifyFields(st, env, obj, def, i).value
      == [VerifyFields(st, env, obj, def, i).value[0]] + VerifyFields(st, env, obj, def, i + 1).value
    ensures FieldChecked(def, VerifyFields(st, env, obj, def, i).value[0], obj.fields[i])
  {
    KindIsNamed(obj.fields[i].1);
  }

  lemma {:induction false} FieldsChecked(st: Store, env: EnvId, obj: Value, def: Record<string>, i: nat)
    requires obj.ObjectV? && i <= |obj.fields| && VerifyFields(st, env, obj, def, i).Ok?
    ensures FieldsAgree(def, VerifyFields(st, env, obj, def, i).value, obj.fields[i..])
    decreases |obj.fields| - i
  {
    if i < |obj.fields| {
      FieldStep(st, env, obj, def, i);
      FieldsChecked(st, env, obj, def, i + 1);
      assert obj.fields[i..][1..] == obj.fields[i + 1..];
    }
  }

  /** A verified object has the same keys in the same order, its fields
      keep their kinds, and every plain field has the declared kind. */
  lemma ObjectFieldsMatch(st: Store, env: EnvId, obj: Value, typeName: string)
    requires IsObject(obj) && VerifyObject(st, env, obj, typeName).Ok?
    ensures obj.ObjectV? && GetType(st, env, typeName).Ok? && GetType(st, env, typeName).value.definition.Some?
    ensures forall j :: 0 <= j < |obj.fields| ==>
      FieldChecked(GetType(st, env, typeName).value.definition.value, VerifyObject(st, env, obj, typeName).value.fields[j], obj.fields[j])
  {
    var def := GetType(st, env, typeName).value.definition.value;
    FieldsChecked(st, env, obj, def, 0);
    assert obj.fields[0..] == obj.fields;
    forall j | 0 <= j < |obj.fields|
      ensures FieldChecked(def, VerifyObject(st, env, obj, typeName).value.fields[j], obj.fields[j])
    {
      FieldsAgreeAt(def, VerifyFields(st, env, obj, def, 0).value, obj.fields, j);
    }
  }

  /** An empty array passes against any defined type, unchanged. */
  lemma EmptyArrayAccepted(st: Store, env: EnvId, arr: Value, typeName: string)
    requires arr.ArrayV? && arr.elements == [] && IsDefinedIn(st, env, typeName, TypeSpace)
    ensures VerifyArray(st, env, arr, typeName) == Ok(arr)
  {
    OwnerIsDefined(st, env, typeName, TypeSpace);
  }

  /** What checking one array element guarantees. */
  predicate ElementChecked(def: Option<Record<string>>, after: Value, before: Value)
  {
    def.Some? && Kind(after) == Kind(before)
    && (!IsComposite(before) ==> after == before && Lookup(def.value, "$type") == Some(Kind(after)))
  }

  /** Element-by-element agreement of a checked suffix. */
  predicate ElementsAgree(def: Option<Record<string>>, after: seq<Value>, before: seq<Value>)
    decreases |before|
  {
    |after| == |before|
    && (|before| > 0 ==> ElementChecked(def, after[0], before[0]) && ElementsAgree(def, after[1..], before[1..]))
  }

  lemma {:induction false} ElementsAgreeAt(def: Option<Record<string>>, after: seq<Value>, before: seq<Value>, k: nat)
    requires ElementsAgree(def, after, before) && k < |before|
    ensures ElementChecked(def, after[k], before[k])
    decreases k
  {
    if k > 0 {
      ElementsAgreeAt(def, after[1..], before[1..], k - 1);
    }
  }

  /** One step of the element check. */
  lemma ElementStep(st: Store, env: EnvId, arr: Value, typeName: string, def: Option<Record<string>>, i: nat)
    requires arr.ArrayV? && i < |arr.elements| && VerifyElements(st, env, arr, typeName, def, i).Ok?
    ensures VerifyElements(st, env, arr, typeName, def, i + 1).Ok?
    ensures VerifyElements(st, env, arr, typeName, def, i).value
      == [VerifyElements(st, env, arr, typeName, def, i).value[0]] + VerifyElements(st, env, arr, typeName, def, i + 1).value
    ensures ElementChecked(def, VerifyElements(st, env, arr, typeName, def, i).value[0], arr.elements[i])
  {
  }

  lemma {:induction false} ElementsChecked(st: Store, env: EnvId, arr: Value, typeName: string, def: Option<Record<string>>, i: nat)
    requires arr.ArrayV? && i <= |arr.elements| && VerifyElements(st, env, arr, typeName, def, i).Ok?
    ensures ElementsAgree(def, VerifyElements(st, env, arr, typeName, def, i).value, arr.elements[i..])
    decreases |arr.elements| - i
  {
    if i < |arr.elements| {
      ElementStep(st, env, arr, typeName, def, i);
      ElementsChecked(st, env, arr, typeName, def, i + 1);
      assert arr.elements[i..][1..] == arr.elements[i + 1..];
    }
  }

  /** In a verified nonempty array every element keeps its kind, and every
      plain element is unchanged and has the declared element type. */
  lemma ArrayElementsMatch(st: Store, env: EnvId, arr: Value, typeName: string)
    requires arr.ArrayV? && |arr.elements| > 0 && VerifyArray(st, env, arr, typeName).Ok?
    ensures GetType(st, env, typeName).Ok?
    ensures forall j :: 0 <= j < |arr.elements| ==>
      ElementChecked(GetType(st, env, typeName).value.definition, VerifyArray(st, env, arr, typeName).value.elements[j], arr.elements[j])
  {
    var def := GetType(st, env, typeName).value.definition;
    ElementsChecked(st, env, arr, typeName, def, 0);
    assert arr.elements[0..] == arr.elements;
    forall j | 0 <= j < |arr.elements|
      ensures ElementChecked(def, VerifyArray(st, env, arr, typeName).value.elements[j], arr.elements[j])
    {
      ElementsAgreeAt(def, VerifyElements(st, env, arr, typeName, def, 0).value, arr.elements, j);
    }
  }

  /** What checking tuple member j guarantees. */
  predicate MemberChecked(def: Record<string>, j: nat, after: Value, before: Value)
  {
    Kind(after) == Kind(before)
    && (!IsComposite(before) ==> after == before && Lookup(def, NatText(j)) == Some(Kind(after)))
  }

  /** One step of the member check: the head is checked and the rest
      passes. */
  lemma MemberStep(st: Store, env: EnvId, tup: Value, def: Record<string>, i: nat)
    requires tup.TupleV? && i < |tup.members| && VerifyMembers(st, env, tup, def, i).Ok?
    ensures VerifyMembers(st, env, tup, def, i + 1).Ok?
    ensures VerifyMembers(st, env, tup, def, i).value
      == [VerifyMembers(st, env, tup, def, i).value[0]] + VerifyMembers(st, env, tup, def, i + 1).value
    ensures MemberChecked(def, i, VerifyMembers(st, env, tup, def, i).value[0], tup.members[i])
  {
  }

  /** Member-by-member agreement of a checked suffix, position i first. */
  predicate MembersAgree(def: Record<string>, i: nat, after: seq<Value>, before: seq<Value>)
    decreases |before|
  {
    |after| == |before|
    && (|before| > 0 ==> MemberChecked(def, i, after[0], before[0]) && MembersAgree(def, i + 1, after[1..], before[1..]))
  }

  lemma {:induction false} MembersAgreeAt(def: Record<string>, i: nat, after: seq<Value>, before: seq<Value>, k: nat)
    requires MembersAgree(def, i, after, before) && k < |before|
    ensures MemberChecked(def, i + k, after[k], before[k])
    decreases k
  {
    if k > 0 {
      MembersAgreeAt(def, i + 1, after[1..], before[1..], k - 1);
    }
  }

  lemma {:induction false} MembersChecked(st: Store, env: EnvId, tup: Value, def: Record<string>, i: nat)
    requires tup.TupleV? && i <= |tup.members| && VerifyMembers(st, env, tup, def, i).Ok?
    ensures MembersAgree(def, i, VerifyMembers(st, env, tup, def, i).value, tup.members[i..])
    decreases |tup.members| - i
  {
    if i < |tup.members| {
      MemberStep(st, env, tup, def, i);
      MembersChecked(st, env, tup, def, i + 1);
      assert tup.members[i..][1..] == tup.members[i + 1..];
    }
  }

  /** A verified tuple has as many members as the type declares; member j
      keeps its kind, and a plain member j is unchanged and has the kind
      declared under key j. */
  lemma TupleMembersMatch(st: Store, env: EnvId, tup: Value, typeName: string)
    requires tup.TupleV? && VerifyTuple(st, env, tup, typeName).Ok?
    ensures GetType(st, env, typeName).Ok? && GetType(st, env, typeName).value.definition.Some?
    ensures |tup.members| == |GetType(st, env, typeName).value.definition.value|
    ensures forall j :: 0 <= j < |tup.members| ==>
      MemberChecked(GetType(st, env, typeName).value.definition.value, j, VerifyTuple(st, env, tup, typeName).value.members[j], tup.members[j])
  {
    var def := GetType(st, env, typeName).value.definition.value;
    MembersChecked(st, env, tup, def, 0);
    assert tup.members[0..] == tup.members;
    forall j | 0 <= j < |tup.members|
      ensures MemberChecked(def, j, VerifyTuple(st, env, tup, typeName).value.members[j], tup.members[j])
    {
      MembersAgreeAt(def, 0, VerifyMembers(st, env, tup, def, 0).value, tup.members, j);
    }
  }

  /** A tuple whose length differs from the declared member count fails
      with both lengths in the message. */
  lemma TupleLengthRejected(st: Store, env: EnvId, tup: Value, typeName: string, def: Record<string>)
    requires tup.TupleV? && GetType(st, env, typeName).Ok? && GetType(st, env, typeName).value.definition == Some(def)
    requires |tup.members| != |def|
    ensures VerifyTuple(st, env, tup, typeName)
      == Err(InterpreterError("Invalid tuple length: " + NatText(|tup.members|) + " expected " + NatText(|def|)))
  {
  }

  /** The declaration check against a defined type: a plain value passes
      exactly when its kind is the expected one, and is then unchanged; a
      verified object or array carries the type name, a verified tuple
      keeps its member types; every result keeps the value's kind. */
  lemma VerifyTypeRule(st: Store, env: EnvId, value: Value, typeName: string, expected: string)
    requires IsDefinedIn(st, env, typeName, TypeSpace)
    ensures !IsComposite(value) ==>
      (VerifyType(st, env, value, typeName, expected).Ok? <==> Kind(value) == expected)
    ensures !IsComposite(value) && VerifyType(st, env, value, typeName, expected).Ok? ==>
      VerifyType(st, env, value, typeName, expected).value == value
    ensures VerifyType(st, env, value, typeName, expected).Ok? ==>
      Kind(VerifyType(st, env, value, typeName, expected).value) == Kind(value)
    ensures (IsObject(value) || value.ArrayV?) && VerifyType(st, env, value, typeName, expected).Ok? ==>
      VerifyType(st, env, value, typeName, expected).value.typeOf == typeName
    ensures value.TupleV? && VerifyType(st, env, value, typeName, expected).Ok? ==>
      VerifyType(st, env, value, typeName, expected).value.memberTypes == value.memberTypes
  {
  }
}
