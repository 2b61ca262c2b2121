// Runtime values, type definitions, the errors an evaluation can raise, and
// the escape decoding every STRING value goes through when it is built.
module Values {
  import opened Wrappers
  import opened Strings
  import opened Ast

  // The kind names a value reports as its `type`. They double as the names
  // of the standard types registered in the root scope.
  const STRING := "STRING"
  const NUMBER := "NUMBER"
  const BOOL := "BOOL"
  const NULL := "NULL"
  const FUNC := "FUNC"
  const NATIVE_FUNCTION := "NATIVE_FUNCTION"
  const ARRAY := "ARRAY"
  const OBJECT := "OBJECT"
  const VOID := "VOID"
  const ANY := "ANY"
  const TYPE := "TYPE"
  const TUPLE := "TUPLE"

  /** The names no variable or function may take. */
  const PrimitiveTypes: set<string> := {STRING, NUMBER, BOOL, NULL, VOID, ANY}

  /** An ordered record from names to values: a JavaScript Map or object
      literal, whose keys keep their first insertion position. */
  type Record<V> = seq<(string, V)>

  function Keys<V>(m: Record<V>): (ks: seq<string>)
    ensures |ks| == |m|
  {
    if m == [] then [] else [m[0].0] + Keys(m[1..])
  }

  /** The value stored under k, if any. */
  function Lookup<V>(m: Record<V>, k: string): Option<V>
  {
    if m == [] then None
    else if m[0].0 == k then Some(m[0].1)
    else Lookup(m[1..], k)
  }

  /** `map.set(k, v)`: an existing key keeps its position and takes the new
      value, a new key goes last. */
  function Put<V>(m: Record<V>, k: string, v: V): Record<V>
  {
    if m == [] then [(k, v)]
    else if m[0].0 == k then [(k, v)] + m[1..]
    else [m[0]] + Put(m[1..], k, v)
  }

  lemma {:induction false} LookupPut<V>(m: Record<V>, k: string, v: V, j: string)
    ensures Lookup(Put(m, k, v), j) == if j == k then Some(v) else Lookup(m, j)
  {
    if m != [] && m[0].0 != k {
      LookupPut(m[1..], k, v, j);
    }
  }

  lemma {:induction false} KeysPut<V>(m: Record<V>, k: string, v: V)
    ensures Keys(Put(m, k, v)) == if k in Keys(m) then Keys(m) else Keys(m) + [k]
  {
    if m != [] && m[0].0 != k {
      KeysPut(m[1..], k, v);
    }
  }

  lemma {:induction false} LookupKeys<V>(m: Record<V>, k: string)
    ensures Lookup(m, k).Some? <==> k in Keys(m)
  {
    if m != [] {
      LookupKeys(m[1..], k);
    }
  }

  /** A registered type: its kind (TYPE, TUPLE, ARRAY or a standard kind)
      and its member map, absent for the standard types. */
  datatype TypeDef = TypeDef(kind: string, definition: Option<Record<string>>)

  /** A runtime value. An `ObjectV` or `WrapperV` is an OBJECT; a wrapper is
      the object an identifier builds around a non-object payload. */
  datatype Value =
    | VoidV
    | StringV(text: string)
    | NumberV(number: real)
    | BoolV(flag: bool)
    | NullV
    | FunctionV(name: string, params: seq<Param>, body: Expr, returnType: string, closure: Option<nat>)
    | NativeFunctionV(name: string, params: seq<Param>, returnType: string)
    | ArrayV(elements: seq<Value>, typeOf: string)
    | TupleV(members: seq<Value>, memberTypes: seq<string>)
    | ObjectV(fields: Record<Value>, typeOf: string)
    | TypeV(def: TypeDef)
    | WrapperV(payload: Value, typeOf: string)

  /** The value's `type`. */
  function Kind(v: Value): string
  {
    match v
    case VoidV => VOID
    case StringV(_) => STRING
    case NumberV(_) => NUMBER
    case BoolV(_) => BOOL
    case NullV => NULL
    case FunctionV(_, _, _, _, _) => FUNC
    case NativeFunctionV(_, _, _) => NATIVE_FUNCTION
    case ArrayV(_, _) => ARRAY
    case TupleV(_, _) => TUPLE
    case ObjectV(_, _) => OBJECT
    case TypeV(_) => TYPE
    case WrapperV(_, _) => OBJECT
  }

  /** `instanceof ObjectValue`. */
  predicate IsObject(v: Value)
  {
    v.ObjectV? || v.WrapperV?
  }

  lemma ObjectKind(v: Value)
    ensures IsObject(v) <==> Kind(v) == OBJECT
  {
  }

  /** The errors an evaluation raises. `HostError` stands for a failure of
      the host language itself (a missing method, a property of undefined);
      `OutOfFuel` is the model's bound on evaluation steps. */
  datatype Error =
    | EnvironmentError(message: string)
    | InterpreterError(message: string)
    | HostError(message: string)
    | OutOfFuel

  /** The text of a STRING value built from s: six global replacements, in
      this order, of the pairs \n \t \r \' \" \\ by the character they
      denote. */
  function Unescape(s: string): string
  {
    var s1 := ReplaceAll(s, ['\\', 'n'], ['\n']);
    var s2 := ReplaceAll(s1, ['\\', 't'], ['\t']);
    var s3 := ReplaceAll(s2, ['\\', 'r'], ['\r']);
    var s4 := ReplaceAll(s3, ['\\', '\''], ['\'']);
    var s5 := ReplaceAll(s4, ['\\', '"'], ['"']);
    ReplaceAll(s5, ['\\', '\\'], ['\\'])
  }

  /** A two-character pattern starting with a backslash cannot occur in a
      text without backslashes. */
  lemma {:induction false} NoBackslashNoPair(s: string, c: char)
    requires '\\' !in s
    ensures !Contains(s, ['\\', c])
    decreases |s|
  {
    if s != [] {
      assert s[0] in s;
      assert forall x :: x in s[1..] ==> x in s;
      NoBackslashNoPair(s[1..], c);
      assert |s| < 2 || s[..2][0] != '\\';
    }
  }

  /** Text without a backslash is left as it is. */
  lemma UnescapePlain(s: string)
    requires '\\' !in s
    ensures Unescape(s) == s
  {
    NoBackslashNoPair(s, 'n');
    ReplaceAbsent(s, ['\\', 'n'], ['\n']);
    NoBackslashNoPair(s, 't');
    ReplaceAbsent(s, ['\\', 't'], ['\t']);
    NoBackslashNoPair(s, 'r');
    ReplaceAbsent(s, ['\\', 'r'], ['\r']);
    NoBackslashNoPair(s, '\'');
    ReplaceAbsent(s, ['\\', '\''], ['\'']);
    NoBackslashNoPair(s, '"');
    ReplaceAbsent(s, ['\\', '"'], ['"']);
    NoBackslashNoPair(s, '\\');
    ReplaceAbsent(s, ['\\', '\\'], ['\\']);
  }

  /** Replacing a pattern by a shorter text never lengthens the string. */
  lemma {:induction false} ReplaceShortens(s: string, pat: string, rep: string)
    requires |pat| > 0 && |rep| <= |pat|
    ensures |ReplaceAll(s, pat, rep)| <= |s|
    decreases |s|
  {
    if s != [] {
      if HasPrefix(s, pat) {
        ReplaceShortens(s[|pat|..], pat, rep);
      } else {
        ReplaceShortens(s[1..], pat, rep);
      }
    }
  }

  /** Decoding never makes a text longer. */
  lemma UnescapeShortens(s: string)
    ensures |Unescape(s)| <= |s|
  {
    var s1 := ReplaceAll(s, ['\\', 'n'], ['\n']);
    var s2 := ReplaceAll(s1, ['\\', 't'], ['\t']);
    var s3 := ReplaceAll(s2, ['\\', 'r'], ['\r']);
    var s4 := ReplaceAll(s3, ['\\', '\''], ['\'']);
    var s5 := ReplaceAll(s4, ['\\', '"'], ['"']);
    ReplaceShortens(s, ['\\', 'n'], ['\n']);
    ReplaceShortens(s1, ['\\', 't'], ['\t']);
    ReplaceShortens(s2, ['\\', 'r'], ['\r']);
    ReplaceShortens(s3, ['\\', '\''], ['\'']);
    ReplaceShortens(s4, ['\\', '"'], ['"']);
    ReplaceShortens(s5, ['\\', '\\'], ['\\']);
  }

  /** Each escape pair on its own decodes to the character it names. */
  lemma UnescapeNewline()
    ensures Unescape(['\\', 'n']) == ['\n']
  {
    assert HasPrefix(['\\', 'n'], ['\\', 'n']);
    UnescapePlain(['\n']);
  }

  lemma UnescapeQuote()
    ensures Unescape(['\\', '"']) == ['"']
  {
    var s := ['\\', '"'];
    NoBackslashNoPair(s[1..], 'n');
    assert ReplaceAll(s, ['\\', 'n'], ['\n']) == s;
    assert ReplaceAll(s, ['\\', 't'], ['\t']) == s;
    assert ReplaceAll(s, ['\\', 'r'], ['\r']) == s;
    assert ReplaceAll(s, ['\\', '\''], ['\'']) == s;
    assert HasPrefix(s, ['\\', '"']);
  }

  lemma UnescapeBackslash()
    ensures Unescape(['\\', '\\']) == ['\\']
  {
    var s := ['\\', '\\'];
    assert ReplaceAll(s, ['\\', 'n'], ['\n']) == s;
    assert ReplaceAll(s, ['\\', 't'], ['\t']) == s;
    assert ReplaceAll(s, ['\\', 'r'], ['\r']) == s;
    assert ReplaceAll(s, ['\\', '\''], ['\'']) == s;
    assert ReplaceAll(s, ['\\', '"'], ['"']) == s;
    assert HasPrefix(s, ['\\', '\\']);
  }

  /** The StringValue constructor: `value` is reassigned by one replacement
      after another. */
  method NewStringValue(s: string) returns (v: Value)
    ensures v.StringV? && v.text == Unescape(s)
    ensures '\\' !in s ==> v == StringV(s)
  {
    var text := ReplaceAll(s, ['\\', 'n'], ['\n']);
    text := ReplaceAll(text, ['\\', 't'], ['\t']);
    text := ReplaceAll(text, ['\\', 'r'], ['\r']);
    text := ReplaceAll(text, ['\\', '\''], ['\'']);
    text := ReplaceAll(text, ['\\', '"'], ['"']);
    text := ReplaceAll(text, ['\\', '\\'], ['\\']);
    v := StringV(text);
    if '\\' !in s {
      UnescapePlain(s);
    }
  }
}
