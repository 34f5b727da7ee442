/**
  Schema-driven coercion of wire strings (lib/RouteSchemaManager.js,
  `convertValueFromStringToType` and `convertPropertyTypesToMatchSchema`).

  `Coerce` is the value the engine computes and `CoerceThrows` says when the
  JavaScript code raises a TypeError on the way (reading a property of a
  null or undefined schema, or asking whether `null` owns a declared
  property). The method `ConvertPropertyTypesToMatchSchema` follows the
  source's loops and is proved to agree with both.
 */
module Coercion {
  import opened Json

  /** `convertValueFromStringToType(value, type)`, where `1 * s` is `toNumber(s)`. */
  function ConvertValueFromStringToType(value: JValue, t: JValue, toNumber: string -> NumResult): (r: JValue)
    // a non-string, or a string whose target type is `string`, is returned as is
    ensures !value.JStr? || t == JStr("string") ==> r == value
    // only strings change, and they become numbers or booleans
    ensures r != value ==> value.JStr? && (r.JNum? || r.JBool?)
  {
    if !value.JStr? || t == JStr("string") then value
    else if t == JStr("integer") || t == JStr("number") then
      match toNumber(value.s)
      case NonZero(x) => JNum(x)
      case Zero => if t == JStr("number") || '.' !in value.s then JNum(0.0) else value
      case NaN => value
    else if t == JStr("boolean") then
      if value.s == "true" then JBool(true)
      else if value.s == "false" then JBool(false)
      else value
    else value
  }

  /** What `convertValueFromStringToType` does with a string, type by type. */
  lemma ConvertValueCases(value: JValue, t: JValue, toNumber: string -> NumResult)
    ensures var r := ConvertValueFromStringToType(value, t, toNumber);
      && (r.JNum? && r != value ==> t == JStr("integer") || t == JStr("number"))
      && (r.JBool? && r != value ==> t == JStr("boolean"))
      // booleans: exactly the two literals convert
      && (value.JStr? && t == JStr("boolean") ==>
            (r == JBool(true) <==> value.s == "true") && (r == JBool(false) <==> value.s == "false"))
      // numbers: a non-zero number always wins, even with a decimal part under `integer`;
      // zero is kept only for `number` or for a string without a '.'
      && (value.JStr? && (t == JStr("integer") || t == JStr("number")) ==>
            && (toNumber(value.s).NonZero? ==> r == JNum(toNumber(value.s).value))
            && (toNumber(value.s).NaN? ==> r == value)
            && (toNumber(value.s).Zero? ==>
                  (r == JNum(0.0) <==> t == JStr("number") || '.' !in value.s)
                  && (r != JNum(0.0) ==> r == value)))
  {
  }

  /** A converted leaf does not convert again. */
  lemma ConvertIdempotent(value: JValue, t: JValue, toNumber: string -> NumResult)
    ensures ConvertValueFromStringToType(ConvertValueFromStringToType(value, t, toNumber), t, toNumber)
         == ConvertValueFromStringToType(value, t, toNumber)
  {
  }

  /** The item types for which a lone string is wrapped into an array. */
  predicate ScalarItemType(t: JValue)
  {
    t == JStr("string") || t == JStr("number") || t == JStr("integer") || t == JStr("boolean")
  }

  /** The first step of `convertPropertyTypesToMatchSchema`: should `value` become `[value]`? */
  predicate Wraps(value: JValue, schema: JValue, forceArrayConversion: bool)
  {
    && forceArrayConversion
    && IsType(schema, "array")
    && value.JStr?
    && Truthy(Prop(schema, "items"))
    && ScalarItemType(Prop(Prop(schema, "items"), "type"))
  }

  /** The value after the optional wrapping. */
  function Wrapped(value: JValue, schema: JValue, forceArrayConversion: bool): JValue
  {
    if Wraps(value, schema, forceArrayConversion) then JArr([value]) else value
  }

  /** The object branch is taken. */
  predicate ObjectBranch(w: JValue, schema: JValue)
  {
    IsType(schema, "object") && TypeofObject(w) && Truthy(Prop(schema, "properties"))
  }

  /** The array branch is taken (when the object branch is not). */
  predicate ArrayBranch(w: JValue, schema: JValue)
  {
    IsType(schema, "array") && w.JArr? && Truthy(Prop(schema, "items"))
  }

  /** `schema.properties` is truthy, so it is a field of `schema` and smaller. */
  lemma PropsSmaller(schema: JValue, k: string)
    requires Truthy(Prop(schema, k))
    ensures Prop(schema, k) < schema
  {
  }

  /**
    The value `convertPropertyTypesToMatchSchema` returns. Declared
    properties of an object, and the elements of an array, are coerced
    against their sub-schemas; the elements are coerced once per own key of
    `items`, which is the same as once (see `CoerceIdempotent`).
   */
  function Coerce(value: JValue, schema: JValue, forceArrayConversion: bool, toNumber: string -> NumResult): (r: JValue)
    // objects keep their keys in order, arrays their length
    ensures value.JObj? ==> r.JObj? && KeysOf(r.fields) == KeysOf(value.fields)
    ensures value.JArr? ==> r.JArr? && |r.elems| == |value.elems|
    // a non-array becomes an array only by wrapping a string
    ensures r.JArr? && !value.JArr? ==> Wraps(value, schema, forceArrayConversion) && |r.elems| == 1
    // null, booleans, numbers and streams are never changed
    ensures !value.JObj? && !value.JArr? && !value.JStr? ==> r == value
    decreases schema, 1
  {
    var w := Wrapped(value, schema, forceArrayConversion);
    var props := Prop(schema, "properties");
    var items := Prop(schema, "items");
    if ObjectBranch(w, schema) then
      if w.JObj? && props.JObj? then JObj(CoerceFields(w.fields, props, forceArrayConversion, toNumber))
      else w
    else if ArrayBranch(w, schema) then
      if OwnKeyCount(items) == 0 then w
      else JArr(CoerceAll(w.elems, items, forceArrayConversion, toNumber))
    else ConvertValueFromStringToType(w, Prop(schema, "type"), toNumber)
  }

  /** The own fields of an object after its declared properties are coerced. */
  function CoerceFields(fs: Fields, props: JValue, forceArrayConversion: bool, toNumber: string -> NumResult): (r: Fields)
    requires props.JObj?
    ensures |r| == |fs| && forall i :: 0 <= i < |fs| ==> r[i].0 == fs[i].0
    decreases props, 2
  {
    seq(|fs|, i requires 0 <= i < |fs| =>
      if fs[i].0 in KeysOf(props.fields)
      then (fs[i].0, Coerce(fs[i].1, Prop(props, fs[i].0), forceArrayConversion, toNumber))
      else fs[i])
  }

  /** The elements of an array, each coerced against `items`. */
  function CoerceAll(es: seq<JValue>, items: JValue, forceArrayConversion: bool, toNumber: string -> NumResult): (r: seq<JValue>)
    ensures |r| == |es|
    decreases items, 2
  {
    seq(|es|, i requires 0 <= i < |es| => Coerce(es[i], items, forceArrayConversion, toNumber))
  }

  /** Some own field of `fs` that `props` declares raises an error when coerced. */
  predicate DeclaredFieldThrows(fs: Fields, props: JValue, forceArrayConversion: bool)
    requires props.JObj?
    decreases props, 1
  {
    exists i :: 0 <= i < |fs| && fs[i].0 in KeysOf(props.fields)
      && CoerceThrows(fs[i].1, Prop(props, fs[i].0), forceArrayConversion)
  }

  /** When `convertPropertyTypesToMatchSchema` raises a TypeError. */
  predicate CoerceThrows(value: JValue, schema: JValue, forceArrayConversion: bool)
    decreases schema, 0
  {
    if schema.JNull? || schema.JUndefined? then true
    else
      var w := Wrapped(value, schema, forceArrayConversion);
      var props := Prop(schema, "properties");
      var items := Prop(schema, "items");
      if ObjectBranch(w, schema) then
        || (w.JNull? && OwnKeyCount(props) > 0)
        || (w.JObj? && props.JObj? && DeclaredFieldThrows(w.fields, props, forceArrayConversion))
      else if ArrayBranch(w, schema) then
        OwnKeyCount(items) > 0 && exists i :: 0 <= i < |w.elems| && CoerceThrows(w.elems[i], items, forceArrayConversion)
      else false
  }

  /** In the object branch, a field the schema does not declare keeps its value. */
  lemma UndeclaredFieldUnchanged(value: JValue, schema: JValue, force: bool, toNumber: string -> NumResult, i: int)
    requires value.JObj? && 0 <= i < |value.fields|
    requires !Prop(schema, "properties").JObj? || value.fields[i].0 !in KeysOf(Prop(schema, "properties").fields)
    ensures Coerce(value, schema, force, toNumber).fields[i] == value.fields[i]
  {
  }

  /** In the object branch, a declared field is coerced against its own sub-schema. */
  lemma DeclaredFieldCoerced(value: JValue, schema: JValue, force: bool, toNumber: string -> NumResult, i: int)
    requires value.JObj? && 0 <= i < |value.fields|
    requires IsType(schema, "object")
    requires Prop(schema, "properties").JObj? && value.fields[i].0 in KeysOf(Prop(schema, "properties").fields)
    ensures Coerce(value, schema, force, toNumber).fields[i]
         == (value.fields[i].0, Coerce(value.fields[i].1, Prop(Prop(schema, "properties"), value.fields[i].0), force, toNumber))
  {
  }

  /** A wrapped string is the one-element array of its coerced self. */
  lemma WrapThenCoerce(s: string, schema: JValue, force: bool, toNumber: string -> NumResult)
    requires Wraps(JStr(s), schema, force)
    ensures Coerce(JStr(s), schema, force, toNumber) == JArr([Coerce(JStr(s), Prop(schema, "items"), force, toNumber)])
  {
    var items := Prop(schema, "items");
    var w := JArr([JStr(s)]);
    assert Wrapped(JStr(s), schema, force) == w;
    assert !ObjectBranch(w, schema) && ArrayBranch(w, schema);
    assert Prop(items, "type") != JUndefined;
    assert OwnKeyCount(items) > 0;
    var c := CoerceAll(w.elems, items, force, toNumber);
    assert c[0] == Coerce(JStr(s), items, force, toNumber);
    assert c == [Coerce(JStr(s), items, force, toNumber)];
  }

  /** Without the flag a string never turns into an array. */
  lemma NoWrapWithoutForce(value: JValue, schema: JValue, toNumber: string -> NumResult)
    requires !value.JArr?
    ensures !Coerce(value, schema, false, toNumber).JArr?
  {
  }

  /** A value that is not a string is never wrapped. */
  lemma CoercedNotWrapped(value: JValue, schema: JValue, force: bool, toNumber: string -> NumResult)
    ensures !Wraps(Coerce(value, schema, force, toNumber), schema, force)
  {
    var r := Coerce(value, schema, force, toNumber);
    if Wraps(value, schema, force) {
      assert r.JArr?;
    } else if value.JStr? {
      assert !r.JStr? || r == value;
    }
  }

  /**
    Coercing a coerced value changes nothing. This is why coercing the
    elements of an array once per key of `items` gives the same array as
    coercing them once.
   */
  lemma {:induction false} CoerceIdempotent(value: JValue, schema: JValue, force: bool, toNumber: string -> NumResult)
    ensures Coerce(Coerce(value, schema, force, toNumber), schema, force, toNumber) == Coerce(value, schema, force, toNumber)
    decreases schema, 1
  {
    var w := Wrapped(value, schema, force);
    var r := Coerce(value, schema, force, toNumber);
    var props := Prop(schema, "properties");
    var items := Prop(schema, "items");
    CoercedNotWrapped(value, schema, force, toNumber);
    assert Wrapped(r, schema, force) == r;
    if ObjectBranch(w, schema) {
      assert ObjectBranch(r, schema);
      if w.JObj? && props.JObj? {
        PropsSmaller(schema, "properties");
        CoerceFieldsIdempotent(w.fields, props, force, toNumber);
      }
    } else if ArrayBranch(w, schema) {
      assert !ObjectBranch(r, schema) && ArrayBranch(r, schema);
      if OwnKeyCount(items) > 0 {
        PropsSmaller(schema, "items");
        CoerceAllIdempotent(w.elems, items, force, toNumber);
      }
    } else {
      ConvertIdempotent(w, Prop(schema, "type"), toNumber);
    }
  }

  lemma {:induction false} CoerceFieldsIdempotent(fs: Fields, props: JValue, force: bool, toNumber: string -> NumResult)
    requires props.JObj?
    ensures CoerceFields(CoerceFields(fs, props, force, toNumber), props, force, toNumber) == CoerceFields(fs, props, force, toNumber)
    decreases props, 2
  {
    var once := CoerceFields(fs, props, force, toNumber);
    var twice := CoerceFields(once, props, force, toNumber);
    forall i | 0 <= i < |fs| ensures twice[i] == once[i] {
      if fs[i].0 in KeysOf(props.fields) {
        CoerceIdempotent(fs[i].1, Prop(props, fs[i].0), force, toNumber);
      }
    }
  }

  lemma {:induction false} CoerceAllIdempotent(es: seq<JValue>, items: JValue, force: bool, toNumber: string -> NumResult)
    ensures CoerceAll(CoerceAll(es, items, force, toNumber), items, force, toNumber) == CoerceAll(es, items, force, toNumber)
    decreases items, 2
  {
    var once := CoerceAll(es, items, force, toNumber);
    forall i | 0 <= i < |es| ensures CoerceAll(once, items, force, toNumber)[i] == once[i] {
      CoerceIdempotent(es[i], items, force, toNumber);
    }
  }

  /** A value that coerced without an error coerces again without an error. */
  lemma {:induction false} CoercedDoesNotThrow(value: JValue, schema: JValue, force: bool, toNumber: string -> NumResult)
    requires !CoerceThrows(value, schema, force)
    ensures !CoerceThrows(Coerce(value, schema, force, toNumber), schema, force)
    decreases schema, 1
  {
    var w := Wrapped(value, schema, force);
    var props := Prop(schema, "properties");
    var items := Prop(schema, "items");
    CoercedNotWrapped(value, schema, force, toNumber);
    if ObjectBranch(w, schema) {
      if w.JObj? && props.JObj? {
        PropsSmaller(schema, "properties");
        CoercedFieldsDoNotThrow(w.fields, props, force, toNumber);
      }
    } else if ArrayBranch(w, schema) {
      if OwnKeyCount(items) > 0 {
        PropsSmaller(schema, "items");
        CoercedAllDoNotThrow(w.elems, items, force, toNumber);
      }
    }
  }

  lemma {:induction false} CoercedFieldsDoNotThrow(fs: Fields, props: JValue, force: bool, toNumber: string -> NumResult)
    requires props.JObj? && !DeclaredFieldThrows(fs, props, force)
    ensures !DeclaredFieldThrows(CoerceFields(fs, props, force, toNumber), props, force)
    decreases props, 2
  {
    var once := CoerceFields(fs, props, force, toNumber);
    forall i | 0 <= i < |fs| && once[i].0 in KeysOf(props.fields)
      ensures !CoerceThrows(once[i].1, Prop(props, once[i].0), force)
    {
      CoercedDoesNotThrow(fs[i].1, Prop(props, fs[i].0), force, toNumber);
    }
  }

  lemma {:induction false} CoercedAllDoNotThrow(es: seq<JValue>, items: JValue, force: bool, toNumber: string -> NumResult)
    requires forall i :: 0 <= i < |es| ==> !CoerceThrows(es[i], items, force)
    ensures forall i :: 0 <= i < |es| ==> !CoerceThrows(CoerceAll(es, items, force, toNumber)[i], items, force)
    decreases items, 2
  {
    forall i | 0 <= i < |es| ensures !CoerceThrows(CoerceAll(es, items, force, toNumber)[i], items, force) {
      CoercedDoesNotThrow(es[i], items, force, toNumber);
    }
  }

  /** Coercion keeps every object's keys distinct. */
  lemma {:induction false} CoerceKeepsWellFormed(value: JValue, schema: JValue, force: bool, toNumber: string -> NumResult)
    requires WellFormed(value)
    ensures WellFormed(Coerce(value, schema, force, toNumber))
    decreases schema, 1
  {
    var w := Wrapped(value, schema, force);
    var props := Prop(schema, "properties");
    var items := Prop(schema, "items");
    assert WellFormed(w);
    if ObjectBranch(w, schema) {
      if w.JObj? && props.JObj? {
        PropsSmaller(schema, "properties");
        CoerceFieldsKeepWellFormed(w.fields, props, force, toNumber);
      }
    } else if ArrayBranch(w, schema) {
      if OwnKeyCount(items) > 0 {
        PropsSmaller(schema, "items");
        CoerceAllKeepsWellFormed(w.elems, items, force, toNumber);
      }
    }
  }

  lemma {:induction false} CoerceFieldsKeepWellFormed(fs: Fields, props: JValue, force: bool, toNumber: string -> NumResult)
    requires props.JObj? && WellFormed(JObj(fs))
    ensures WellFormed(JObj(CoerceFields(fs, props, force, toNumber)))
    decreases props, 2
  {
    var r := CoerceFields(fs, props, force, toNumber);
    forall i | 0 <= i < |r| ensures WellFormed(r[i].1) {
      if fs[i].0 in KeysOf(props.fields) {
        CoerceKeepsWellFormed(fs[i].1, Prop(props, fs[i].0), force, toNumber);
      }
    }
    assert DistinctKeys(r) by {
      forall i, j | 0 <= i < j < |r| ensures r[i].0 != r[j].0 {
        assert r[i].0 == fs[i].0 && r[j].0 == fs[j].0;
      }
    }
  }

  lemma {:induction false} CoerceAllKeepsWellFormed(es: seq<JValue>, items: JValue, force: bool, toNumber: string -> NumResult)
    requires forall i :: 0 <= i < |es| ==> WellFormed(es[i])
    ensures forall i :: 0 <= i < |es| ==> WellFormed(CoerceAll(es, items, force, toNumber)[i])
    decreases items, 2
  {
    forall i | 0 <= i < |es| ensures WellFormed(CoerceAll(es, items, force, toNumber)[i]) {
      CoerceKeepsWellFormed(es[i], items, force, toNumber);
    }
  }

  /** The outcome of coercing every element of an array against `items` once. */
  function CoerceElementsOutcome(es: seq<JValue>, items: JValue, force: bool, toNumber: string -> NumResult): (r: Outcome<seq<JValue>>)
    ensures r.Throws? <==> exists i :: 0 <= i < |es| && CoerceThrows(es[i], items, force)
  {
    if exists i :: 0 <= i < |es| && CoerceThrows(es[i], items, force) then Throws(TypeError)
    else Returns(CoerceAll(es, items, force, toNumber))
  }

  /** When no element raises, each element is converted against `items` and the length is kept. */
  lemma ElementsOutcomeReturns(es: seq<JValue>, items: JValue, force: bool, toNumber: string -> NumResult, i: int)
    requires CoerceElementsOutcome(es, items, force, toNumber).Returns? && 0 <= i < |es|
    ensures |CoerceElementsOutcome(es, items, force, toNumber).value| == |es|
    ensures CoerceElementsOutcome(es, items, force, toNumber).value[i] == Coerce(es[i], items, force, toNumber)
  {
  }

  /**
    What a surface holds after the validator calls
    `convertPropertyTypesToMatchSchema` on it and discards the result: an
    object or array is converted in place, any other root stays as it was.
   */
  function CoerceInPlace(value: JValue, schema: JValue, force: bool, toNumber: string -> NumResult): (r: Outcome<JValue>)
    ensures r.Throws? <==> CoerceThrows(value, schema, force)
    ensures r.Returns? && (value.JObj? || value.JArr?) ==> r.value == Coerce(value, schema, force, toNumber)
    ensures r.Returns? && !value.JObj? && !value.JArr? ==> r.value == value
  {
    if CoerceThrows(value, schema, force) then Throws(TypeError)
    else if value.JObj? || value.JArr? then Returns(Coerce(value, schema, force, toNumber))
    else Returns(value)
  }

  /** Coercing a surface twice leaves it as coercing it once. */
  lemma CoerceInPlaceIdempotent(value: JValue, schema: JValue, force: bool, toNumber: string -> NumResult)
    requires CoerceInPlace(value, schema, force, toNumber).Returns?
    ensures CoerceInPlace(CoerceInPlace(value, schema, force, toNumber).value, schema, force, toNumber)
         == CoerceInPlace(value, schema, force, toNumber)
  {
    if value.JObj? || value.JArr? {
      CoerceIdempotent(value, schema, force, toNumber);
      CoercedDoesNotThrow(value, schema, force, toNumber);
    }
  }

  // ----- what a raised TypeError leaves behind -----

  /** The declared key `k` is owned by the object and coercing its value raises. */
  predicate KeyThrows(fs: Fields, props: JValue, k: string, force: bool)
  {
    k in KeysOf(fs) && CoerceThrows(Lookup(fs, k).value, Prop(props, k), force)
  }

  /** The position in `pks` of the first key whose coercion raises, or `|pks|` when none does (see `FirstThrowingKeyIs`). */
  function FirstThrowingKey(fs: Fields, props: JValue, pks: seq<string>, force: bool): (t: nat)
    ensures t <= |pks|
  {
    FirstTrue(seq(|pks|, m requires 0 <= m < |pks| => KeyThrows(fs, props, pks[m], force)), 0)
  }

  /**
    The index of the first element whose coercion raises, or `|es|` when
    none does (see `FirstThrowingElementIs`).
   */
  function FirstThrowingElement(es: seq<JValue>, items: JValue, force: bool): (t: nat)
    ensures t <= |es|
  {
    FirstTrue(ThrowFlags(es, items, force), 0)
  }

  /** Whether each element's coercion raises. */
  function ThrowFlags(es: seq<JValue>, items: JValue, force: bool): (r: seq<bool>)
    ensures |r| == |es|
  {
    seq(|es|, m requires 0 <= m < |es| => CoerceThrows(es[m], items, force))
  }

  /** The index of the first `true` from `i` on, or `|flags|`. */
  function FirstTrue(flags: seq<bool>, i: nat): (t: nat)
    requires i <= |flags|
    ensures i <= t <= |flags|
    decreases |flags| - i
  {
    if i == |flags| || flags[i] then i else FirstTrue(flags, i + 1)
  }

  /**
    What the caller's `object` holds once `convertPropertyTypesToMatchSchema`
    has raised on it. Objects and arrays are converted in place: the fields
    (in the order of `schema.properties`) and the elements visited before the
    one that raised are converted, that one holds what its own call left
    behind, and the rest are untouched. A string wrapped into `[object]`
    is left as it was, since only the new array was being converted.
   */
  function CoercePartial(value: JValue, schema: JValue, force: bool, toNumber: string -> NumResult): (r: JValue)
    // the caller's object stays an object, its array an array
    ensures value.JObj? ==> r.JObj? && KeysOf(r.fields) == KeysOf(value.fields)
    ensures value.JArr? ==> r.JArr? && |r.elems| == |value.elems|
    decreases schema, 1
  {
    var props := Prop(schema, "properties");
    var items := Prop(schema, "items");
    if schema.JNull? || schema.JUndefined? || Wraps(value, schema, force) then value
    else if ObjectBranch(value, schema) then
      if value.JObj? && props.JObj? then JObj(PartialFields(value.fields, props, force, toNumber)) else value
    else if ArrayBranch(value, schema) && OwnKeyCount(items) > 0 then JArr(PartialElements(value.elems, items, force, toNumber))
    else value
  }

  /** The fields of an object whose property loop raised. */
  function PartialFields(fs: Fields, props: JValue, force: bool, toNumber: string -> NumResult): (r: Fields)
    requires props.JObj?
    ensures |r| == |fs| && forall i :: 0 <= i < |fs| ==> r[i].0 == fs[i].0
    decreases props, 2
  {
    var t := FirstThrowingKey(fs, props, KeysOf(props.fields), force);
    seq(|fs|, i requires 0 <= i < |fs| => PartialField(fs[i], props, t, force, toNumber))
  }

  /**
    One field after the property loop raised at declared key `t`: keys
    before `t` converted, key `t` partly converted, the rest untouched.
   */
  function PartialField(f: (string, JValue), props: JValue, t: nat, force: bool, toNumber: string -> NumResult): (r: (string, JValue))
    requires props.JObj? && t <= |props.fields|
    ensures r.0 == f.0
    decreases props, 1
  {
    var pks := KeysOf(props.fields);
    if f.0 in pks[..t] then (f.0, Coerce(f.1, Prop(props, f.0), force, toNumber))
    else if t < |pks| && f.0 == pks[t] then (f.0, CoercePartial(f.1, Prop(props, f.0), force, toNumber))
    else f
  }

  /** The elements of an array whose element loop raised. */
  function PartialElements(es: seq<JValue>, items: JValue, force: bool, toNumber: string -> NumResult): (r: seq<JValue>)
    ensures |r| == |es|
    decreases items, 2
  {
    var t := FirstThrowingElement(es, items, force);
    seq(|es|, m requires 0 <= m < |es| =>
      if m < t then Coerce(es[m], items, force, toNumber)
      else if m == t then CoercePartial(es[m], items, force, toNumber)
      else es[m])
  }

  /** The value left behind by a raise is still a well-formed JSON value. */
  lemma {:induction false} PartialKeepsWellFormed(value: JValue, schema: JValue, force: bool, toNumber: string -> NumResult)
    requires WellFormed(value)
    ensures WellFormed(CoercePartial(value, schema, force, toNumber))
    decreases schema, 1
  {
    var props := Prop(schema, "properties");
    var items := Prop(schema, "items");
    if schema.JNull? || schema.JUndefined? || Wraps(value, schema, force) {
    } else if ObjectBranch(value, schema) {
      if value.JObj? && props.JObj? {
        PropsSmaller(schema, "properties");
        PartialFieldsKeepWellFormed(value.fields, props, force, toNumber);
      }
    } else if ArrayBranch(value, schema) && OwnKeyCount(items) > 0 {
      PropsSmaller(schema, "items");
      PartialElementsKeepWellFormed(value.elems, items, force, toNumber);
    }
  }

  lemma {:induction false} PartialFieldsKeepWellFormed(fs: Fields, props: JValue, force: bool, toNumber: string -> NumResult)
    requires props.JObj? && WellFormed(JObj(fs))
    ensures WellFormed(JObj(PartialFields(fs, props, force, toNumber)))
    decreases props, 2
  {
    var r := PartialFields(fs, props, force, toNumber);
    var t := FirstThrowingKey(fs, props, KeysOf(props.fields), force);
    forall i | 0 <= i < |r| ensures WellFormed(r[i].1) {
      assert r[i] == PartialField(fs[i], props, t, force, toNumber);
      if fs[i].0 in KeysOf(props.fields) {
        CoerceKeepsWellFormed(fs[i].1, Prop(props, fs[i].0), force, toNumber);
        PartialKeepsWellFormed(fs[i].1, Prop(props, fs[i].0), force, toNumber);
      }
    }
    assert DistinctKeys(r) by {
      forall i, j | 0 <= i < j < |r| ensures r[i].0 != r[j].0 {
        assert r[i] == PartialField(fs[i], props, t, force, toNumber);
        assert r[j] == PartialField(fs[j], props, t, force, toNumber);
      }
    }
  }

  lemma {:induction false} PartialElementsKeepWellFormed(es: seq<JValue>, items: JValue, force: bool, toNumber: string -> NumResult)
    requires forall i :: 0 <= i < |es| ==> WellFormed(es[i])
    ensures forall i :: 0 <= i < |es| ==> WellFormed(PartialElements(es, items, force, toNumber)[i])
    decreases items, 2
  {
    forall i | 0 <= i < |es| ensures WellFormed(PartialElements(es, items, force, toNumber)[i]) {
      CoerceKeepsWellFormed(es[i], items, force, toNumber);
      PartialKeepsWellFormed(es[i], items, force, toNumber);
    }
  }

  /** The outcome of coercing the declared own fields of an object once each. */
  function CoerceFieldsOutcome(fs: Fields, props: JValue, force: bool, toNumber: string -> NumResult): (r: Outcome<Fields>)
    requires props.JObj?
    ensures r.Throws? <==> DeclaredFieldThrows(fs, props, force)
  {
    if DeclaredFieldThrows(fs, props, force) then Throws(TypeError)
    else Returns(CoerceFields(fs, props, force, toNumber))
  }

  /**
    When no declared field raises, the keys keep their order, a declared
    field is converted against its sub-schema and any other field is kept.
   */
  lemma FieldsOutcomeReturns(fs: Fields, props: JValue, force: bool, toNumber: string -> NumResult, i: int)
    requires props.JObj? && CoerceFieldsOutcome(fs, props, force, toNumber).Returns? && 0 <= i < |fs|
    ensures |CoerceFieldsOutcome(fs, props, force, toNumber).value| == |fs|
    ensures CoerceFieldsOutcome(fs, props, force, toNumber).value[i]
         == if fs[i].0 in KeysOf(props.fields) then (fs[i].0, Coerce(fs[i].1, Prop(props, fs[i].0), force, toNumber)) else fs[i]
  {
  }

  /**
    `convertPropertyTypesToMatchSchema(object, schema, forceArrayConversion)`.
    It returns the coerced value, or the TypeError the source raises; `after`
    is what the caller's `object` holds then, since objects and arrays are
    converted in place.
   */
  method ConvertPropertyTypesToMatchSchema(value: JValue, schema: JValue, forceArrayConversion: bool, toNumber: string -> NumResult)
    returns (r: Outcome<JValue>, after: JValue)
    requires WellFormed(value) && WellFormed(schema)
    ensures r == if CoerceThrows(value, schema, forceArrayConversion) then Throws(TypeError)
                 else Returns(Coerce(value, schema, forceArrayConversion, toNumber))
    // the caller's value afterwards: converted in place when it is an object or an array, partly converted on a raise
    ensures after == if r.Throws? then CoercePartial(value, schema, forceArrayConversion, toNumber)
                     else if value.JObj? || value.JArr? then r.value else value
    decreases schema, 0
  {
    if schema.JNull? || schema.JUndefined? {
      return Throws(TypeError), value;
    }
    var obj := value;
    if Wraps(obj, schema, forceArrayConversion) {
      obj := JArr([obj]);
    }
    if ObjectBranch(obj, schema) {
      PropsSmaller(schema, "properties");
      r, after := ConvertObject(value, schema, forceArrayConversion, toNumber);
      return;
    } else if ArrayBranch(obj, schema) {
      PropsSmaller(schema, "items");
      r, after := ConvertArray(value, schema, forceArrayConversion, toNumber);
      return;
    }
    return Returns(ConvertValueFromStringToType(obj, Prop(schema, "type"), toNumber)), value;
  }

  /** The object branch of `ConvertPropertyTypesToMatchSchema`. */
  method ConvertObject(value: JValue, schema: JValue, forceArrayConversion: bool, toNumber: string -> NumResult)
    returns (r: Outcome<JValue>, after: JValue)
    requires WellFormed(value) && WellFormed(schema)
    requires !schema.JNull? && !schema.JUndefined? && ObjectBranch(Wrapped(value, schema, forceArrayConversion), schema)
    ensures r == if CoerceThrows(value, schema, forceArrayConversion) then Throws(TypeError)
                 else Returns(Coerce(value, schema, forceArrayConversion, toNumber))
    ensures after == if r.Throws? then CoercePartial(value, schema, forceArrayConversion, toNumber)
                     else if value.JObj? || value.JArr? then r.value else value
    decreases Prop(schema, "properties"), 3
  {
    var obj := Wrapped(value, schema, forceArrayConversion);
    var props := Prop(schema, "properties");
    if obj.JNull? && OwnKeyCount(props) > 0 {
      return Throws(TypeError), value;
    }
    if obj.JObj? && props.JObj? {
      WellFormedProp(schema, "properties");
      var out, fs := CoerceDeclaredProperties(obj.fields, props, forceArrayConversion, toNumber);
      match out
      case Throws(e) => return Throws(e), JObj(fs);
      case Returns(v) => return Returns(JObj(v)), JObj(v);
    }
    return Returns(obj), value;
  }

  /** The array branch of `ConvertPropertyTypesToMatchSchema`, after a string may have been wrapped. */
  method ConvertArray(value: JValue, schema: JValue, forceArrayConversion: bool, toNumber: string -> NumResult)
    returns (r: Outcome<JValue>, after: JValue)
    requires WellFormed(value) && WellFormed(schema)
    requires !schema.JNull? && !schema.JUndefined?
    requires var obj := Wrapped(value, schema, forceArrayConversion); !ObjectBranch(obj, schema) && ArrayBranch(obj, schema)
    ensures r == if CoerceThrows(value, schema, forceArrayConversion) then Throws(TypeError)
                 else Returns(Coerce(value, schema, forceArrayConversion, toNumber))
    ensures after == if r.Throws? then CoercePartial(value, schema, forceArrayConversion, toNumber)
                     else if value.JObj? || value.JArr? then r.value else value
    decreases Prop(schema, "items"), 4
  {
    var obj := Wrapped(value, schema, forceArrayConversion);
    var items := Prop(schema, "items");
    WellFormedProp(schema, "items");
    if OwnKeyCount(items) == 0 {
      return Returns(obj), value;
    }
    var out, es := CoerceArrayElements(obj.elems, items, forceArrayConversion, toNumber);
    // `object = [object]` only rebound the local variable: a wrapped string stays as the caller holds it
    var held := if obj == value then JArr(es) else value;
    match out
    case Throws(e) => return Throws(e), held;
    case Returns(v) => return Returns(JArr(v)), held;
  }

  /** A field after the keys in `done` have been coerced. */
  function CoercedField(f: (string, JValue), props: JValue, done: seq<string>, force: bool, toNumber: string -> NumResult): (string, JValue)
  {
    if f.0 in done then (f.0, Coerce(f.1, Prop(props, f.0), force, toNumber)) else f
  }

  /**
    `for (prop in schema.properties) if (...hasOwnProperty) object[prop] = convert(...)`:
    each declared key that the object owns is coerced in place.
   */
  method CoerceDeclaredProperties(fields: Fields, props: JValue, forceArrayConversion: bool, toNumber: string -> NumResult)
    returns (r: Outcome<Fields>, after: Fields)
    requires props.JObj? && WellFormed(props)
    requires DistinctKeys(fields) && forall i :: 0 <= i < |fields| ==> WellFormed(fields[i].1)
    ensures r == CoerceFieldsOutcome(fields, props, forceArrayConversion, toNumber)
    ensures after == if r.Throws? then PartialFields(fields, props, forceArrayConversion, toNumber) else r.value
    decreases props, 1
  {
    var fs := fields;
    var pks := KeysOf(props.fields);
    var j := 0;
    while j < |pks|
      invariant 0 <= j <= |pks|
      invariant |fs| == |fields| && DistinctKeys(fs)
      invariant Coerced(fields, fs, props, pks[..j], forceArrayConversion, toNumber)
    {
      var p := pks[j];
      assert p !in pks[..j] by { DistinctPrefix(props.fields, j); }
      assert pks[..j + 1] == pks[..j] + [p];
      if p in KeysOf(fs) {
        var out, held := CoerceOwnedProperty(fields, fs, props, pks[..j], p, forceArrayConversion, toNumber);
        if out.Throws? {
          return out, held;
        }
        fs := out.value;
      } else {
        SkipStep(fields, fs, props, pks[..j], p, forceArrayConversion, toNumber);
      }
      j := j + 1;
    }
    assert pks[..j] == pks;
    FieldsDone(fields, fs, props, forceArrayConversion, toNumber);
    return Returns(fs), fs;
  }

  /**
    One turn of the property loop: `object[prop] = convertPropertyTypesToMatchSchema(object[prop], schema.properties[prop], ...)`
    for a declared key `p` that the object owns.
   */
  method CoerceOwnedProperty(fields: Fields, fs: Fields, props: JValue, done: seq<string>, p: string,
                             forceArrayConversion: bool, toNumber: string -> NumResult)
    returns (r: Outcome<Fields>, after: Fields)
    requires props.JObj? && WellFormed(props) && p in KeysOf(props.fields)
    requires forall i :: 0 <= i < |fields| ==> WellFormed(fields[i].1)
    requires DistinctKeys(fs) && Coerced(fields, fs, props, done, forceArrayConversion, toNumber)
    requires p !in done && p in KeysOf(fs)
    requires |done| < |props.fields| && done == KeysOf(props.fields)[..|done|] && p == KeysOf(props.fields)[|done|]
    ensures r.Throws? ==> r == CoerceFieldsOutcome(fields, props, forceArrayConversion, toNumber)
    ensures r.Throws? ==> after == PartialFields(fields, props, forceArrayConversion, toNumber)
    ensures r.Returns? ==> after == r.value
    ensures r.Returns? ==> DistinctKeys(r.value) && Coerced(fields, r.value, props, done + [p], forceArrayConversion, toNumber)
    decreases props, 0
  {
    var i := KeyIndex(fs, p);
    FieldUntouched(fields, fs, props, done, i, forceArrayConversion, toNumber);
    WellFormedProp(props, p);
    var sub, held := ConvertPropertyTypesToMatchSchema(fs[i].1, Prop(props, p), forceArrayConversion, toNumber);
    if sub.Throws? {
      FieldThrows(fields, fs, props, done, p, forceArrayConversion, toNumber);
      PartialFieldsAt(fields, fs, props, done, p, held, forceArrayConversion, toNumber);
      return Throws(sub.error), Put(fs, p, held);
    }
    FieldStep(fields, fs, props, done, p, sub.value, forceArrayConversion, toNumber);
    return Returns(Put(fs, p, sub.value)), Put(fs, p, sub.value);
  }

  /**
    When the owned field `p` raises, the object holds the fields of the keys
    before `p` converted, `p` as its own call left it, and the rest untouched.
   */
  lemma PartialFieldsAt(fields: Fields, fs: Fields, props: JValue, done: seq<string>, p: string, a: JValue,
                        force: bool, toNumber: string -> NumResult)
    requires props.JObj? && DistinctKeys(props.fields) && DistinctKeys(fs)
    requires Coerced(fields, fs, props, done, force, toNumber)
    requires |done| < |props.fields| && done == KeysOf(props.fields)[..|done|] && p == KeysOf(props.fields)[|done|]
    requires p in KeysOf(fs) && CoerceThrows(fs[KeyIndex(fs, p)].1, Prop(props, p), force)
    requires a == CoercePartial(fs[KeyIndex(fs, p)].1, Prop(props, p), force, toNumber)
    ensures Put(fs, p, a) == PartialFields(fields, props, force, toNumber)
  {
    var k := KeyIndex(fs, p);
    ThrowingKeyIsFirst(fields, fs, props, done, p, force, toNumber);
    CoercedKeepsKeys(fields, fs, props, done, force, toNumber);
    FieldUntouched(fields, fs, props, done, k, force, toNumber);
    PartialFieldsWhenFirst(fields, props, |done|, force, toNumber);
    PutExisting(fs, p, a);
    forall i | 0 <= i < |fs| ensures Put(fs, p, a)[i] == PartialFields(fields, props, force, toNumber)[i] {
      if fields[i].0 == p {
        assert i == k;
      }
      PartialFieldIs(fields[i], fs[i], props, done, p, a, force, toNumber);
    }
  }

  /** The owned field `p` that raises is the first declared key to raise. */
  lemma ThrowingKeyIsFirst(fields: Fields, fs: Fields, props: JValue, done: seq<string>, p: string,
                           force: bool, toNumber: string -> NumResult)
    requires props.JObj? && DistinctKeys(props.fields) && DistinctKeys(fs)
    requires Coerced(fields, fs, props, done, force, toNumber)
    requires |done| < |props.fields| && done == KeysOf(props.fields)[..|done|] && p == KeysOf(props.fields)[|done|]
    requires p in KeysOf(fs) && CoerceThrows(fs[KeyIndex(fs, p)].1, Prop(props, p), force)
    ensures p !in done
    ensures FirstThrowingKey(fields, props, KeysOf(props.fields), force) == |done|
  {
    var k := KeyIndex(fs, p);
    assert p !in done by { DistinctPrefix(props.fields, |done|); }
    CoercedKeepsKeys(fields, fs, props, done, force, toNumber);
    DoneKeysDidNotThrow(fields, fs, props, done, force, toNumber);
    FieldUntouched(fields, fs, props, done, k, force, toNumber);
    LookupAt(fields, k);
    FirstThrowingKeyIs(fields, props, KeysOf(props.fields), |done|, force);
  }

  /** One field of `PartialFieldsAt`. */
  lemma PartialFieldIs(field: (string, JValue), f: (string, JValue), props: JValue, done: seq<string>, p: string, a: JValue,
                       force: bool, toNumber: string -> NumResult)
    requires f == CoercedField(field, props, done, force, toNumber) && p !in done
    requires field.0 == p ==> a == CoercePartial(field.1, Prop(props, p), force, toNumber)
    ensures (if f.0 == p then (p, a) else f)
         == if field.0 in done then (field.0, Coerce(field.1, Prop(props, field.0), force, toNumber))
            else if field.0 == p then (field.0, CoercePartial(field.1, Prop(props, field.0), force, toNumber))
            else field
  {
  }

  /** The coerced copy keeps the keys of the original fields. */
  lemma CoercedKeepsKeys(fields: Fields, fs: Fields, props: JValue, done: seq<string>, force: bool, toNumber: string -> NumResult)
    requires Coerced(fields, fs, props, done, force, toNumber) && DistinctKeys(fs)
    ensures DistinctKeys(fields) && forall i :: 0 <= i < |fs| ==> fs[i].0 == fields[i].0
  {
    assert forall i :: 0 <= i < |fs| ==> fs[i].0 == fields[i].0;
  }

  /** No key coerced so far has raised. */
  lemma DoneKeysDidNotThrow(fields: Fields, fs: Fields, props: JValue, done: seq<string>, force: bool, toNumber: string -> NumResult)
    requires Coerced(fields, fs, props, done, force, toNumber) && DistinctKeys(fields)
    ensures forall k :: k in done ==> !KeyThrows(fields, props, k, force)
  {
    forall k | k in done && k in KeysOf(fields) ensures !KeyThrows(fields, props, k, force) {
      LookupAt(fields, KeyIndex(fields, k));
    }
  }

  /** A key that raises after keys that did not is the first one to raise. */
  lemma FirstThrowingKeyIs(fs: Fields, props: JValue, pks: seq<string>, j: int, force: bool)
    requires 0 <= j < |pks|
    requires forall k :: k in pks[..j] ==> !KeyThrows(fs, props, k, force)
    requires KeyThrows(fs, props, pks[j], force)
    ensures FirstThrowingKey(fs, props, pks, force) == j
  {
    var flags := seq(|pks|, m requires 0 <= m < |pks| => KeyThrows(fs, props, pks[m], force));
    FirstTrueIs(flags, 0, j);
    forall m | 0 <= m < j ensures !flags[m] {
      assert pks[m] in pks[..j];
    }
  }

  /**
    `FirstThrowingElement` is `j` exactly when the elements before `j` do
    not raise and element `j`, if there is one, does.
   */
  lemma FirstThrowingElementIs(es: seq<JValue>, items: JValue, force: bool, j: int)
    requires 0 <= j <= |es|
    ensures FirstThrowingElement(es, items, force) == j <==>
      (forall m :: 0 <= m < j ==> !CoerceThrows(es[m], items, force)) && (j < |es| ==> CoerceThrows(es[j], items, force))
  {
    var flags := ThrowFlags(es, items, force);
    FirstTrueIs(flags, 0, j);
    assert (forall m :: 0 <= m < j ==> !flags[m]) <==> (forall m :: 0 <= m < j ==> !CoerceThrows(es[m], items, force)) by {
      forall m | 0 <= m < j ensures flags[m] == CoerceThrows(es[m], items, force) { }
    }
  }

  /** `FirstTrue(flags, i)` is `j` exactly when `flags[i..j]` are all false and `flags[j]`, if any, is true. */
  lemma {:induction false} FirstTrueIs(flags: seq<bool>, i: nat, j: int)
    requires i <= j <= |flags|
    ensures FirstTrue(flags, i) == j <==> (forall m :: i <= m < j ==> !flags[m]) && (j < |flags| ==> flags[j])
    decreases |flags| - i
  {
    if i < j {
      FirstTrueIs(flags, i + 1, j);
    }
  }

  /** The fields left by a property loop whose `j`-th declared key raised. */
  lemma PartialFieldsWhenFirst(fs: Fields, props: JValue, j: int, force: bool, toNumber: string -> NumResult)
    requires props.JObj? && 0 <= j < |props.fields|
    requires FirstThrowingKey(fs, props, KeysOf(props.fields), force) == j
    ensures forall i :: 0 <= i < |fs| ==>
      PartialFields(fs, props, force, toNumber)[i] ==
        (if fs[i].0 in KeysOf(props.fields)[..j] then (fs[i].0, Coerce(fs[i].1, Prop(props, fs[i].0), force, toNumber))
         else if fs[i].0 == KeysOf(props.fields)[j] then (fs[i].0, CoercePartial(fs[i].1, Prop(props, fs[i].0), force, toNumber))
         else fs[i])
  {
  }

  /**
    The loop invariant of `CoerceDeclaredProperties`: the fields whose keys
    are in `done` are coerced and did not raise, and the others are untouched.
   */
  predicate Coerced(fields: Fields, fs: Fields, props: JValue, done: seq<string>, force: bool, toNumber: string -> NumResult)
  {
    && |fs| == |fields|
    && (forall i :: 0 <= i < |fs| ==> fs[i] == CoercedField(fields[i], props, done, force, toNumber))
    && (forall i :: 0 <= i < |fs| && fields[i].0 in done ==> !CoerceThrows(fields[i].1, Prop(props, fields[i].0), force))
  }

  /** A field whose key is not yet coerced is the original field. */
  lemma FieldUntouched(fields: Fields, fs: Fields, props: JValue, done: seq<string>, i: int,
                       force: bool, toNumber: string -> NumResult)
    requires Coerced(fields, fs, props, done, force, toNumber)
    requires 0 <= i < |fs| && fs[i].0 !in done
    ensures fs[i] == fields[i]
  {
  }

  /** A declared key the object does not own changes nothing. */
  lemma SkipStep(fields: Fields, fs: Fields, props: JValue, done: seq<string>, p: string,
                 force: bool, toNumber: string -> NumResult)
    requires Coerced(fields, fs, props, done, force, toNumber)
    requires p !in KeysOf(fs)
    ensures Coerced(fields, fs, props, done + [p], force, toNumber)
  {
    forall i | 0 <= i < |fs| ensures fields[i].0 != p {
      assert KeysOf(fs)[i] == fs[i].0;
    }
  }

  /** Coercing the owned field `p` extends the set of coerced keys by `p`. */
  lemma FieldStep(fields: Fields, fs: Fields, props: JValue, done: seq<string>, p: string, v: JValue,
                  force: bool, toNumber: string -> NumResult)
    requires DistinctKeys(fs) && Coerced(fields, fs, props, done, force, toNumber)
    requires p !in done && p in KeysOf(fs)
    requires !CoerceThrows(fs[KeyIndex(fs, p)].1, Prop(props, p), force)
    requires v == Coerce(fs[KeyIndex(fs, p)].1, Prop(props, p), force, toNumber)
    ensures DistinctKeys(Put(fs, p, v))
    ensures Coerced(fields, Put(fs, p, v), props, done + [p], force, toNumber)
  {
    PutExisting(fs, p, v);
    PutKeepsDistinct(fs, p, v);
    var k := KeyIndex(fs, p);
    var r := Put(fs, p, v);
    forall i | 0 <= i < |fs|
      ensures r[i] == CoercedField(fields[i], props, done + [p], force, toNumber)
      ensures fields[i].0 in done + [p] ==> !CoerceThrows(fields[i].1, Prop(props, fields[i].0), force)
    {
      if fs[i].0 == p {
        assert i == k;
      }
      FieldStepAt(fields[i], fs[i], props, done, p, v, force, toNumber);
    }
  }

  /** One field of `FieldStep`. */
  lemma FieldStepAt(field: (string, JValue), f: (string, JValue), props: JValue, done: seq<string>, p: string, v: JValue,
                    force: bool, toNumber: string -> NumResult)
    requires f == CoercedField(field, props, done, force, toNumber)
    requires field.0 in done ==> !CoerceThrows(field.1, Prop(props, field.0), force)
    requires p !in done
    requires f.0 == p ==> !CoerceThrows(f.1, Prop(props, p), force) && v == Coerce(f.1, Prop(props, p), force, toNumber)
    ensures (if f.0 == p then (p, v) else f) == CoercedField(field, props, done + [p], force, toNumber)
    ensures field.0 in done + [p] ==> !CoerceThrows(field.1, Prop(props, field.0), force)
  {
    assert f.0 == field.0;
    assert field.0 in done + [p] <==> field.0 in done || field.0 == p;
    if field.0 == p {
      assert f == field;
    }
  }

  /** A declared field that raises makes the whole property loop raise. */
  lemma FieldThrows(fields: Fields, fs: Fields, props: JValue, done: seq<string>, p: string,
                    force: bool, toNumber: string -> NumResult)
    requires props.JObj? && p in KeysOf(props.fields)
    requires Coerced(fields, fs, props, done, force, toNumber)
    requires p !in done && p in KeysOf(fs)
    requires CoerceThrows(fs[KeyIndex(fs, p)].1, Prop(props, p), force)
    ensures CoerceFieldsOutcome(fields, props, force, toNumber) == Throws(TypeError)
  {
    var i := KeyIndex(fs, p);
    assert fields[i] == fs[i];
    assert DeclaredFieldThrows(fields, props, force);
  }

  /** After every declared key, the fields are those of the specification. */
  lemma FieldsDone(fields: Fields, fs: Fields, props: JValue, force: bool, toNumber: string -> NumResult)
    requires props.JObj?
    requires Coerced(fields, fs, props, KeysOf(props.fields), force, toNumber)
    ensures CoerceFieldsOutcome(fields, props, force, toNumber) == Returns(fs)
  {
    var pks := KeysOf(props.fields);
    forall i | 0 <= i < |fields| && fields[i].0 in pks
      ensures !CoerceThrows(fields[i].1, Prop(props, fields[i].0), force)
    {
    }
    assert !DeclaredFieldThrows(fields, props, force);
    var spec := CoerceFieldsOutcome(fields, props, force, toNumber).value;
    assert |spec| == |fs|;
    forall i | 0 <= i < |fs| ensures fs[i] == spec[i] {
      assert fs[i] == CoercedField(fields[i], props, pks, force, toNumber);
    }
    assert fs == spec;
  }

  /**
    `for (prop in schema.items) if (...hasOwnProperty) for (i ...) object[i] = convert(...)`:
    one pass over the elements per own key of `items`.
   */
  method CoerceArrayElements(elems: seq<JValue>, items: JValue, forceArrayConversion: bool, toNumber: string -> NumResult)
    returns (r: Outcome<seq<JValue>>, after: seq<JValue>)
    requires forall i :: 0 <= i < |elems| ==> WellFormed(elems[i])
    requires WellFormed(items) && OwnKeyCount(items) > 0
    ensures r == CoerceElementsOutcome(elems, items, forceArrayConversion, toNumber)
    ensures after == if r.Throws? then PartialElements(elems, items, forceArrayConversion, toNumber) else r.value
    decreases items, 3
  {
    var passes := OwnKeyCount(items);
    var out: Outcome<seq<JValue>> := Returns(elems);
    var held := elems;
    var n := 0;
    while n < passes && out.Returns?
      invariant 0 <= n <= passes
      invariant n == 0 ==> out == Returns(elems)
      invariant n > 0 ==> out == CoerceElementsOutcome(elems, items, forceArrayConversion, toNumber)
      invariant held == if out.Throws? then PartialElements(elems, items, forceArrayConversion, toNumber) else out.value
    {
      if n > 0 {
        CoerceElementsTwice(elems, items, forceArrayConversion, toNumber);
        forall i | 0 <= i < |elems| ensures WellFormed(out.value[i]) {
          CoerceKeepsWellFormed(elems[i], items, forceArrayConversion, toNumber);
        }
      }
      out, held := CoerceElements(out.value, items, forceArrayConversion, toNumber);
      n := n + 1;
    }
    return out, held;
  }

  /** A second pass over the elements leaves them as the first pass did. */
  lemma CoerceElementsTwice(elems: seq<JValue>, items: JValue, force: bool, toNumber: string -> NumResult)
    requires CoerceElementsOutcome(elems, items, force, toNumber).Returns?
    ensures CoerceElementsOutcome(CoerceElementsOutcome(elems, items, force, toNumber).value, items, force, toNumber)
         == CoerceElementsOutcome(elems, items, force, toNumber)
  {
    var once := CoerceElementsOutcome(elems, items, force, toNumber).value;
    forall i | 0 <= i < |elems|
      ensures !CoerceThrows(once[i], items, force)
      ensures Coerce(once[i], items, force, toNumber) == once[i]
    {
      CoercedDoesNotThrow(elems[i], items, force, toNumber);
      CoerceIdempotent(elems[i], items, force, toNumber);
    }
    assert CoerceElementsOutcome(once, items, force, toNumber).value == once;
  }

  /** One pass of `object[i] = convertPropertyTypesToMatchSchema(object[i], schema.items, ...)`. */
  method CoerceElements(es: seq<JValue>, items: JValue, forceArrayConversion: bool, toNumber: string -> NumResult)
    returns (r: Outcome<seq<JValue>>, after: seq<JValue>)
    requires forall i :: 0 <= i < |es| ==> WellFormed(es[i])
    requires WellFormed(items)
    ensures r == CoerceElementsOutcome(es, items, forceArrayConversion, toNumber)
    ensures after == if r.Throws? then PartialElements(es, items, forceArrayConversion, toNumber) else r.value
    decreases items, 2
  {
    var cur := es;
    var i := 0;
    while i < |es|
      invariant 0 <= i <= |es| && |cur| == |es|
      invariant forall m :: 0 <= m < i ==> cur[m] == Coerce(es[m], items, forceArrayConversion, toNumber)
      invariant forall m :: i <= m < |es| ==> cur[m] == es[m]
      invariant forall m :: 0 <= m < i ==> !CoerceThrows(es[m], items, forceArrayConversion)
    {
      var e, held := CoerceElementAt(es, cur, items, i, forceArrayConversion, toNumber);
      if e.Throws? {
        return Throws(e.error), held;
      }
      cur := cur[i := e.value];
      i := i + 1;
    }
    assert cur == CoerceElementsOutcome(es, items, forceArrayConversion, toNumber).value;
    return Returns(cur), cur;
  }

  /**
    `object[i] = convertPropertyTypesToMatchSchema(object[i], schema.items, ...)`
    once the elements before `i` are converted: the element's outcome, and
    what the array holds if it raised.
   */
  method CoerceElementAt(es: seq<JValue>, cur: seq<JValue>, items: JValue, i: int, forceArrayConversion: bool,
                         toNumber: string -> NumResult)
    returns (e: Outcome<JValue>, after: seq<JValue>)
    requires 0 <= i < |es| == |cur| && WellFormed(items) && WellFormed(es[i])
    requires forall m :: 0 <= m < i ==> cur[m] == Coerce(es[m], items, forceArrayConversion, toNumber)
    requires forall m :: 0 <= m < i ==> !CoerceThrows(es[m], items, forceArrayConversion)
    requires forall m :: i <= m < |es| ==> cur[m] == es[m]
    ensures e == if CoerceThrows(es[i], items, forceArrayConversion) then Throws(TypeError)
                 else Returns(Coerce(es[i], items, forceArrayConversion, toNumber))
    ensures e.Throws? ==> after == PartialElements(es, items, forceArrayConversion, toNumber)
    decreases items, 1
  {
    var held;
    e, held := ConvertPropertyTypesToMatchSchema(cur[i], items, forceArrayConversion, toNumber);
    after := cur[i := held];
    if e.Throws? {
      PartialElementsAt(es, cur, items, i, held, forceArrayConversion, toNumber);
    }
  }

  /**
    When element `i` raises, the array holds the elements before it
    converted, element `i` as its own call left it, and the rest untouched.
   */
  lemma PartialElementsAt(es: seq<JValue>, cur: seq<JValue>, items: JValue, i: int, a: JValue,
                          force: bool, toNumber: string -> NumResult)
    requires 0 <= i < |es| == |cur|
    requires forall m :: 0 <= m < i ==> cur[m] == Coerce(es[m], items, force, toNumber)
    requires forall m :: 0 <= m < i ==> !CoerceThrows(es[m], items, force)
    requires forall m :: i <= m < |es| ==> cur[m] == es[m]
    requires CoerceThrows(es[i], items, force) && a == CoercePartial(es[i], items, force, toNumber)
    ensures cur[i := a] == PartialElements(es, items, force, toNumber)
  {
    FirstThrowingElementIs(es, items, force, i);
    var p := PartialElements(es, items, force, toNumber);
    forall m | 0 <= m < |es| ensures cur[i := a][m] == p[m] {
      PartialElementAt(es, items, force, toNumber, m);
    }
  }

  /** One element of `PartialElements`. */
  lemma PartialElementAt(es: seq<JValue>, items: JValue, force: bool, toNumber: string -> NumResult, m: int)
    requires 0 <= m < |es|
    ensures var t := FirstThrowingElement(es, items, force);
      PartialElements(es, items, force, toNumber)[m]
      == if m < t then Coerce(es[m], items, force, toNumber) else if m == t then CoercePartial(es[m], items, force, toNumber) else es[m]
  {
  }

  lemma DistinctPrefix(fs: Fields, j: int)
    requires DistinctKeys(fs) && 0 <= j < |fs|
    ensures KeysOf(fs)[j] !in KeysOf(fs)[..j]
  {
  }
}
