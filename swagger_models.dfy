/**
  Swagger 1.2 models in lib/SwaggerManager.js: the request and response
  models `getModelForRoute` extracts from a route's schemas, and
  `generateNestedModels`, which lifts every object-valued property into a
  model of its own and leaves a `$ref` in its place.
 */
module SwaggerModels {
  import opened Json
  import opened JsString
  import opened SchemaKeys
  import opened SwaggerRoutes

  // ----- `getModelForRoute` -----

  /**
    `getModelForRoute(route, modelKind, modelGetter)`: `undefined` when the
    route does not configure the kind, the copy of `items` for an array
    schema, `null` for a schema that is not an object, and the schema itself
    otherwise.
   */
  function ModelForRoute(route: Route, pluginName: string, kind: Surface): (r: JValue)
    requires kind == Payload || kind == Response
  {
    var config := PluginConfig(route, pluginName);
    var schema := if kind == Payload then Prop(config, "payload") else Prop(Prop(config, "response"), "schema");
    if !(Truthy(Prop(route.settings, "plugins")) && Truthy(config) && Truthy(Prop(config, SurfaceName(kind))) && Truthy(schema))
    then JUndefined
    else if Prop(schema, "type") == JStr("array") then Prop(schema, "items")
    else if Prop(schema, "type") != JStr("object") then JNull
    else schema
  }

  /**
    A model is registered only for an object schema, or for the `items` of
    an array schema; it is then that schema.
   */
  lemma ModelIsObjectOrItems(route: Route, pluginName: string, kind: Surface)
    requires kind == Payload || kind == Response
    ensures var config := PluginConfig(route, pluginName);
      var schema := if kind == Payload then Prop(config, "payload") else Prop(Prop(config, "response"), "schema");
      var model := ModelForRoute(route, pluginName, kind);
      && (Truthy(model) ==> Truthy(schema) && (model == schema || model == Prop(schema, "items")))
      && (Truthy(model) && model == schema && Prop(schema, "type") != JStr("array") ==> Prop(model, "type") == JStr("object"))
      && ((Truthy(schema) && Truthy(Prop(route.settings, "plugins")) && Truthy(config) && Truthy(Prop(config, SurfaceName(kind)))
           && Prop(schema, "type") == JStr("object")) ==> model == schema)
  {
  }

  // ----- `generateNestedModels` -----

  /** `{ $ref: name }`. */
  function RefTo(name: string): JValue
  {
    JObj([("$ref", JStr(name))])
  }

  /**
    The test of lines 222-225 on a property schema: it has truthy
    `properties`, or type `object`, or a type array listing `object`.
    Reading a field of `null` raises a TypeError.
   */
  function ObjectLike(p: JValue): (r: Outcome<bool>)
    ensures r.Throws? <==> NullOrUndefined(p)
  {
    if NullOrUndefined(p) then Throws(TypeError)
    else
      var t := Prop(p, "type");
      Returns(Truthy(Prop(p, "properties")) || t == JStr("object") || (t.JArr? && JStr("object") in t.elems))
  }

  /**
    `generateNestedModels(model, models, prefix)`: the model with its
    object-like properties replaced by references, and the models map with
    those properties (and, recursively, theirs) registered under
    `prefix + name`.
   */
  function NestedModels(model: JValue, models: Fields, prefix: string): Outcome<(JValue, Fields)>
    decreases model, 1, 0
  {
    if NullOrUndefined(model) then Throws(TypeError)
    else
      var props := Prop(model, "properties");
      if !props.JObj? then Returns((model, models))
      else
        match NestedFold(props.fields, |props.fields|, models, prefix)
        case Throws(e) => Throws(e)
        case Returns(folded) => Returns((JObj(Put(model.fields, "properties", JObj(folded.0))), folded.1))
  }

  /** The `forEach` over the first `n` property names: the properties so far, and the models map. */
  function NestedFold(props: Fields, n: nat, models: Fields, prefix: string): (r: Outcome<(Fields, Fields)>)
    requires n <= |props|
    ensures r.Returns? ==> |r.value.0| == |props|
    decreases JObj(props), 0, n
  {
    if n == 0 then Returns((props, models))
    else
      match NestedFold(props, n - 1, models, prefix)
      case Throws(e) => Throws(e)
      case Returns(acc) => NestedVisit(props[n - 1], n - 1, acc.0, acc.1, prefix)
  }

  /**
    The `forEach` callback for the property `f` at index `i`: an
    object-like property is registered as a model under `prefix + name`,
    its own nested models are generated, and it becomes a reference.
   */
  function NestedVisit(f: (string, JValue), i: nat, cur: Fields, ms: Fields, prefix: string): (r: Outcome<(Fields, Fields)>)
    requires i < |cur|
    ensures r.Returns? ==> |r.value.0| == |cur|
    decreases f.1, 2
  {
    match ObjectLike(f.1)
    case Throws(e) => Throws(e)
    case Returns(false) => Returns((cur, ms))
    case Returns(true) =>
      match NestedModels(f.1, Put(ms, prefix + f.0, f.1), prefix)
      case Throws(e) => Throws(e)
      case Returns(nested) => Returns((cur[i := (f.0, RefTo(prefix + f.0))], nested.1))
  }

  /** One step of the `forEach`, from the result over the first `i` names. */
  lemma NestedFoldStep(props: Fields, i: nat, models: Fields, prefix: string, acc: (Fields, Fields))
    requires i < |props|
    requires NestedFold(props, i, models, prefix) == Returns(acc)
    ensures NestedFold(props, i + 1, models, prefix) == NestedVisit(props[i], i, acc.0, acc.1, prefix)
  {
  }

  /** A `forEach` over `i + 1` names that returns ran its first `i` names without raising. */
  lemma NestedFoldPrefixReturns(props: Fields, i: nat, models: Fields, prefix: string)
    requires i < |props|
    requires NestedFold(props, i + 1, models, prefix).Returns?
    ensures NestedFold(props, i, models, prefix).Returns?
  {
  }

  /**
    The `forEach` over `i + 1` names, from its result over the first `i`:
    a property that is not object-like leaves both unchanged; an object-like
    one becomes a reference, and the models map is the one its own nested
    generation returns.
   */
  lemma NestedFoldAdvance(props: Fields, i: nat, models: Fields, prefix: string, before: (Fields, Fields))
    requires i < |props|
    requires NestedFold(props, i, models, prefix) == Returns(before)
    requires NestedFold(props, i + 1, models, prefix).Returns?
    ensures ObjectLike(props[i].1) == Returns(false) ==> NestedFold(props, i + 1, models, prefix).value == before
    ensures ObjectLike(props[i].1) == Returns(true) ==>
      var put := Put(before.1, prefix + props[i].0, props[i].1);
      && NestedModels(props[i].1, put, prefix).Returns?
      && NestedFold(props, i + 1, models, prefix).value
         == (before.0[i := (props[i].0, RefTo(prefix + props[i].0))], NestedModels(props[i].1, put, prefix).value.1)
  {
  }

  /** Once a step raises, the whole `forEach` raises the same error. */
  lemma {:induction false} NestedFoldThrowsPrefix(props: Fields, n: nat, models: Fields, prefix: string, e: JsError)
    requires n <= |props|
    requires NestedFold(props, n, models, prefix) == Throws(e)
    ensures NestedFold(props, |props|, models, prefix) == Throws(e)
    decreases |props| - n
  {
    if n < |props| {
      NestedFoldThrowsNext(props, n, models, prefix, e);
      NestedFoldThrowsPrefix(props, n + 1, models, prefix, e);
    }
  }

  lemma NestedFoldThrowsNext(props: Fields, n: nat, models: Fields, prefix: string, e: JsError)
    requires n < |props|
    requires NestedFold(props, n, models, prefix) == Throws(e)
    ensures NestedFold(props, n + 1, models, prefix) == Throws(e)
  {
  }

  /**
    `generateNestedModels`: walks the property names, registers a copy of
    each object-like property, recurses into it, then replaces it by a
    reference. The update of `model.properties` in place is returned as the
    new model.
   */
  method GenerateNestedModels(model: JValue, models: Fields, prefix: string) returns (r: Outcome<(JValue, Fields)>)
    ensures r == NestedModels(model, models, prefix)
    decreases model, 1
  {
    if NullOrUndefined(model) {
      return Throws(TypeError);
    }
    var props := Prop(model, "properties");
    if !props.JObj? {
      return Returns((model, models));
    }
    var fs := props.fields;
    var cur := fs;
    var ms := models;
    var i := 0;
    while i < |fs|
      invariant 0 <= i <= |fs|
      invariant NestedFold(fs, i, models, prefix) == Returns((cur, ms))
    {
      NestedFoldStep(fs, i, models, prefix, (cur, ms));
      assert fs[i].1 < props;
      var visited := VisitNestedProperty(fs[i], i, cur, ms, prefix);
      if visited.Throws? {
        NestedFoldThrowsPrefix(fs, i + 1, models, prefix, visited.error);
        return Throws(visited.error);
      }
      cur, ms := visited.value.0, visited.value.1;
      i := i + 1;
    }
    return Returns((JObj(Put(model.fields, "properties", JObj(cur))), ms));
  }

  /**
    The `forEach` callback: registers a copy of an object-like property
    under `prefix + name`, recurses into it, then replaces it by a reference.
   */
  method VisitNestedProperty(f: (string, JValue), i: nat, cur: Fields, ms: Fields, prefix: string) returns (r: Outcome<(Fields, Fields)>)
    requires i < |cur|
    ensures r == NestedVisit(f, i, cur, ms, prefix)
    decreases f.1, 2
  {
    var (name, p) := f;
    var objectLike := ObjectLike(p);
    if objectLike.Throws? {
      return Throws(objectLike.error);
    }
    if !objectLike.value {
      return Returns((cur, ms));
    }
    var models := Put(ms, prefix + name, p);
    var nested := GenerateNestedModels(p, models, prefix);
    if nested.Throws? {
      return Throws(nested.error);
    }
    return Returns((cur[i := (name, RefTo(prefix + name))], nested.value.1));
  }

  /** The property at `i` once the first `n` names are processed. */
  function ShapedAt(props: Fields, n: nat, prefix: string, i: nat): (string, JValue)
    requires i < |props|
  {
    if i < n && ObjectLike(props[i].1) == Returns(true) then (props[i].0, RefTo(prefix + props[i].0)) else props[i]
  }

  /** `cur` holds all the properties once the first `n` names are processed. */
  predicate Shaped(cur: Fields, props: Fields, n: nat, prefix: string)
  {
    && |cur| == |props|
    && forall i {:trigger ShapedAt(props, n, prefix, i)} :: 0 <= i < |props| ==> cur[i] == ShapedAt(props, n, prefix, i)
  }

  /** Processing name `k` turns an object-like property into a reference. */
  lemma ShapeAdvanceRef(props: Fields, k: nat, prefix: string, before: Fields)
    requires k < |props|
    requires Shaped(before, props, k, prefix)
    requires ObjectLike(props[k].1) == Returns(true)
    ensures Shaped(before[k := (props[k].0, RefTo(prefix + props[k].0))], props, k + 1, prefix)
  {
    var after := before[k := (props[k].0, RefTo(prefix + props[k].0))];
    forall i | 0 <= i < |props| ensures after[i] == ShapedAt(props, k + 1, prefix, i) {
      if i != k {
        ShapedAtOther(props, k, prefix, i);
      }
    }
  }

  /** Processing name `k` keeps a property that is not object-like. */
  lemma ShapeAdvanceKeep(props: Fields, k: nat, prefix: string, before: Fields)
    requires k < |props|
    requires Shaped(before, props, k, prefix)
    requires ObjectLike(props[k].1) != Returns(true)
    ensures Shaped(before, props, k + 1, prefix)
  {
    forall i | 0 <= i < |props| ensures before[i] == ShapedAt(props, k + 1, prefix, i) {
      if i != k {
        ShapedAtOther(props, k, prefix, i);
      } else {
        assert before[i] == ShapedAt(props, k, prefix, i);
      }
    }
  }

  /** Processing name `k` leaves every other position as it was. */
  lemma ShapedAtOther(props: Fields, k: nat, prefix: string, i: nat)
    requires k < |props| && i < |props| && i != k
    ensures ShapedAt(props, k + 1, prefix, i) == ShapedAt(props, k, prefix, i)
  {
  }

  /** Names already in the models map stay, and every name added starts with the prefix. */
  predicate GrowsUnder(before: Fields, after: Fields, prefix: string)
  {
    && (forall k :: k in KeysOf(before) ==> k in KeysOf(after))
    && (forall k :: k in KeysOf(after) && k !in KeysOf(before) ==> StartsWith(k, prefix))
  }

  lemma GrowsUnderTrans(a: Fields, b: Fields, c: Fields, prefix: string)
    requires GrowsUnder(a, b, prefix) && GrowsUnder(b, c, prefix)
    ensures GrowsUnder(a, c, prefix)
  {
  }

  /** Names that start with `prefix + "_"` start with `prefix`. */
  lemma GrowsUnderWiden(before: Fields, after: Fields, prefix: string)
    requires GrowsUnder(before, after, prefix + "_")
    ensures GrowsUnder(before, after, prefix)
  {
    forall k | k in KeysOf(after) && k !in KeysOf(before)
      ensures StartsWith(k, prefix)
    {
      assert StartsWith(k, prefix + "_");
      assert k[..|prefix|] == (prefix + "_")[..|prefix|];
    }
  }

  lemma PutGrowsUnder(ms: Fields, prefix: string, name: string, p: JValue)
    ensures GrowsUnder(ms, Put(ms, prefix + name, p), prefix)
  {
    var k0 := prefix + name;
    assert StartsWith(k0, prefix) by {
      assert k0[..|prefix|] == prefix;
    }
    forall k | k in KeysOf(ms) ensures k in KeysOf(Put(ms, k0, p)) {
    }
  }

  /** Registering a nested model, then generating its own, keeps the models map growing under the prefix. */
  lemma RegisterGrowsUnder(models: Fields, ms: Fields, prefix: string, name: string, p: JValue, after: Fields)
    requires GrowsUnder(models, ms, prefix)
    requires GrowsUnder(Put(ms, prefix + name, p), after, prefix)
    ensures GrowsUnder(models, after, prefix)
  {
    PutGrowsUnder(ms, prefix, name, p);
    GrowsUnderTrans(models, ms, Put(ms, prefix + name, p), prefix);
    GrowsUnderTrans(models, Put(ms, prefix + name, p), after, prefix);
  }

  /** A model with an object of properties: the fold over them, put back as its `properties`. */
  lemma NestedModelsUnfold(model: JValue, models: Fields, prefix: string)
    requires NestedModels(model, models, prefix).Returns?
    requires Prop(model, "properties").JObj?
    ensures model.JObj?
    ensures var props := Prop(model, "properties").fields;
      && NestedFold(props, |props|, models, prefix).Returns?
      && NestedModels(model, models, prefix).value.0
         == JObj(Put(model.fields, "properties", JObj(NestedFold(props, |props|, models, prefix).value.0)))
  {
  }

  /** Replacing `properties` changes what `properties` reads and nothing else. */
  lemma PutPropertiesProps(fs: Fields, v: JValue)
    ensures Prop(JObj(Put(fs, "properties", v)), "properties") == v
    ensures forall k :: k != "properties" ==> Prop(JObj(Put(fs, "properties", v)), k) == Prop(JObj(fs), k)
  {
  }

  /** References keep the property names, so distinct names stay distinct. */
  lemma ShapedDistinct(cur: Fields, props: Fields, prefix: string)
    requires DistinctKeys(props) && Shaped(cur, props, |props|, prefix)
    ensures DistinctKeys(cur)
  {
    forall a, b | 0 <= a < b < |cur| ensures cur[a].0 != cur[b].0 {
      assert cur[a] == ShapedAt(props, |props|, prefix, a) && cur[b] == ShapedAt(props, |props|, prefix, b);
    }
  }
}
