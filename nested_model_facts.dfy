/**
  What lib/SwaggerManager.js's `generateNestedModels` guarantees, proved
  about the functions of the module SwaggerModels by walking the `forEach`
  one property name at a time.
 */
module NestedModelFacts {
  import opened Json
  import opened JsString
  import opened SwaggerModels

  /** Whenever the `forEach` over the first `k` names returns, its properties are shaped up to `k`. */
  predicate FoldShaped(props: Fields, k: nat, models: Fields, prefix: string)
    requires k <= |props|
  {
    NestedFold(props, k, models, prefix).Returns? ==> Shaped(NestedFold(props, k, models, prefix).value.0, props, k, prefix)
  }

  /**
    After the first `n` names, exactly the object-like ones among them are
    references to `prefix + name`; every other property is as it was.
   */
  lemma {:induction false} NestedFoldShape(props: Fields, n: nat, models: Fields, prefix: string)
    requires n <= |props|
    requires NestedFold(props, n, models, prefix).Returns?
    ensures Shaped(NestedFold(props, n, models, prefix).value.0, props, n, prefix)
  {
    NestedFoldShapeStart(props, models, prefix);
    var k := 0;
    while k < n
      invariant k <= n
      invariant FoldShaped(props, k, models, prefix)
    {
      NestedFoldShapeNext(props, k, models, prefix);
      k := k + 1;
    }
  }

  /** Before any name is processed, every property is as it was. */
  lemma NestedFoldShapeStart(props: Fields, models: Fields, prefix: string)
    ensures FoldShaped(props, 0, models, prefix)
  {
    assert NestedFold(props, 0, models, prefix).value.0 == props;
    forall i | 0 <= i < |props| ensures props[i] == ShapedAt(props, 0, prefix, i) {
    }
  }

  /** Name `k` extends the shape of the first `k` names. */
  lemma NestedFoldShapeNext(props: Fields, k: nat, models: Fields, prefix: string)
    requires k < |props|
    requires FoldShaped(props, k, models, prefix)
    ensures FoldShaped(props, k + 1, models, prefix)
  {
    if NestedFold(props, k + 1, models, prefix).Returns? {
      NestedFoldPrefixReturns(props, k, models, prefix);
      var before := NestedFold(props, k, models, prefix).value;
      NestedFoldAdvance(props, k, models, prefix, before);
      if ObjectLike(props[k].1) == Returns(true) {
        ShapeAdvanceRef(props, k, prefix, before.0);
      } else {
        ShapeAdvanceKeep(props, k, prefix, before.0);
      }
    }
  }

  /**
    `generateNestedModels` only adds models, and only under its prefix: a
    response model's nested models cannot replace a request model's.
   */
  lemma {:induction false} NestedModelsGrowUnderPrefix(model: JValue, models: Fields, prefix: string)
    requires NestedModels(model, models, prefix).Returns?
    ensures GrowsUnder(models, NestedModels(model, models, prefix).value.1, prefix)
    decreases model, 2
  {
    var props := Prop(model, "properties");
    if props.JObj? {
      NestedFoldGrowsUnderPrefix(props.fields, |props.fields|, models, prefix);
    }
  }

  /** Whenever the `forEach` over the first `k` names returns, its models map grew under the prefix. */
  predicate FoldGrowsUnder(props: Fields, k: nat, models: Fields, prefix: string)
    requires k <= |props|
  {
    NestedFold(props, k, models, prefix).Returns? ==> GrowsUnder(models, NestedFold(props, k, models, prefix).value.1, prefix)
  }

  lemma {:induction false} NestedFoldGrowsUnderPrefix(props: Fields, n: nat, models: Fields, prefix: string)
    requires n <= |props|
    requires NestedFold(props, n, models, prefix).Returns?
    ensures GrowsUnder(models, NestedFold(props, n, models, prefix).value.1, prefix)
    decreases JObj(props), 1
  {
    NestedFoldGrowsStart(props, models, prefix);
    var k := 0;
    while k < n
      invariant k <= n
      invariant FoldGrowsUnder(props, k, models, prefix)
    {
      NestedFoldGrowsNext(props, k, models, prefix);
      k := k + 1;
    }
  }

  /** Before any name is processed, the models map is the one given. */
  lemma NestedFoldGrowsStart(props: Fields, models: Fields, prefix: string)
    ensures FoldGrowsUnder(props, 0, models, prefix)
  {
    assert NestedFold(props, 0, models, prefix).value.1 == models;
  }

  /** Name `k` keeps the models map growing under the prefix. */
  lemma {:induction false} NestedFoldGrowsNext(props: Fields, k: nat, models: Fields, prefix: string)
    requires k < |props|
    requires FoldGrowsUnder(props, k, models, prefix)
    ensures FoldGrowsUnder(props, k + 1, models, prefix)
    decreases JObj(props), 0
  {
    if NestedFold(props, k + 1, models, prefix).Returns? {
      NestedFoldPrefixReturns(props, k, models, prefix);
      var before := NestedFold(props, k, models, prefix).value;
      NestedFoldAdvance(props, k, models, prefix, before);
      var f := props[k];
      if ObjectLike(f.1) == Returns(true) {
        var put := Put(before.1, prefix + f.0, f.1);
        assert f.1 < JObj(props);
        NestedModelsGrowUnderPrefix(f.1, put, prefix);
        RegisterGrowsUnder(models, before.1, prefix, f.0, f.1, NestedModels(f.1, put, prefix).value.1);
      }
    }
  }

  /** The model name `generateNestedModels` gives property `i`. */
  function ModelName(props: Fields, prefix: string, i: nat): string
    requires i < |props|
  {
    prefix + props[i].0
  }

  /** Each object-like property among the first `k` has a model under its name in `ms`. */
  predicate Registered(ms: Fields, props: Fields, k: nat, prefix: string)
    requires k <= |props|
  {
    forall i {:trigger ModelName(props, prefix, i)} :: 0 <= i < k && ObjectLike(props[i].1) == Returns(true) ==>
      ModelName(props, prefix, i) in KeysOf(ms)
  }

  /** Whenever the `forEach` over the first `k` names returns, each object-like one among them is a model name. */
  predicate FoldRegisters(props: Fields, k: nat, models: Fields, prefix: string)
    requires k <= |props|
  {
    NestedFold(props, k, models, prefix).Returns? ==> Registered(NestedFold(props, k, models, prefix).value.1, props, k, prefix)
  }

  /** After the first `n` names, every object-like one among them has a model under `prefix + name`. */
  lemma NestedFoldRegisters(props: Fields, n: nat, models: Fields, prefix: string)
    requires n <= |props|
    ensures FoldRegisters(props, n, models, prefix)
  {
    for k := 0 to n
      invariant FoldRegisters(props, k, models, prefix)
    {
      NestedFoldRegistersNext(props, k, models, prefix);
    }
  }

  /** Name `k` is registered, and the later nested models only add names, so the earlier ones stay. */
  lemma NestedFoldRegistersNext(props: Fields, k: nat, models: Fields, prefix: string)
    requires k < |props|
    requires FoldRegisters(props, k, models, prefix)
    ensures FoldRegisters(props, k + 1, models, prefix)
  {
    if NestedFold(props, k + 1, models, prefix).Returns? {
      NestedFoldPrefixReturns(props, k, models, prefix);
      var before := NestedFold(props, k, models, prefix).value;
      NestedFoldAdvance(props, k, models, prefix, before);
      var f := props[k];
      if ObjectLike(f.1) == Returns(true) {
        var put := Put(before.1, prefix + f.0, f.1);
        NestedModelsGrowUnderPrefix(f.1, put, prefix);
        PutThenGrow(before.1, prefix + f.0, f.1, NestedModels(f.1, put, prefix).value.1, prefix);
        RegisteredGrows(before.1, NestedModels(f.1, put, prefix).value.1, props, k, prefix);
      } else {
        RegisteredGrows(before.1, before.1, props, k, prefix);
      }
    }
  }

  /** Registering name `k` into a map that then only grows extends the registered names to `k + 1`. */
  lemma RegisteredGrows(ms: Fields, after: Fields, props: Fields, k: nat, prefix: string)
    requires k < |props| && Registered(ms, props, k, prefix)
    requires ObjectLike(props[k].1) == Returns(true) ==> ModelName(props, prefix, k) in KeysOf(after)
    requires forall q :: q in KeysOf(ms) ==> q in KeysOf(after)
    ensures Registered(after, props, k + 1, prefix)
  {
    forall i | 0 <= i < k + 1 && ObjectLike(props[i].1) == Returns(true) ensures ModelName(props, prefix, i) in KeysOf(after) {
      if i < k {
        assert ModelName(props, prefix, i) in KeysOf(ms);
      } else {
        assert i == k;
      }
    }
  }

  /** A name put into a map that then grows is among the final names, and so is every earlier name. */
  lemma PutThenGrow(ms: Fields, name: string, v: JValue, after: Fields, prefix: string)
    requires GrowsUnder(Put(ms, name, v), after, prefix)
    ensures name in KeysOf(after)
    ensures forall q :: q in KeysOf(ms) ==> q in KeysOf(after)
  {
    assert name in KeysOf(Put(ms, name, v));
  }

  /**
    Every object-like property is replaced by a reference to `prefix + name`
    and gets a model under that name; the model keeps its other fields.
   */
  lemma NestedModelsRegister(model: JValue, models: Fields, prefix: string)
    requires WellFormed(model)
    requires NestedModels(model, models, prefix).Returns?
    requires Prop(model, "properties").JObj?
    ensures var props := Prop(model, "properties").fields;
      var m := NestedModels(model, models, prefix).value.0;
      && (forall i :: 0 <= i < |props| && ObjectLike(props[i].1) == Returns(true) ==>
            Prop(Prop(m, "properties"), props[i].0) == RefTo(prefix + props[i].0))
      && (forall k :: k != "properties" ==> Prop(m, k) == Prop(model, k))
    ensures var props := Prop(model, "properties").fields;
      forall i :: 0 <= i < |props| && ObjectLike(props[i].1) == Returns(true) ==>
        prefix + props[i].0 in KeysOf(NestedModels(model, models, prefix).value.1)
  {
    NestedModelsRefs(model, models, prefix);
    NestedModelsNames(model, models, prefix);
  }

  /** The reference half of `NestedModelsRegister`. */
  lemma NestedModelsRefs(model: JValue, models: Fields, prefix: string)
    requires WellFormed(model)
    requires NestedModels(model, models, prefix).Returns?
    requires Prop(model, "properties").JObj?
    ensures var props := Prop(model, "properties").fields;
      var m := NestedModels(model, models, prefix).value.0;
      && (forall i :: 0 <= i < |props| && ObjectLike(props[i].1) == Returns(true) ==>
            Prop(Prop(m, "properties"), props[i].0) == RefTo(prefix + props[i].0))
      && (forall k :: k != "properties" ==> Prop(m, k) == Prop(model, k))
  {
    var props := Prop(model, "properties").fields;
    assert DistinctKeys(props) by { WellFormedProp(model, "properties"); }
    NestedModelsUnfold(model, models, prefix);
    NestedFoldShape(props, |props|, models, prefix);
    var cur := NestedFold(props, |props|, models, prefix).value.0;
    PutPropertiesProps(model.fields, JObj(cur));
    forall i | 0 <= i < |props| && ObjectLike(props[i].1) == Returns(true)
      ensures Prop(JObj(cur), props[i].0) == RefTo(prefix + props[i].0)
    {
      ShapedDistinct(cur, props, prefix);
      assert cur[i] == ShapedAt(props, |props|, prefix, i);
      LookupAt(cur, i);
    }
  }

  /** The model-name half of `NestedModelsRegister`. */
  lemma NestedModelsNames(model: JValue, models: Fields, prefix: string)
    requires NestedModels(model, models, prefix).Returns?
    requires Prop(model, "properties").JObj?
    ensures var props := Prop(model, "properties").fields;
      forall i :: 0 <= i < |props| && ObjectLike(props[i].1) == Returns(true) ==>
        prefix + props[i].0 in KeysOf(NestedModels(model, models, prefix).value.1)
  {
    var props := Prop(model, "properties").fields;
    NestedModelsUnfold(model, models, prefix);
    NestedFoldRegisters(props, |props|, models, prefix);
    forall i | 0 <= i < |props| && ObjectLike(props[i].1) == Returns(true)
      ensures prefix + props[i].0 in KeysOf(NestedModels(model, models, prefix).value.1)
    {
      assert ModelName(props, prefix, i) == prefix + props[i].0;
    }
  }

  // ----- what is stored under each model name -----

  /**
    The names of the object-like properties at every depth below `v`: the
    names under which `generateNestedModels(v, models, prefix)` registers
    models (after `prefix`).
   */
  function NestedNames(v: JValue): set<string>
    decreases v, 1
  {
    var props := Prop(v, "properties");
    if props.JObj? then NamesIn(props.fields, |props.fields|) else {}
  }

  /** The object-like names among the first `n` properties, and those below them. */
  function NamesIn(props: Fields, n: nat): set<string>
    requires n <= |props|
    decreases JObj(props), 0, n
  {
    if n == 0 then {}
    else if ObjectLike(props[n - 1].1) == Returns(true) then
      NamesIn(props, n - 1) + {props[n - 1].0} + NestedNames(props[n - 1].1)
    else NamesIn(props, n - 1)
  }

  /** The model name of a property called `n`. */
  function Prefixed(prefix: string, n: string): string
  {
    prefix + n
  }

  /** Every model name `prefix + n` with `n` outside `names` holds in `after` what it held in `ms`. */
  ghost predicate Untouched(ms: Fields, after: Fields, prefix: string, names: set<string>)
  {
    forall n {:trigger Prefixed(prefix, n)} :: n !in names ==> Lookup(after, Prefixed(prefix, n)) == Lookup(ms, Prefixed(prefix, n))
  }

  /** `generateNestedModels` writes only the names of the object-like properties below `model`. */
  lemma {:induction false} NestedModelsFrame(model: JValue, models: Fields, prefix: string)
    requires NestedModels(model, models, prefix).Returns?
    ensures Untouched(models, NestedModels(model, models, prefix).value.1, prefix, NestedNames(model))
    decreases model, 2
  {
    var props := Prop(model, "properties");
    if props.JObj? {
      NestedFoldFrame(props.fields, |props.fields|, models, prefix);
    }
  }

  /** Whenever the `forEach` over the first `k` names returns, it wrote only their names and those below them. */
  ghost predicate FoldUntouched(props: Fields, k: nat, models: Fields, prefix: string)
    requires k <= |props|
  {
    NestedFold(props, k, models, prefix).Returns? ==>
      Untouched(models, NestedFold(props, k, models, prefix).value.1, prefix, NamesIn(props, k))
  }

  lemma {:induction false} NestedFoldFrame(props: Fields, n: nat, models: Fields, prefix: string)
    requires n <= |props|
    ensures FoldUntouched(props, n, models, prefix)
    decreases JObj(props), 2
  {
    NestedFoldFrameStart(props, models, prefix);
    for k := 0 to n
      invariant FoldUntouched(props, k, models, prefix)
    {
      NestedFoldFrameNext(props, k, models, prefix);
    }
  }

  /** Before the first name, nothing is written. */
  lemma NestedFoldFrameStart(props: Fields, models: Fields, prefix: string)
    ensures FoldUntouched(props, 0, models, prefix)
  {
    assert NestedFold(props, 0, models, prefix).value.1 == models;
  }

  /** Name `k` writes its own model name and, through its nested models, the names below it. */
  lemma {:induction false} NestedFoldFrameNext(props: Fields, k: nat, models: Fields, prefix: string)
    requires k < |props|
    requires FoldUntouched(props, k, models, prefix)
    ensures FoldUntouched(props, k + 1, models, prefix)
    decreases JObj(props), 1
  {
    if NestedFold(props, k + 1, models, prefix).Returns? {
      NestedFoldPrefixReturns(props, k, models, prefix);
      var before := NestedFold(props, k, models, prefix).value;
      NestedFoldAdvance(props, k, models, prefix, before);
      if ObjectLike(props[k].1) == Returns(true) {
        NestedFoldFrameObject(props, k, models, prefix, before.1);
      } else {
        assert NamesIn(props, k + 1) == NamesIn(props, k);
      }
    }
  }

  /** An object-like name `k` is registered, and then its nested models write the names below it. */
  lemma {:induction false} NestedFoldFrameObject(props: Fields, k: nat, models: Fields, prefix: string, ms: Fields)
    requires k < |props| && ObjectLike(props[k].1) == Returns(true)
    requires Untouched(models, ms, prefix, NamesIn(props, k))
    requires NestedModels(props[k].1, Put(ms, prefix + props[k].0, props[k].1), prefix).Returns?
    ensures Untouched(models, NestedModels(props[k].1, Put(ms, prefix + props[k].0, props[k].1), prefix).value.1,
                      prefix, NamesIn(props, k + 1))
    decreases JObj(props), 0
  {
    var f := props[k];
    var put := Put(ms, prefix + f.0, f.1);
    assert f.1 < JObj(props);
    NestedModelsFrame(f.1, put, prefix);
    FrameStep(models, ms, NestedModels(f.1, put, prefix).value.1, prefix, f.0, f.1, NamesIn(props, k), NestedNames(f.1));
  }

  /**
    Registering `name` in a map that wrote only `done`, and then writing
    only `below`, writes only `done`, `name` and `below`.
   */
  lemma FrameStep(models: Fields, ms: Fields, after: Fields, prefix: string, name: string, v: JValue,
                  done: set<string>, below: set<string>)
    requires Untouched(models, ms, prefix, done)
    requires Untouched(Put(ms, prefix + name, v), after, prefix, below)
    ensures Untouched(models, after, prefix, done + {name} + below)
  {
    forall n | n !in done + {name} + below
      ensures Lookup(after, Prefixed(prefix, n)) == Lookup(models, Prefixed(prefix, n))
    {
      PrefixedDiffer(prefix, n, name);
    }
  }

  /** Distinct names give distinct model names. */
  lemma PrefixedDiffer(prefix: string, a: string, b: string)
    requires a != b
    ensures prefix + a != prefix + b
  {
    assert (prefix + a)[|prefix|..] == a && (prefix + b)[|prefix|..] == b;
  }

  /** Each object-like property among the first `k` is stored, as it was, under its model name in `ms`. */
  predicate StoredUpTo(ms: Fields, props: Fields, k: nat, prefix: string)
    requires k <= |props|
  {
    forall i {:trigger ModelName(props, prefix, i)} :: 0 <= i < k && ObjectLike(props[i].1) == Returns(true) ==>
      Lookup(ms, ModelName(props, prefix, i)) == Some(props[i].1)
  }

  /** No property's name is reused by an object-like property below it or below a later property. */
  predicate NamesNotReusedBelow(props: Fields)
  {
    forall i, j :: 0 <= i <= j < |props| ==> props[i].0 !in NestedNames(props[j].1)
  }

  /** Whenever the `forEach` over the first `k` names returns, each object-like one among them is stored as it was. */
  predicate FoldStores(props: Fields, k: nat, models: Fields, prefix: string)
    requires k <= |props|
  {
    NestedFold(props, k, models, prefix).Returns? ==> StoredUpTo(NestedFold(props, k, models, prefix).value.1, props, k, prefix)
  }

  /**
    `models[prefix + prop] = _.cloneDeep(model.properties[prop])` runs
    before the recursion: when no later write reuses the name, the model
    stored for each object-like property is that property as it was, with
    its own nested properties not yet replaced by references.
   */
  lemma NestedModelsStoresCopy(model: JValue, models: Fields, prefix: string)
    requires WellFormed(model)
    requires NestedModels(model, models, prefix).Returns?
    requires Prop(model, "properties").JObj? && NamesNotReusedBelow(Prop(model, "properties").fields)
    ensures var props := Prop(model, "properties").fields;
      forall i :: 0 <= i < |props| && ObjectLike(props[i].1) == Returns(true) ==>
        Lookup(NestedModels(model, models, prefix).value.1, prefix + props[i].0) == Some(props[i].1)
  {
    var props := Prop(model, "properties").fields;
    assert DistinctKeys(props) by { WellFormedProp(model, "properties"); }
    NestedModelsUnfold(model, models, prefix);
    NestedFoldStores(props, |props|, models, prefix);
    forall i | 0 <= i < |props| && ObjectLike(props[i].1) == Returns(true)
      ensures Lookup(NestedModels(model, models, prefix).value.1, prefix + props[i].0) == Some(props[i].1)
    {
      assert ModelName(props, prefix, i) == prefix + props[i].0;
    }
  }

  /** After the first `n` names, each object-like one among them is stored as it was. */
  lemma NestedFoldStores(props: Fields, n: nat, models: Fields, prefix: string)
    requires n <= |props| && DistinctKeys(props) && NamesNotReusedBelow(props)
    ensures FoldStores(props, n, models, prefix)
  {
    for k := 0 to n
      invariant FoldStores(props, k, models, prefix)
    {
      NestedFoldStoresNext(props, k, models, prefix);
    }
  }

  /** Name `k` stores its property; the nested models and the earlier names write none of the stored names. */
  lemma NestedFoldStoresNext(props: Fields, k: nat, models: Fields, prefix: string)
    requires k < |props| && DistinctKeys(props) && NamesNotReusedBelow(props)
    requires FoldStores(props, k, models, prefix)
    ensures FoldStores(props, k + 1, models, prefix)
  {
    if NestedFold(props, k + 1, models, prefix).Returns? {
      NestedFoldPrefixReturns(props, k, models, prefix);
      var before := NestedFold(props, k, models, prefix).value;
      NestedFoldAdvance(props, k, models, prefix, before);
      var f := props[k];
      if ObjectLike(f.1) == Returns(true) {
        NestedFoldStoresObject(props, k, prefix, before.1);
      } else {
        StoredSkip(before.1, props, k, prefix);
      }
    }
  }

  /** An object-like name `k` is stored, and its nested models write none of the names stored so far. */
  lemma NestedFoldStoresObject(props: Fields, k: nat, prefix: string, ms: Fields)
    requires k < |props| && DistinctKeys(props) && NamesNotReusedBelow(props)
    requires StoredUpTo(ms, props, k, prefix)
    requires NestedModels(props[k].1, Put(ms, prefix + props[k].0, props[k].1), prefix).Returns?
    ensures StoredUpTo(NestedModels(props[k].1, Put(ms, prefix + props[k].0, props[k].1), prefix).value.1, props, k + 1, prefix)
  {
    var f := props[k];
    var put := Put(ms, prefix + f.0, f.1);
    NestedModelsFrame(f.1, put, prefix);
    forall i | 0 <= i < k ensures props[i].0 != f.0 && props[i].0 !in NestedNames(f.1) { }
    assert EarlierFresh(props, k, prefix, NestedNames(f.1));
    StoredStep(ms, NestedModels(f.1, put, prefix).value.1, props, k, prefix, NestedNames(f.1));
  }

  /** A name that is not object-like stores nothing, so what was stored stays. */
  lemma StoredSkip(ms: Fields, props: Fields, k: nat, prefix: string)
    requires k < |props| && ObjectLike(props[k].1) != Returns(true)
    requires StoredUpTo(ms, props, k, prefix)
    ensures StoredUpTo(ms, props, k + 1, prefix)
  {
    forall i | 0 <= i < k + 1 && ObjectLike(props[i].1) == Returns(true)
      ensures Lookup(ms, ModelName(props, prefix, i)) == Some(props[i].1)
    {
      assert props[i] != props[k] || i < k;  // property `k` is not object-like, so `i` is an earlier one
      assert Lookup(ms, ModelName(props, prefix, i)) == Some(props[i].1);
    }
  }

  /** The names before `k` differ from name `k` and are none of the names written below it. */
  predicate EarlierFresh(props: Fields, k: nat, prefix: string, below: set<string>)
    requires k < |props|
  {
    forall i {:trigger ModelName(props, prefix, i)} :: 0 <= i < k ==> props[i].0 != props[k].0 && props[i].0 !in below
  }

  /** Storing property `k` and then writing only the names `below` it keeps the properties stored so far. */
  lemma StoredStep(ms: Fields, after: Fields, props: Fields, k: nat, prefix: string, below: set<string>)
    requires k < |props| && props[k].0 !in below
    requires EarlierFresh(props, k, prefix, below)
    requires StoredUpTo(ms, props, k, prefix)
    requires Untouched(Put(ms, prefix + props[k].0, props[k].1), after, prefix, below)
    ensures StoredUpTo(after, props, k + 1, prefix)
  {
    StoredKeepsEarlier(ms, after, props, k, prefix, below);
    StoredStepAt(ms, after, prefix, props[k].0, props[k].1, props[k].0, props[k].1, below);
    assert Lookup(after, ModelName(props, prefix, k)) == Some(props[k].1);
  }

  /** The properties stored before `k` survive the registration of `k` and the writes below it. */
  lemma StoredKeepsEarlier(ms: Fields, after: Fields, props: Fields, k: nat, prefix: string, below: set<string>)
    requires k < |props|
    requires EarlierFresh(props, k, prefix, below)
    requires StoredUpTo(ms, props, k, prefix)
    requires Untouched(Put(ms, prefix + props[k].0, props[k].1), after, prefix, below)
    ensures StoredUpTo(after, props, k, prefix)
  {
    forall i | 0 <= i < k && ObjectLike(props[i].1) == Returns(true)
      ensures Lookup(after, ModelName(props, prefix, i)) == Some(props[i].1)
    {
      assert Lookup(ms, ModelName(props, prefix, i)) == Some(props[i].1);
      StoredStepAt(ms, after, prefix, props[k].0, props[k].1, props[i].0, props[i].1, below);
    }
  }

  /** One stored name: either the one just registered, or an earlier one that nothing since has written. */
  lemma StoredStepAt(ms: Fields, after: Fields, prefix: string, name: string, v: JValue, n: string, w: JValue, below: set<string>)
    requires n !in below
    requires n == name ==> w == v
    requires n != name ==> Lookup(ms, prefix + n) == Some(w)
    requires Untouched(Put(ms, prefix + name, v), after, prefix, below)
    ensures Lookup(after, prefix + n) == Some(w)
  {
    assert Lookup(after, Prefixed(prefix, n)) == Lookup(Put(ms, prefix + name, v), Prefixed(prefix, n));
    if n != name {
      PrefixedDiffer(prefix, n, name);
    }
  }
}
