/**
  The Swagger 1.2 API declaration of lib/SwaggerManager.js
  (`getApiDeclarationModel`): the routes of one API grouped by path, an
  operation per route, the request and response models with their nested
  models, the content types the API consumes, and the per-API docs cache.
 */
module SwaggerDocs {
  import opened Json
  import opened JsString
  import opened SchemaKeys
  import opened SwaggerRoutes
  import opened SwaggerOperations
  import opened SwaggerModels
  import opened NestedModelFacts
  import opened Folds

  // ----- `consumes` -----

  const DefaultConsumes: seq<JValue> := [JStr("application/json"), JStr("application/x-www-form-urlencoded")]

  /**
    What one route adds to `consumes` once flattened: `null` unless the route
    parses its payload, else its `payload.allow` (the elements of an array,
    or the value itself), else the two default content types.
   */
  function RouteConsumes(route: Route): seq<JValue>
  {
    var payload := Prop(route.settings, "payload");
    if Truthy(payload) && Truthy(Prop(payload, "parse")) then
      var allow := Prop(payload, "allow");
      if !Truthy(allow) then DefaultConsumes
      else if allow.JArr? then allow.elems
      else [allow]
    else [JNull]
  }

  /** `_.chain(routesByPath).map(identity).flatten()`: the routes of every path group, group by group. */
  function Flatten(gs: seq<(string, seq<Route>)>): (r: seq<Route>)
    ensures forall x :: x in r <==> exists i :: 0 <= i < |gs| && x in gs[i].1
    decreases |gs|
  {
    if |gs| == 0 then []
    else
      var init := gs[..|gs| - 1];
      var r := Flatten(init) + gs[|gs| - 1].1;
      assert forall i :: 0 <= i < |gs| - 1 ==> init[i] == gs[i];
      r
  }

  /** `_.chain(xs).map(f).flatten()` for a mapping that yields arrays: the values of every item, item by item. */
  function FlatMap<T, U>(xs: seq<T>, f: T -> seq<U>): seq<U>
    decreases |xs|
  {
    if |xs| == 0 then [] else FlatMap(xs[..|xs| - 1], f) + f(xs[|xs| - 1])
  }

  /** A value is in the flattened result exactly when some item yields it. */
  lemma {:induction false} FlatMapMembers<T, U>(xs: seq<T>, f: T -> seq<U>, x: U)
    ensures x in FlatMap(xs, f) <==> exists t :: t in xs && x in f(t)
    decreases |xs|
  {
    if |xs| > 0 {
      var init := xs[..|xs| - 1];
      FlatMapMembers(init, f, x);
      assert FlatMap(xs, f) == FlatMap(init, f) + f(xs[|xs| - 1]);
      if x in FlatMap(init, f) {
        var t :| t in init && x in f(t);
        var i :| 0 <= i < |init| && init[i] == t;
        assert xs[i] == t;
      } else if x in f(xs[|xs| - 1]) {
        assert xs[|xs| - 1] in xs;
      } else {
        forall t | t in xs
          ensures x !in f(t)
        {
          var i :| 0 <= i < |xs| && xs[i] == t;
          if i < |init| {
            assert init[i] == t;
          }
        }
      }
    }
  }

  /** The entries of every route, before `uniq` and `compact`. */
  function ConsumesEntries(routes: seq<Route>): seq<JValue>
  {
    FlatMap(routes, RouteConsumes)
  }

  predicate DistinctValues(xs: seq<JValue>)
  {
    forall i, j :: 0 <= i < j < |xs| ==> xs[i] != xs[j]
  }

  /** `_.uniq`: the first occurrence of every value, in order. */
  function Uniq(xs: seq<JValue>): (r: seq<JValue>)
    ensures DistinctValues(r)
    ensures forall x :: x in r <==> x in xs
    decreases |xs|
  {
    if |xs| == 0 then []
    else
      var seen := Uniq(xs[..|xs| - 1]);
      var x := xs[|xs| - 1];
      assert forall y :: y in xs <==> y in xs[..|xs| - 1] || y == x;
      if x in seen then seen else seen + [x]
  }

  /** `_.compact`: the truthy values, in order. */
  function Compact(xs: seq<JValue>): (r: seq<JValue>)
    ensures forall x :: x in r <==> x in xs && Truthy(x)
    ensures |r| <= |xs|
    decreases |xs|
  {
    if |xs| == 0 then []
    else
      var kept := Compact(xs[..|xs| - 1]);
      var x := xs[|xs| - 1];
      assert forall y :: y in xs <==> y in xs[..|xs| - 1] || y == x;
      if Truthy(x) then kept + [x] else kept
  }

  /** `compact` keeps the order, so it keeps distinct values distinct. */
  lemma {:induction false} CompactKeepsDistinct(xs: seq<JValue>)
    requires DistinctValues(xs)
    ensures DistinctValues(Compact(xs))
    decreases |xs|
  {
    if |xs| > 0 {
      var init := xs[..|xs| - 1];
      assert DistinctValues(init) by {
        forall i, j | 0 <= i < j < |init| ensures init[i] != init[j] {
          assert init[i] == xs[i] && init[j] == xs[j];
        }
      }
      CompactKeepsDistinct(init);
      var x := xs[|xs| - 1];
      assert x !in init by {
        forall i | 0 <= i < |init| ensures init[i] != x {
          assert init[i] == xs[i];
        }
      }
    }
  }

  /** `apiObj.consumes` for the routes of the API, grouped by path. */
  function Consumes(routesByPath: seq<(string, seq<Route>)>): seq<JValue>
  {
    Compact(Uniq(ConsumesEntries(Flatten(routesByPath))))
  }

  /**
    `consumes` lists each content type once, and lists a value exactly when
    it is truthy and some route of the API accepts it.
   */
  lemma ConsumesExact(routesByPath: seq<(string, seq<Route>)>)
    ensures DistinctValues(Consumes(routesByPath))
    ensures forall x :: x in Consumes(routesByPath) <==>
      Truthy(x) && exists route :: route in Flatten(routesByPath) && x in RouteConsumes(route)
  {
    var entries := ConsumesEntries(Flatten(routesByPath));
    CompactKeepsDistinct(Uniq(entries));
    var routes := Flatten(routesByPath);
    forall x ensures x in entries <==> exists route :: route in routes && x in RouteConsumes(route) {
      FlatMapMembers(routes, RouteConsumes, x);
    }
  }

  /** A route that parses its payload without an `allow` list accepts JSON and URL-encoded forms. */
  lemma DefaultConsumesWithoutAllow(route: Route)
    requires Truthy(Prop(route.settings, "payload")) && Truthy(Prop(Prop(route.settings, "payload"), "parse"))
    requires !Truthy(Prop(Prop(route.settings, "payload"), "allow"))
    ensures RouteConsumes(route) == DefaultConsumes
    ensures Consumes([(route.path, [route])]) == DefaultConsumes
  {
    SingleRouteEntries(route);
    DefaultConsumesClean();
  }

  /** One path with one route: the entries are that route's. */
  lemma SingleRouteEntries(route: Route)
    ensures Flatten([(route.path, [route])]) == [route]
    ensures ConsumesEntries([route]) == RouteConsumes(route)
  {
    assert [(route.path, [route])][..0] == [];
    assert [route][..0] == [];
    assert FlatMap([route], RouteConsumes) == FlatMap([], RouteConsumes) + RouteConsumes(route);
  }

  /** The default content types are distinct and truthy, so `uniq` and `compact` leave them as they are. */
  lemma DefaultConsumesClean()
    ensures Uniq(DefaultConsumes) == DefaultConsumes
    ensures Compact(DefaultConsumes) == DefaultConsumes
  {
    assert DefaultConsumes[..1] == [JStr("application/json")];
    assert DefaultConsumes[..1][..0] == [];
  }

  // ----- models of one route -----

  /**
    Lines 318-328 for one model: a truthy model is stored under `name`, its
    nested models are generated under `name + "_"`, and since the map holds
    the same object, the stored model is the one with `$ref`s.
   */
  function RegisterModel(model: JValue, models: Fields, name: string): Outcome<Fields>
  {
    if !Truthy(model) then Returns(models)
    else
      match NestedModels(model, Put(models, name, model), name + "_")
      case Throws(e) => Throws(e)
      case Returns((updated, ms)) => Returns(Put(ms, name, updated))
  }

  /**
    Registering a model keeps every model already there, adds only names
    that start with `name`, and stores the model under `name` with its
    object-like properties turned into references.
   */
  lemma RegisterModelFacts(model: JValue, models: Fields, name: string)
    requires RegisterModel(model, models, name).Returns?
    ensures GrowsUnder(models, RegisterModel(model, models, name).value, name)
    ensures Truthy(model) ==> Lookup(RegisterModel(model, models, name).value, name) == Some(NestedModels(model, Put(models, name, model), name + "_").value.0)
    ensures !Truthy(model) ==> RegisterModel(model, models, name).value == models
  {
    if Truthy(model) {
      var put := Put(models, name, model);
      PutGrowsUnder(models, name, "", model);
      assert name + "" == name;
      NestedModelsGrowUnderPrefix(model, put, name + "_");
      var ms := NestedModels(model, put, name + "_").value.1;
      GrowsUnderWiden(put, ms, name);
      GrowsUnderTrans(models, put, ms, name);
      PutGrowsUnder(ms, name, "", NestedModels(model, put, name + "_").value.0);
      GrowsUnderTrans(models, ms, RegisterModel(model, models, name).value, name);
    }
  }

  /** The operation of one route and the models map after its response and request models. */
  function RouteStep(route: Route, pluginName: string, path: string, models: Fields): (r: Outcome<(Operation, Fields)>)
    ensures r.Returns? ==> OperationSpec(route, pluginName, path) == Returns(r.value.0)
  {
    match OperationSpec(route, pluginName, path)
    case Throws(e) => Throws(e)
    case Returns(op) =>
      match RegisterModel(ModelForRoute(route, pluginName, Response), models, op.nickname + "_response")
      case Throws(e) => Throws(e)
      case Returns(ms) =>
        match RegisterModel(ModelForRoute(route, pluginName, Payload), ms, op.nickname + "_body")
        case Throws(e) => Throws(e)
        case Returns(ms') => Returns((op, ms'))
  }

  /** The models a route registers stay registered, and nothing registered earlier is dropped. */
  lemma RouteStepRegisters(route: Route, pluginName: string, path: string, models: Fields)
    requires RouteStep(route, pluginName, path, models).Returns?
    ensures var step := RouteStep(route, pluginName, path, models).value;
      && (forall k :: k in KeysOf(models) ==> k in KeysOf(step.1))
      && (Truthy(ModelForRoute(route, pluginName, Response)) ==> step.0.nickname + "_response" in KeysOf(step.1))
      && (Truthy(ModelForRoute(route, pluginName, Payload)) ==> step.0.nickname + "_body" in KeysOf(step.1))
  {
    var op := OperationSpec(route, pluginName, path).value;
    var ms1 := RegisterModel(ModelForRoute(route, pluginName, Response), models, op.nickname + "_response").value;
    RegisterModelFacts(ModelForRoute(route, pluginName, Response), models, op.nickname + "_response");
    RegisterModelFacts(ModelForRoute(route, pluginName, Payload), ms1, op.nickname + "_body");
  }

  // ----- the declaration -----

  datatype Api = Api(path: string, operations: seq<Operation>)

  datatype ApiDeclaration = ApiDeclaration(apiVersion: string, swaggerVersion: string, basePath: JValue, resourcePath: string,
                                           produces: JValue, consumes: seq<JValue>, apis: seq<Api>, models: Fields)

  /** The body of `routesByPath[path].forEach(...)`, as the step of a loop that may raise. */
  function RouteStepper(pluginName: string, path: string): (Route, Fields) -> Outcome<(Operation, Fields)>
  {
    (route: Route, models: Fields) => RouteStep(route, pluginName, path, models)
  }

  /** One path of the `for (prop in routesByPath)` loop: the API of the path, after the `forEach` over its routes. */
  function ApiStep(group: (string, seq<Route>), pluginName: string, models: Fields): (r: Outcome<(Api, Fields)>)
    ensures r.Returns? ==> r.value.0.path == group.0 && |r.value.0.operations| == |group.1|
  {
    match FoldSteps(group.1, |group.1|, models, RouteStepper(pluginName, group.0))
    case Throws(e) => Throws(e)
    case Returns(ops) => Returns((Api(group.0, ops.0), ops.1))
  }

  /** The body of the `for (prop in routesByPath)` loop, as the step of a loop that may raise. */
  function ApiStepper(pluginName: string): ((string, seq<Route>), Fields) -> Outcome<(Api, Fields)>
  {
    (group: (string, seq<Route>), models: Fields) => ApiStep(group, pluginName, models)
  }

  /** `routesByPath` for the API: its routes, grouped by path. */
  function RoutesByPath(routes: seq<Route>, pluginName: string, apiName: string): seq<(string, seq<Route>)>
  {
    GroupBy(GroupOf(RoutesGroupedByName(routes, pluginName), apiName), (route: Route) => route.path)
  }

  /** The options of the manager that shape a declaration. */
  datatype DocsOptions = DocsOptions(pluginName: string, apiVersion: string, baseUrl: JValue, responseContentTypes: JValue,
                                     modelsHook: Option<Fields -> Fields>)

  /** `getApiDeclarationModel(routes, apiName)` computed afresh. */
  function DeclarationSpec(opts: DocsOptions, routes: seq<Route>, apiName: string): Outcome<ApiDeclaration>
  {
    var routesByPath := RoutesByPath(routes, opts.pluginName, apiName);
    match FoldSteps(routesByPath, |routesByPath|, [], ApiStepper(opts.pluginName))
    case Throws(e) => Throws(e)
    case Returns(built) =>
      var hooked := if opts.modelsHook.Some? then opts.modelsHook.value(built.1) else built.1;
      Returns(ApiDeclaration(opts.apiVersion, SwaggerVersion, opts.baseUrl, "/" + apiName, opts.responseContentTypes,
                             Consumes(routesByPath), built.0, hooked))
  }

  /** An API name that groups no route yields an empty declaration. */
  lemma UnknownApiIsEmpty(opts: DocsOptions, routes: seq<Route>, apiName: string)
    requires !IsValidApi(routes, opts.pluginName, apiName)
    ensures DeclarationSpec(opts, routes, apiName).Returns?
    ensures var d := DeclarationSpec(opts, routes, apiName).value;
      d.apis == [] && d.consumes == [] && d.models == (if opts.modelsHook.Some? then opts.modelsHook.value([]) else [])
  {
    var gs := RoutesGroupedByName(routes, opts.pluginName);
    IsValidApiIff(routes, opts.pluginName, apiName);
    GroupByIsSelect(DocumentedRoutes(routes, opts.pluginName), RouteGroupName);
    assert GroupOf(gs, apiName) == [];
  }

  // ----- the docs cache -----

  /**
    One call of `getApiDeclarationModel` against the cache: with caching on,
    a cached declaration is returned as it is; otherwise the fresh result,
    which is cached when caching is on and the computation did not raise.
   */
  function ServeDeclaration(cache: map<string, ApiDeclaration>, docsCaching: bool, apiName: string,
                            computed: Outcome<ApiDeclaration>): (Outcome<ApiDeclaration>, map<string, ApiDeclaration>)
  {
    if docsCaching && apiName in cache then (Returns(cache[apiName]), cache)
    else
      match computed
      case Throws(e) => (Throws(e), cache)
      case Returns(d) => (Returns(d), if docsCaching then cache[apiName := d] else cache)
  }

  /**
    With caching on, once a declaration has been served for a name, every
    later request for that name gets the same declaration, whatever the
    routes are then, and the cache no longer changes.
   */
  lemma CachedDeclarationIsStable(cache: map<string, ApiDeclaration>, apiName: string, first: Outcome<ApiDeclaration>,
                                  later: Outcome<ApiDeclaration>)
    requires ServeDeclaration(cache, true, apiName, first).0.Returns?
    ensures var served := ServeDeclaration(cache, true, apiName, first);
      ServeDeclaration(served.1, true, apiName, later) == served
  {
  }

  /** With caching off, every request is computed afresh and nothing is stored. */
  lemma UncachedIsFresh(cache: map<string, ApiDeclaration>, apiName: string, computed: Outcome<ApiDeclaration>)
    ensures ServeDeclaration(cache, false, apiName, computed) == (computed, cache)
  {
  }

  /** The parts of `SwaggerManager` that build API declarations. */
  class SwaggerManager {
    const opts: DocsOptions
    const docsCaching: bool
    var apiDocsCache: map<string, ApiDeclaration>

    /** Without `docsCaching` the cache does not exist, so nothing is ever stored. */
    ghost predicate Valid()
      reads this
    {
      !docsCaching ==> apiDocsCache == map[]
    }

    /** `new SwaggerManager(options)`: an empty cache. */
    constructor (opts: DocsOptions, docsCaching: bool)
      ensures Valid() && apiDocsCache == map[]
      ensures this.opts == opts && this.docsCaching == docsCaching
    {
      this.opts := opts;
      this.docsCaching := docsCaching;
      apiDocsCache := map[];
    }

    /** `getApiDeclarationModel(routes, apiName)`. */
    method GetApiDeclarationModel(routes: seq<Route>, apiName: string) returns (r: Outcome<ApiDeclaration>)
      requires Valid()
      modifies this`apiDocsCache
      ensures Valid()
      ensures (r, apiDocsCache) == ServeDeclaration(old(apiDocsCache), docsCaching, apiName, DeclarationSpec(opts, routes, apiName))
    {
      if docsCaching && apiName in apiDocsCache {
        return Returns(apiDocsCache[apiName]);
      }
      var routesByPath := RoutesByPath(routes, opts.pluginName, apiName);
      var built := BuildApis(routesByPath, opts.pluginName);
      if built.Throws? {
        return Throws(built.error);
      }
      var (apis, models) := built.value;
      if opts.modelsHook.Some? {
        models := opts.modelsHook.value(models);
      }
      var d := ApiDeclaration(opts.apiVersion, SwaggerVersion, opts.baseUrl, "/" + apiName, opts.responseContentTypes,
                              Consumes(routesByPath), apis, models);
      if docsCaching {
        apiDocsCache := apiDocsCache[apiName := d];
      }
      return Returns(d);
    }
  }

  /** The `for (prop in routesByPath)` loop: one API per path, pushed in order. */
  method BuildApis(routesByPath: seq<(string, seq<Route>)>, pluginName: string) returns (r: Outcome<(seq<Api>, Fields)>)
    ensures r == FoldSteps(routesByPath, |routesByPath|, [], ApiStepper(pluginName))
  {
    var apis: seq<Api> := [];
    var models: Fields := [];
    var i := 0;
    while i < |routesByPath|
      invariant 0 <= i <= |routesByPath|
      invariant FoldSteps(routesByPath, i, [], ApiStepper(pluginName)) == Returns((apis, models))
    {
      FoldStepsStep(routesByPath, i, [], ApiStepper(pluginName), (apis, models));
      var (path, routes) := routesByPath[i];
      var ops := BuildOperations(path, routes, pluginName, models);
      assert ApiStepper(pluginName)(routesByPath[i], models) == ApiStep(routesByPath[i], pluginName, models);
      if ops.Throws? {
        FoldStepsThrowsPrefix(routesByPath, i + 1, [], ApiStepper(pluginName), ops.error);
        return Throws(ops.error);
      }
      apis := apis + [Api(path, ops.value.0)];
      models := ops.value.1;
      i := i + 1;
    }
    return Returns((apis, models));
  }

  /** `routesByPath[path].forEach(...)`: an operation per route, and its models. */
  method BuildOperations(path: string, routes: seq<Route>, pluginName: string, models: Fields) returns (r: Outcome<(seq<Operation>, Fields)>)
    ensures r == FoldSteps(routes, |routes|, models, RouteStepper(pluginName, path))
  {
    ghost var stepper := RouteStepper(pluginName, path);
    var ops: seq<Operation> := [];
    var ms := models;
    var i := 0;
    while i < |routes|
      invariant 0 <= i <= |routes|
      invariant FoldSteps(routes, i, models, stepper) == Returns((ops, ms))
    {
      FoldStepsStep(routes, i, models, stepper, (ops, ms));
      var step := BuildRoute(routes[i], pluginName, path, ms);
      if step.Throws? {
        FoldStepsThrowsPrefix(routes, i + 1, models, stepper, step.error);
        return Throws(step.error);
      }
      ops := ops + [step.value.0];
      ms := step.value.1;
      i := i + 1;
    }
    return Returns((ops, ms));
  }

  /** The body of the `forEach` (the loop's step, `RouteStep`): the operation, then the response model, then the request model. */
  method BuildRoute(route: Route, pluginName: string, path: string, models: Fields) returns (r: Outcome<(Operation, Fields)>)
    ensures r == RouteStepper(pluginName, path)(route, models)
  {
    assert RouteStepper(pluginName, path)(route, models) == RouteStep(route, pluginName, path, models);
    var operation := GetSwaggerOperationForRoute(route, pluginName, path);
    if operation.Throws? {
      return Throws(operation.error);
    }
    var op := operation.value;
    var afterResponse := AddModel(ModelForRoute(route, pluginName, Response), models, op.nickname + "_response");
    if afterResponse.Throws? {
      return Throws(afterResponse.error);
    }
    var afterBody := AddModel(ModelForRoute(route, pluginName, Payload), afterResponse.value, op.nickname + "_body");
    if afterBody.Throws? {
      return Throws(afterBody.error);
    }
    return Returns((op, afterBody.value));
  }

  /** `models[name] = model; generateNestedModels(model, models, name + '_')` for a truthy model. */
  method AddModel(model: JValue, models: Fields, name: string) returns (r: Outcome<Fields>)
    ensures r == RegisterModel(model, models, name)
  {
    if !Truthy(model) {
      return Returns(models);
    }
    var nested := GenerateNestedModels(model, Put(models, name, model), name + "_");
    if nested.Throws? {
      return Throws(nested.error);
    }
    return Returns(Put(nested.value.1, name, nested.value.0));
  }
}
