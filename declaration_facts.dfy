/**
  What lib/SwaggerManager.js's `getApiDeclarationModel` guarantees about the
  APIs and operations it lists and the models it registers, proved from the
  loop lemmas of the module Folds.
 */
module DeclarationFacts {
  import opened Json
  import opened JsString
  import opened SchemaKeys
  import opened SwaggerRoutes
  import opened SwaggerOperations
  import opened SwaggerModels
  import opened SwaggerDocs
  import opened Folds

  // ----- the operations of one path -----

  /** `ops` holds, in order, the operation `getSwaggerOperationForRoute` builds for each route on `path`. */
  predicate OpsHold(ops: seq<Operation>, routes: seq<Route>, pluginName: string, path: string)
  {
    |ops| == |routes| && forall j :: 0 <= j < |routes| ==> OperationSpec(routes[j], pluginName, path) == Returns(ops[j])
  }

  /** The `forEach` over the routes of one path pushes, in order, the operation of each route. */
  lemma OperationsFoldOperations(path: string, routes: seq<Route>, pluginName: string, models: Fields)
    requires FoldSteps(routes, |routes|, models, RouteStepper(pluginName, path)).Returns?
    ensures OpsHold(FoldSteps(routes, |routes|, models, RouteStepper(pluginName, path)).value.0, routes, pluginName, path)
  {
    var stepper := RouteStepper(pluginName, path);
    var builds := (route: Route, op: Operation) => OperationSpec(route, pluginName, path) == Returns(op);
    forall route, ms | stepper(route, ms).Returns?
      ensures builds(route, stepper(route, ms).value.0)
    {
      assert stepper(route, ms) == RouteStep(route, pluginName, path, ms);
    }
    FoldStepsResults(routes, |routes|, models, stepper, builds);
  }

  // ----- the models registered along one path -----

  /** `later` keeps every model name of `earlier`. */
  predicate KeepsNames(earlier: Fields, later: Fields)
  {
    forall k :: k in KeysOf(earlier) ==> k in KeysOf(later)
  }

  /** The truthy response and request models of `route` are in `models` under `<nickname>_response` and `<nickname>_body`. */
  predicate RouteModelsIn(route: Route, op: Operation, models: Fields, pluginName: string)
  {
    && (Truthy(ModelForRoute(route, pluginName, Response)) ==> op.nickname + "_response" in KeysOf(models))
    && (Truthy(ModelForRoute(route, pluginName, Payload)) ==> op.nickname + "_body" in KeysOf(models))
  }

  /** Keeping every name is a preorder. */
  lemma KeepsNamesPreorder()
    ensures forall ms :: KeepsNames(ms, ms)
    ensures forall ms0, ms1, ms2 :: KeepsNames(ms0, ms1) && KeepsNames(ms1, ms2) ==> KeepsNames(ms0, ms2)
  {
  }

  /** A registered model stays registered while names are kept. */
  lemma RouteModelsInKept(pluginName: string)
    ensures forall route, op, ms, ms' :: RouteModelsIn(route, op, ms, pluginName) && KeepsNames(ms, ms') ==> RouteModelsIn(route, op, ms', pluginName)
  {
  }

  /** Each step of the `forEach` keeps every name and registers its route's models. */
  lemma RouteStepperRegisters(pluginName: string, path: string)
    ensures forall route, ms :: RouteStepper(pluginName, path)(route, ms).Returns? ==>
      var step := RouteStepper(pluginName, path)(route, ms).value;
      KeepsNames(ms, step.1) && RouteModelsIn(route, step.0, step.1, pluginName)
  {
    forall route, ms | RouteStepper(pluginName, path)(route, ms).Returns?
      ensures var step := RouteStepper(pluginName, path)(route, ms).value;
        KeepsNames(ms, step.1) && RouteModelsIn(route, step.0, step.1, pluginName)
    {
      assert RouteStepper(pluginName, path)(route, ms) == RouteStep(route, pluginName, path, ms);
      RouteStepRegisters(route, pluginName, path, ms);
    }
  }

  /**
    Along one path, every route with a request or response model leaves it
    registered under its operation's nickname, and no model is dropped.
   */
  lemma OperationsFoldRegisters(path: string, routes: seq<Route>, pluginName: string, models: Fields)
    requires FoldSteps(routes, |routes|, models, RouteStepper(pluginName, path)).Returns?
    ensures var fold := FoldSteps(routes, |routes|, models, RouteStepper(pluginName, path)).value;
      && KeepsNames(models, fold.1)
      && forall j :: 0 <= j < |routes| ==> RouteModelsIn(routes[j], fold.0[j], fold.1, pluginName)
  {
    var stepper := RouteStepper(pluginName, path);
    var keep := (earlier: Fields, later: Fields) => KeepsNames(earlier, later);
    var mark := (route: Route, op: Operation, ms: Fields) => RouteModelsIn(route, op, ms, pluginName);
    KeepsNamesPreorder();
    RouteModelsInKept(pluginName);
    RouteStepperRegisters(pluginName, path);
    FoldStepsKeeps(routes, |routes|, models, stepper, keep, mark);
  }

  // ----- the APIs of the declaration -----

  /** `api` is the API of one path group: that path, and the operation of each of its routes. */
  predicate ApiHolds(api: Api, group: (string, seq<Route>), pluginName: string)
  {
    api.path == group.0 && OpsHold(api.operations, group.1, pluginName, group.0)
  }

  /** Each API of the loop is its path with the operations of that path's routes. */
  lemma ApisFoldOperations(routesByPath: seq<(string, seq<Route>)>, pluginName: string, models: Fields)
    requires FoldSteps(routesByPath, |routesByPath|, models, ApiStepper(pluginName)).Returns?
    ensures var apis := FoldSteps(routesByPath, |routesByPath|, models, ApiStepper(pluginName)).value.0;
      forall i :: 0 <= i < |routesByPath| ==> ApiHolds(apis[i], routesByPath[i], pluginName)
  {
    var stepper := ApiStepper(pluginName);
    var holds := (group: (string, seq<Route>), api: Api) => ApiHolds(api, group, pluginName);
    forall group, ms | stepper(group, ms).Returns?
      ensures holds(group, stepper(group, ms).value.0)
    {
      assert stepper(group, ms) == ApiStep(group, pluginName, ms);
      OperationsFoldOperations(group.0, group.1, pluginName, ms);
    }
    FoldStepsResults(routesByPath, |routesByPath|, models, stepper, holds);
  }

  /** The models of every route of `group` are in `models`, under the nicknames of `api`'s operations. */
  predicate GroupModelsIn(group: (string, seq<Route>), api: Api, models: Fields, pluginName: string)
  {
    forall j :: 0 <= j < |group.1| && j < |api.operations| ==> RouteModelsIn(group.1[j], api.operations[j], models, pluginName)
  }

  /** Across all paths, every route's models end up registered, and no model is dropped. */
  lemma ApisFoldRegisters(routesByPath: seq<(string, seq<Route>)>, pluginName: string, models: Fields)
    requires FoldSteps(routesByPath, |routesByPath|, models, ApiStepper(pluginName)).Returns?
    ensures var fold := FoldSteps(routesByPath, |routesByPath|, models, ApiStepper(pluginName)).value;
      && KeepsNames(models, fold.1)
      && forall i :: 0 <= i < |routesByPath| ==> GroupModelsIn(routesByPath[i], fold.0[i], fold.1, pluginName)
  {
    var stepper := ApiStepper(pluginName);
    var keep := (earlier: Fields, later: Fields) => KeepsNames(earlier, later);
    var mark := (group: (string, seq<Route>), api: Api, ms: Fields) => GroupModelsIn(group, api, ms, pluginName);
    forall group, ms | stepper(group, ms).Returns?
      ensures keep(ms, stepper(group, ms).value.1) && mark(group, stepper(group, ms).value.0, stepper(group, ms).value.1)
    {
      assert stepper(group, ms) == ApiStep(group, pluginName, ms);
      OperationsFoldRegisters(group.0, group.1, pluginName, ms);
    }
    FoldStepsKeeps(routesByPath, |routesByPath|, models, stepper, keep, mark);
  }

  /**
    A declaration lists one API per distinct path of the named API, in
    order, each with the operation of every route on that path, and the
    content types those routes consume.
   */
  lemma DeclarationShape(opts: DocsOptions, routes: seq<Route>, apiName: string)
    requires DeclarationSpec(opts, routes, apiName).Returns?
    ensures var d := DeclarationSpec(opts, routes, apiName).value;
      var routesByPath := RoutesByPath(routes, opts.pluginName, apiName);
      && d.swaggerVersion == "1.2" && d.resourcePath == "/" + apiName && d.basePath == opts.baseUrl
      && d.produces == opts.responseContentTypes && d.apiVersion == opts.apiVersion
      && d.consumes == Consumes(routesByPath)
      && |d.apis| == |routesByPath|
      && forall i :: 0 <= i < |d.apis| ==> ApiHolds(d.apis[i], routesByPath[i], opts.pluginName)
  {
    var routesByPath := RoutesByPath(routes, opts.pluginName, apiName);
    ApisFoldOperations(routesByPath, opts.pluginName, []);
  }

  /**
    Without a models hook, the declaration's models hold the response and
    request model of every route it documents.
   */
  lemma DeclarationModels(opts: DocsOptions, routes: seq<Route>, apiName: string)
    requires opts.modelsHook.None?
    requires DeclarationSpec(opts, routes, apiName).Returns?
    ensures var d := DeclarationSpec(opts, routes, apiName).value;
      var routesByPath := RoutesByPath(routes, opts.pluginName, apiName);
      |d.apis| == |routesByPath| &&
      forall i :: 0 <= i < |d.apis| ==> GroupModelsIn(routesByPath[i], d.apis[i], d.models, opts.pluginName)
  {
    var routesByPath := RoutesByPath(routes, opts.pluginName, apiName);
    ApisFoldRegisters(routesByPath, opts.pluginName, []);
  }
}
