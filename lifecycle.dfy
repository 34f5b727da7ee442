/**
  The three Hapi extension points of lib/RequestValidator.js: `onRequest`
  compiles the schemas of the server's routes, `onPreHandler` validates the
  request surfaces in order, and `onPostHandler` validates a sample of the
  responses.
 */
module Lifecycle {
  import opened Json
  import opened SchemaKeys
  import opened Registration
  import opened Validators
  import opened SchemaManager

  /** What an extension hands to `next`: nothing, or an error that ends the request. */
  datatype HookResult = Next | NextError(error: JsError)

  /** `try { initializeRoutes(...) } catch (error) { return next(error); } next();` */
  function RequestHookResult(init: InitResult): HookResult
  {
    match init.error
    case None => Next
    case Some(e) => NextError(e)
  }

  // ----- onRequest -----

  /**
    `onRequest` as written: `initializeRoutes(request.server.info.uri, request.server.table())`
    hands the server's URI string where the route array is expected.
   */
  method OnRequestAsWritten(manager: RouteSchemaManager, uri: string, table: seq<Route>) returns (r: HookResult)
    requires manager.Valid()
    modifies manager`schemasByKey
    ensures manager.Valid()
    ensures r == RequestHookResult(InitializeRoutesOutcome(old(manager.schemasByKey), NotAnArray(JStr(uri)),
                                                           manager.pluginName, manager.ev.validateSchema))
    ensures manager.schemasByKey == old(manager.schemasByKey)
  {
    var error := manager.InitializeRoutes(NotAnArray(JStr(uri)));
    r := if error.Some? then NextError(error.value) else Next;
  }

  /** `onRequest` with the route table passed as the one argument `initializeRoutes` takes. */
  method OnRequest(manager: RouteSchemaManager, table: seq<Route>) returns (r: HookResult)
    requires manager.Valid()
    requires forall i :: 0 <= i < |table| ==> WellFormed(table[i].settings)
    modifies manager`schemasByKey
    ensures manager.Valid()
    ensures var init := InitializeRoutesOutcome(old(manager.schemasByKey), RouteArray(table),
                                                manager.pluginName, manager.ev.validateSchema);
      r == RequestHookResult(init) && manager.schemasByKey == init.cache
  {
    var error := manager.InitializeRoutes(RouteArray(table));
    r := if error.Some? then NextError(error.value) else Next;
  }

  /**
    As written, every request fails with a TypeError and no schema is ever
    compiled, whatever the route table holds.
   */
  lemma OnRequestAsWrittenAlwaysFails(cache: map<string, JValue>, uri: string, pluginName: string, validateSchema: JValue -> bool)
    ensures var init := InitializeRoutesOutcome(cache, NotAnArray(JStr(uri)), pluginName, validateSchema);
      RequestHookResult(init) == NextError(TypeError) && init.cache == cache
  {
  }

  /**
    With the table passed, a request fails exactly when some route's schemas
    cannot be compiled; otherwise the cache gains every route's schemas.
   */
  lemma OnRequestFailsOnlyOnBadRoute(cache: map<string, JValue>, table: seq<Route>, pluginName: string, validateSchema: JValue -> bool)
    ensures var init := InitializeRoutesOutcome(cache, RouteArray(table), pluginName, validateSchema);
      && (RequestHookResult(init).NextError? <==>
            exists i :: 0 <= i < |table| && GenerateSchemasForRoute(table[i], pluginName, validateSchema).Throws?)
      && (RequestHookResult(init) == Next ==>
            init.cache == cache + InitializeRoutesSpec(map[], table, pluginName, validateSchema).cache)
  {
    InitializeErrorIff(cache, table, pluginName, validateSchema);
  }

  // ----- onPreHandler -----

  /** The names `onPreHandler` and the error reporters use for the surfaces. */
  function PartName(s: Surface): string
  {
    match s
    case Path => "Path"
    case Query => "Query"
    case Headers => "Headers"
    case Payload => "Payload"
    case Response => "Response"
  }

  /** The reporter's context message: `'{part} parameters validation error:'` with the part filled in. */
  function ContextMessage(s: Surface): (m: string)
    ensures |PartName(s)| <= |m| && m[..|PartName(s)|] == PartName(s)
  {
    PartName(s) + " parameters validation error:"
  }

  /** The order in which `onPreHandler` validates the request. */
  const PreHandlerParts: seq<Surface> := [Path, Query, Headers, Payload]

  /** The request surfaces the validators read and convert. */
  datatype RequestState = RequestState(params: JValue, query: JValue, headers: JValue, payload: JValue)

  function StateOf(request: Request): RequestState
    reads request
  {
    RequestState(request.params, request.query, request.headers, request.payload)
  }

  /** The value a state holds for a request surface. */
  function Field(st: RequestState, s: Surface): JValue
  {
    match s
    case Path => st.params
    case Query => st.query
    case Headers => st.headers
    case Payload => st.payload
    case Response => JUndefined
  }

  /** `routeSchemaManager['validate' + part](request)`, on the surface's current value. */
  function SurfaceCheck(cache: map<string, JValue>, route: Route, pluginName: string, ev: Evaluator,
                        toNumber: string -> NumResult, part: Surface, st: RequestState): (r: Outcome<Checked>)
    requires part != Response
    ensures r.Returns? ==> ErrorsIffInvalid(r.value.report)
  {
    ReportsCarryErrorsIffInvalid(cache, route, pluginName, Field(st, part), Prop(st.headers, "content-type"), ev, toNumber);
    match part
    case Path => ValidatePathSpec(cache, route, pluginName, st.params, ev, toNumber)
    case Query => ValidateQuerySpec(cache, route, pluginName, st.query, ev, toNumber)
    case Headers => ValidateHeadersSpec(cache, route, pluginName, st.headers, ev, toNumber)
    case Payload => ValidatePayloadSpec(cache, route, pluginName, Prop(st.headers, "content-type"), st.payload, ev, toNumber)
  }

  /** The state with the surface `part` replaced by `v`. */
  function WithField(st: RequestState, part: Surface, v: JValue): (r: RequestState)
    requires part != Response
    ensures Field(r, part) == v
    ensures forall s :: s != part ==> Field(r, s) == Field(st, s)
  {
    match part
    case Path => st.(params := v)
    case Query => st.(query := v)
    case Headers => st.(headers := v)
    case Payload => st.(payload := v)
  }

  /** One validator: its report and the request afterwards, or what it raises. */
  function PartStep(cache: map<string, JValue>, route: Route, pluginName: string, ev: Evaluator,
                    toNumber: string -> NumResult, part: Surface, st: RequestState): (r: Outcome<(Report, RequestState)>)
    requires part != Response
    ensures r.Returns? ==> ErrorsIffInvalid(r.value.0)
    ensures r.Returns? ==> forall s :: s != part ==> Field(r.value.1, s) == Field(st, s)
  {
    match SurfaceCheck(cache, route, pluginName, ev, toNumber, part, st)
    case Throws(e) => Throws(e)
    case Returns(c) => Returns((c.report, WithField(st, part, c.value)))
  }

  /** How `onPreHandler` ends: `next()`, `next(badRequest(...))`, or an exception out of a validator. */
  datatype PreResult = Proceed | BadRequest(surface: Surface, context: string, report: Report) | Raised(error: JsError)

  predicate PreParts(parts: seq<Surface>)
  {
    forall i :: 0 <= i < |parts| ==> parts[i] != Response
  }

  /** The validators of one route, as the loop calls them: one per request surface. */
  function PartStepper(cache: map<string, JValue>, route: Route, pluginName: string, ev: Evaluator,
                       toNumber: string -> NumResult): (r: (Surface, RequestState) --> Outcome<(Report, RequestState)>)
    ensures forall part, st :: part != Response ==> r.requires(part, st)
  {
    (part: Surface, st: RequestState) requires part != Response => PartStep(cache, route, pluginName, ev, toNumber, part, st)
  }

  /** `step` has a validator for every request surface. */
  ghost predicate Checkable(step: (Surface, RequestState) --> Outcome<(Report, RequestState)>)
  {
    forall part, st :: part != Response ==> step.requires(part, st)
  }

  /** The loop of `onPreHandler` over the validators `step`: the first invalid surface ends it with a bad request. */
  function RunChecks(step: (Surface, RequestState) --> Outcome<(Report, RequestState)>, parts: seq<Surface>,
                     st: RequestState): (RequestState, PreResult)
    requires PreParts(parts) && Checkable(step)
    decreases |parts|
  {
    if |parts| == 0 then (st, Proceed)
    else
      match step(parts[0], st)
      case Throws(e) => (st, Raised(e))
      case Returns(next) =>
        if !next.0.valid then (next.1, BadRequest(parts[0], ContextMessage(parts[0]), next.0))
        else RunChecks(step, parts[1..], next.1)
  }

  /** The loop of `onPreHandler` with the route's own validators. */
  function PreHandlerSpec(cache: map<string, JValue>, route: Route, pluginName: string, ev: Evaluator,
                          toNumber: string -> NumResult, parts: seq<Surface>, st: RequestState): (RequestState, PreResult)
    requires PreParts(parts)
  {
    RunChecks(PartStepper(cache, route, pluginName, ev, toNumber), parts, st)
  }

  /** Every validator of `step` reports errors exactly when invalid and changes only its own surface. */
  ghost predicate WellBehaved(step: (Surface, RequestState) --> Outcome<(Report, RequestState)>)
  {
    forall part, st :: part != Response && step.requires(part, st) && step(part, st).Returns? ==>
      && ErrorsIffInvalid(step(part, st).value.0)
      && forall s :: s != part ==> Field(step(part, st).value.1, s) == Field(st, s)
  }

  /** The route's validators are well behaved. */
  lemma PartStepperWellBehaved(cache: map<string, JValue>, route: Route, pluginName: string, ev: Evaluator,
                               toNumber: string -> NumResult)
    ensures WellBehaved(PartStepper(cache, route, pluginName, ev, toNumber))
  {
    var step := PartStepper(cache, route, pluginName, ev, toNumber);
    forall part, st | part != Response && step.requires(part, st) && step(part, st).Returns?
      ensures ErrorsIffInvalid(step(part, st).value.0)
      ensures forall s :: s != part ==> Field(step(part, st).value.1, s) == Field(st, s)
    {
      assert step(part, st) == PartStep(cache, route, pluginName, ev, toNumber, part, st);
    }
  }

  /** Dispatches to the validator of `part`. */
  method ValidatePart(manager: RouteSchemaManager, request: Request, part: Surface) returns (r: Outcome<Report>)
    requires manager.Valid() && request.Valid() && part != Response
    modifies request
    ensures request.Valid()
    ensures var step := PartStep(manager.schemasByKey, request.route, manager.pluginName, manager.ev, manager.toNumber,
                                 part, old(StateOf(request)));
      && (step.Throws? ==> r == Throws(step.error))
      && (step.Returns? ==> r == Returns(step.value.0) && StateOf(request) == step.value.1)
  {
    match part
    case Path => r := manager.ValidatePath(request);
    case Query => r := manager.ValidateQuery(request);
    case Headers => r := manager.ValidateHeaders(request);
    case Payload => r := manager.ValidatePayload(request);
  }

  /** `onPreHandler(request, next)`. */
  method OnPreHandler(manager: RouteSchemaManager, request: Request) returns (r: PreResult)
    requires manager.Valid() && request.Valid()
    modifies request
    ensures request.Valid()
    ensures var spec := PreHandlerSpec(manager.schemasByKey, request.route, manager.pluginName, manager.ev, manager.toNumber,
                                       PreHandlerParts, old(StateOf(request)));
      r == spec.1 && (!r.Raised? ==> StateOf(request) == spec.0)
  {
    var parts := PreHandlerParts;
    ghost var step := PartStepper(manager.schemasByKey, request.route, manager.pluginName, manager.ev, manager.toNumber);
    var i := 0;
    while i < |parts|
      invariant 0 <= i <= |parts|
      invariant request.Valid()
      invariant RunChecks(step, parts[i..], StateOf(request)) == RunChecks(step, parts, old(StateOf(request)))
    {
      ghost var st := StateOf(request);
      var report := ValidatePart(manager, request, parts[i]);
      assert step(parts[i], st) == PartStep(manager.schemasByKey, request.route, manager.pluginName, manager.ev,
                                            manager.toNumber, parts[i], st);
      if report.Throws? {
        return Raised(report.error);
      }
      if !report.value.valid {
        return BadRequest(parts[i], ContextMessage(parts[i]), report.value);
      }
      assert parts[i..][1..] == parts[i + 1..];
      i := i + 1;
    }
    return Proceed;
  }

  /**
    A bad request names a validated surface, carries that surface's invalid
    report and its errors, and leaves every surface validated after it as
    it was.
   */
  lemma {:induction false} RunChecksBadRequest(step: (Surface, RequestState) --> Outcome<(Report, RequestState)>,
                                               parts: seq<Surface>, st: RequestState) returns (k: nat)
    requires PreParts(parts) && Checkable(step) && WellBehaved(step)
    requires RunChecks(step, parts, st).1.BadRequest?
    ensures k < |parts|
    ensures var res := RunChecks(step, parts, st);
      && res.1 == BadRequest(parts[k], ContextMessage(parts[k]), res.1.report)
      && !res.1.report.valid && res.1.report.errors.Some?
      && forall s :: s !in parts[..k + 1] ==> Field(res.0, s) == Field(st, s)
    decreases |parts|
  {
    assert step.requires(parts[0], st);
    var next := step(parts[0], st).value;
    assert ErrorsIffInvalid(next.0);
    if !next.0.valid {
      k := 0;
    } else {
      var j := RunChecksBadRequest(step, parts[1..], next.1);
      k := j + 1;
      forall s | s !in parts[..k + 1]
        ensures Field(RunChecks(step, parts, st).0, s) == Field(st, s)
      {
        NotInPrefixTail(parts, j, s);
      }
    }
  }

  lemma NotInPrefixTail(parts: seq<Surface>, j: nat, s: Surface)
    requires j + 2 <= |parts| && s !in parts[..j + 2]
    ensures s != parts[0] && s !in parts[1..][..j + 1]
  {
    assert parts[..j + 2][0] == parts[0];
    assert parts[1..][..j + 1] == parts[..j + 2][1..];
  }

  /** `onPreHandler`'s bad request: the facts of `RunChecksBadRequest`, for the route's own validators. */
  lemma BadRequestStopsValidation(cache: map<string, JValue>, route: Route, pluginName: string, ev: Evaluator,
                                  toNumber: string -> NumResult, parts: seq<Surface>, st: RequestState)
    returns (k: nat)
    requires PreParts(parts)
    requires PreHandlerSpec(cache, route, pluginName, ev, toNumber, parts, st).1.BadRequest?
    ensures k < |parts|
    ensures var res := PreHandlerSpec(cache, route, pluginName, ev, toNumber, parts, st);
      && res.1 == BadRequest(parts[k], ContextMessage(parts[k]), res.1.report)
      && !res.1.report.valid && res.1.report.errors.Some?
      && forall s :: s !in parts[..k + 1] ==> Field(res.0, s) == Field(st, s)
  {
    PartStepperWellBehaved(cache, route, pluginName, ev, toNumber);
    k := RunChecksBadRequest(PartStepper(cache, route, pluginName, ev, toNumber), parts, st);
  }

  /** With no schema cached for any validated surface, the request proceeds untouched. */
  lemma {:induction false} NoSchemasProceeds(cache: map<string, JValue>, route: Route, pluginName: string, ev: Evaluator,
                                             toNumber: string -> NumResult, parts: seq<Surface>, st: RequestState)
    requires PreParts(parts)
    requires forall i :: 0 <= i < |parts| ==> SchemaFor(cache, route, pluginName, parts[i]).None?
    ensures PreHandlerSpec(cache, route, pluginName, ev, toNumber, parts, st) == (st, Proceed)
    decreases |parts|
  {
    if |parts| > 0 {
      assert SchemaFor(cache, route, pluginName, parts[0]).None?;
      assert PartStepper(cache, route, pluginName, ev, toNumber)(parts[0], st)
          == PartStep(cache, route, pluginName, ev, toNumber, parts[0], st);
      NoSchemasProceeds(cache, route, pluginName, ev, toNumber, parts[1..], st);
    }
  }

  /** The request proceeds exactly when every surface, validated in turn, reports valid. */
  lemma ProceedIffAllValid(cache: map<string, JValue>, route: Route, pluginName: string, ev: Evaluator,
                           toNumber: string -> NumResult, parts: seq<Surface>, st: RequestState)
    requires PreParts(parts)
    ensures PreHandlerSpec(cache, route, pluginName, ev, toNumber, parts, st).1 == Proceed <==>
      (|parts| == 0 ||
        (PartStep(cache, route, pluginName, ev, toNumber, parts[0], st).Returns?
         && PartStep(cache, route, pluginName, ev, toNumber, parts[0], st).value.0.valid
         && PreHandlerSpec(cache, route, pluginName, ev, toNumber, parts[1..],
                           PartStep(cache, route, pluginName, ev, toNumber, parts[0], st).value.1).1 == Proceed))
  {
    if |parts| > 0 {
      assert PartStepper(cache, route, pluginName, ev, toNumber)(parts[0], st)
          == PartStep(cache, route, pluginName, ev, toNumber, parts[0], st);
    }
  }

  // ----- onPostHandler -----

  /** `request.route.plugins[pluginName].response`, each access guarded by the truthiness of the last. */
  function ResponsePolicy(routePlugins: JValue, pluginName: string): JValue
  {
    Prop(Prop(routePlugins, pluginName), "response")
  }

  /** The guard of `onPostHandler`: a response schema is configured and sampling is not switched off. */
  predicate ResponseConfigured(routePlugins: JValue, pluginName: string)
  {
    var policy := ResponsePolicy(routePlugins, pluginName);
    && Truthy(routePlugins) && Truthy(Prop(routePlugins, pluginName)) && Truthy(policy)
    && Truthy(Prop(policy, "schema"))
    && Prop(policy, "sample") != JNum(0.0) && Prop(policy, "sample") != JBool(false)
  }

  /**
    The number `currentSample > sample` compares with, or `None` when the
    conversion gives NaN (which makes the comparison false).
   */
  function SampleNumber(sample: JValue, toNumber: string -> NumResult): (r: Option<real>)
    ensures sample.JNum? ==> r == Some(sample.n)
  {
    match sample
    case JNum(n) => Some(n)
    case JBool(b) => Some(if b then 1.0 else 0.0)
    case JNull => Some(0.0)
    case JStr(s) =>
      (match toNumber(s)
       case NaN => None
       case Zero => Some(0.0)
       case NonZero(v) => Some(v))
    case _ => None
  }

  /** A truthy sample rate below the draw `Math.ceil(Math.random() * 100)` skips validation. */
  predicate SampledOut(sample: JValue, draw: nat, toNumber: string -> NumResult)
  {
    Truthy(sample) && SampleNumber(sample, toNumber).Some? && draw as real > SampleNumber(sample, toNumber).value
  }

  /** Whether `onPostHandler` reaches `validateResponse`. */
  predicate ResponseValidated(routePlugins: JValue, pluginName: string, isBoom: bool, draw: nat, toNumber: string -> NumResult)
  {
    && ResponseConfigured(routePlugins, pluginName)
    && !SampledOut(Prop(ResponsePolicy(routePlugins, pluginName), "sample"), draw, toNumber)
    && !isBoom
  }

  /** How `onPostHandler` ends. */
  datatype PostResult =
    | Continue                                  // `next()`
    | Logged(context: string, report: Report)   // `request.log(...)`, then `next()`
    | InternalError(context: string, report: Report)   // `next(internal(...))`
    | Thrown(error: JsError)                    // an exception out of the extension

  /**
    The decision of `onPostHandler`, given the report `validateResponse`
    would give, with the error message built by the `Response` reporter.
   */
  function PostDecision(routePlugins: JValue, pluginName: string, isBoom: bool, draw: nat, toNumber: string -> NumResult,
                        report: Report): PostResult
  {
    if !ResponseValidated(routePlugins, pluginName, isBoom, draw, toNumber) || report.valid then Continue
    else if Prop(ResponsePolicy(routePlugins, pluginName), "failAction") == JStr("log") then Logged(ContextMessage(Response), report)
    else InternalError(ContextMessage(Response), report)
  }

  /**
    The reporters are built under the keys `Headers`, `Query`, `Path`,
    `Payload` and `Response`, and each is an object, not a function.
   */
  const ReporterKeys: seq<string> := ["Headers", "Query", "Path", "Payload", "Response"]

  /**
    `errorReporters[key](report)`: a key outside `ReporterKeys` gives
    `undefined`, a key inside it an object, and neither can be called, so
    the call raises a TypeError whatever `key` and `report` are. Both stay
    parameters so that the call site reads as the source's call.
   */
  function CallReporter(key: string, report: Report): (r: Outcome<string>)
    ensures r == Throws(TypeError)
  {
    Throws(TypeError)
  }

  /** The decision of `onPostHandler` as written, with `errorReporters['response'](report)`. */
  function PostDecisionAsWritten(routePlugins: JValue, pluginName: string, isBoom: bool, draw: nat, toNumber: string -> NumResult,
                                 report: Report): PostResult
  {
    if !ResponseValidated(routePlugins, pluginName, isBoom, draw, toNumber) || report.valid then Continue
    else
      match CallReporter("response", report)
      case Throws(e) => Thrown(e)
      case Returns(message) =>
        if Prop(ResponsePolicy(routePlugins, pluginName), "failAction") == JStr("log") then Logged(message, report)
        else InternalError(message, report)
  }

  /** `onPostHandler(request, next)`, with `request.route.plugins` and the random draw as parameters. */
  method OnPostHandler(manager: RouteSchemaManager, request: Request, routePlugins: JValue, draw: nat) returns (r: PostResult)
    requires manager.Valid() && draw <= 100
    ensures r == PostDecision(routePlugins, manager.pluginName, request.isBoom, draw, manager.toNumber,
                              ValidateResponseSpec(manager.schemasByKey, request.route, manager.pluginName, request.responseSource, manager.ev))
  {
    if !ResponseConfigured(routePlugins, manager.pluginName) {
      return Continue;
    }
    var policy := ResponsePolicy(routePlugins, manager.pluginName);
    if SampledOut(Prop(policy, "sample"), draw, manager.toNumber) {
      return Continue;
    }
    if request.isBoom {
      return Continue;
    }
    assert ResponseValidated(routePlugins, manager.pluginName, request.isBoom, draw, manager.toNumber);
    var report := manager.ValidateResponse(request);
    if !report.valid {
      if Prop(policy, "failAction") == JStr("log") {
        return Logged(ContextMessage(Response), report);
      }
      return InternalError(ContextMessage(Response), report);
    }
    return Continue;
  }

  /** An error response (`isBoom`) is never validated. */
  lemma BoomNeverValidated(routePlugins: JValue, pluginName: string, draw: nat, toNumber: string -> NumResult, report: Report)
    ensures PostDecision(routePlugins, pluginName, true, draw, toNumber, report) == Continue
  {
  }

  /** A sample rate of `0` or `false` switches response validation off. */
  lemma SampleOffNeverValidates(routePlugins: JValue, pluginName: string, isBoom: bool, draw: nat, toNumber: string -> NumResult, report: Report)
    requires Prop(ResponsePolicy(routePlugins, pluginName), "sample") in {JNum(0.0), JBool(false)}
    ensures PostDecision(routePlugins, pluginName, isBoom, draw, toNumber, report) == Continue
  {
  }

  /** A numeric sample rate `n` validates exactly the draws up to `n`. */
  lemma SampleRate(routePlugins: JValue, pluginName: string, draw: nat, toNumber: string -> NumResult)
    requires ResponseConfigured(routePlugins, pluginName)
    requires Prop(ResponsePolicy(routePlugins, pluginName), "sample").JNum?
    ensures ResponseValidated(routePlugins, pluginName, false, draw, toNumber) <==>
      draw as real <= Prop(ResponsePolicy(routePlugins, pluginName), "sample").n
  {
    NumericSampledOut(Prop(ResponsePolicy(routePlugins, pluginName), "sample"), draw, toNumber);
  }

  /** A non-zero numeric sample rate skips exactly the draws above it. */
  lemma NumericSampledOut(sample: JValue, draw: nat, toNumber: string -> NumResult)
    requires sample.JNum? && sample != JNum(0.0)
    ensures SampledOut(sample, draw, toNumber) <==> draw as real > sample.n
  {
  }

  /** With no sample rate, or one of 100, every draw is validated. */
  lemma FullSampleAlwaysValidates(routePlugins: JValue, pluginName: string, draw: nat, toNumber: string -> NumResult)
    requires ResponseConfigured(routePlugins, pluginName) && draw <= 100
    requires Prop(ResponsePolicy(routePlugins, pluginName), "sample") in {JUndefined, JNull, JNum(100.0)}
    ensures ResponseValidated(routePlugins, pluginName, false, draw, toNumber)
  {
  }

  /** A validated invalid response is logged exactly when `failAction` is `'log'`, and otherwise ends in an internal error. */
  lemma FailActionPolicy(routePlugins: JValue, pluginName: string, isBoom: bool, draw: nat, toNumber: string -> NumResult, report: Report)
    ensures var d := PostDecision(routePlugins, pluginName, isBoom, draw, toNumber, report);
      var log := Prop(ResponsePolicy(routePlugins, pluginName), "failAction") == JStr("log");
      && (d.Logged? <==> ResponseValidated(routePlugins, pluginName, isBoom, draw, toNumber) && !report.valid && log)
      && (d.InternalError? <==> ResponseValidated(routePlugins, pluginName, isBoom, draw, toNumber) && !report.valid && !log)
      && (d.Continue? <==> !ResponseValidated(routePlugins, pluginName, isBoom, draw, toNumber) || report.valid)
      && (!d.Continue? ==> d.context == ContextMessage(Response) && d.report == report)
  {
  }

  /**
    As written, every validated invalid response raises a TypeError instead
    of being logged or reported, so `failAction: 'log'` is never honoured;
    otherwise both decisions agree.
   */
  lemma PostHandlerAsWrittenThrows(routePlugins: JValue, pluginName: string, isBoom: bool, draw: nat, toNumber: string -> NumResult, report: Report)
    ensures var fixed := PostDecision(routePlugins, pluginName, isBoom, draw, toNumber, report);
      var written := PostDecisionAsWritten(routePlugins, pluginName, isBoom, draw, toNumber, report);
      && (fixed.Continue? ==> written == fixed)
      && (!fixed.Continue? ==> written == Thrown(TypeError))
      && !written.Logged? && !written.InternalError?
  {
  }
}
