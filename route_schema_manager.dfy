/**
  The `RouteSchemaManager` object of lib/RouteSchemaManager.js: its
  `schemasByKey` cache, `initializeRoutes`, and the five validators, which
  convert the request's surfaces in place before evaluating them.
 */
module SchemaManager {
  import opened Json
  import opened SchemaKeys
  import opened Coercion
  import opened QueryArrays
  import opened Registration
  import opened Validators

  /** What `initializeRoutes` is handed: an array of routes, or some other JavaScript value. */
  datatype RoutesArgument = RouteArray(routes: seq<Route>) | NotAnArray(value: JValue)

  /** `routes.forEach(...)`: only an array has `forEach`; calling `undefined` raises a TypeError. */
  function InitializeRoutesOutcome(cache: map<string, JValue>, routes: RoutesArgument, pluginName: string,
                                   validateSchema: JValue -> bool): (r: InitResult)
    ensures routes.NotAnArray? ==> r == InitResult(cache, Some(TypeError))
    ensures routes.RouteArray? && r.error.None? ==> r.cache == cache + InitializeRoutesSpec(map[], routes.routes, pluginName, validateSchema).cache
  {
    match routes
    case RouteArray(rs) =>
      var r := InitializeRoutesSpec(cache, rs, pluginName, validateSchema);
      if r.error.None? then InitializeMerges(cache, rs, pluginName, validateSchema); r else r
    case NotAnArray(_) => InitResult(cache, Some(TypeError))
  }

  /** The report a validator returns, or the error it raises. */
  function ReportOf(o: Outcome<Checked>): Outcome<Report>
  {
    match o
    case Throws(e) => Throws(e)
    case Returns(c) => Returns(c.report)
  }

  /**
    The conversion of one request surface in place, then its evaluation:
    the report or error of the specification, and the surface's value
    afterwards, partly converted when the conversion raises.
   */
  method ConvertSurface(value: JValue, schema: JValue, force: bool, ev: Evaluator, toNumber: string -> NumResult)
    returns (r: Outcome<Report>, after: JValue)
    requires WellFormed(value) && WellFormed(schema)
    ensures var spec := CoerceAndEvaluate(value, schema, force, ev, toNumber);
      && r == ReportOf(spec)
      && (spec.Returns? ==> after == spec.value.value)
      && (spec.Throws? ==> after == CoercePartial(value, schema, force, toNumber))
    ensures WellFormed(after) && (value.JObj? ==> after.JObj?)
  {
    CoerceKeepsWellFormed(value, schema, force, toNumber);
    PartialKeepsWellFormed(value, schema, force, toNumber);
    var converted;
    converted, after := ConvertPropertyTypesToMatchSchema(value, schema, force, toNumber);
    if converted.Throws? {
      return Throws(converted.error), after;
    }
    return Returns(Evaluate(ev, after, schema)), after;
  }

  /** The parts of a Hapi request the validators read and convert. */
  class Request {
    const route: Route
    var params: JValue
    var query: JValue
    var headers: JValue        // `request.raw.req.headers`
    var payload: JValue
    const responseSource: JValue  // `request.response.source`
    const isBoom: bool            // `request.response.isBoom`

    /** Parsed JSON has distinct keys; Node.js always supplies a headers object. */
    ghost predicate Valid()
      reads this
    {
      WellFormed(params) && WellFormed(query) && headers.JObj? && WellFormed(headers) && WellFormed(payload)
    }

    constructor (route: Route, params: JValue, query: JValue, headers: JValue, payload: JValue, responseSource: JValue, isBoom: bool)
      requires WellFormed(params) && WellFormed(query) && headers.JObj? && WellFormed(headers) && WellFormed(payload)
      ensures Valid()
      ensures this.route == route && this.params == params && this.query == query && this.headers == headers
      ensures this.payload == payload && this.responseSource == responseSource && this.isBoom == isBoom
    {
      this.route := route;
      this.params := params;
      this.query := query;
      this.headers := headers;
      this.payload := payload;
      this.responseSource := responseSource;
      this.isBoom := isBoom;
    }
  }

  class RouteSchemaManager {
    const pluginName: string
    const ev: Evaluator
    const toNumber: string -> NumResult
    var schemasByKey: map<string, JValue>

    /** Every cached schema is well formed, so coercion may walk it. */
    ghost predicate Valid()
      reads this
    {
      CacheWellFormed(schemasByKey)
    }

    /** `new RouteSchemaManager({pluginName})`, with the evaluator and `1 * s` it uses. */
    constructor (pluginName: string, ev: Evaluator, toNumber: string -> NumResult)
      ensures Valid() && schemasByKey == map[]
      ensures this.pluginName == pluginName && this.ev == ev && this.toNumber == toNumber
    {
      this.pluginName := pluginName;
      this.ev := ev;
      this.toNumber := toNumber;
      schemasByKey := map[];
    }

    /**
      `initializeRoutes(routes)`: each route's schemas are merged into the
      cache; an error stops the loop and is returned, with the schemas of the
      earlier routes already merged.
     */
    method InitializeRoutes(routes: RoutesArgument) returns (error: Option<JsError>)
      requires Valid()
      requires routes.RouteArray? ==> forall i :: 0 <= i < |routes.routes| ==> WellFormed(routes.routes[i].settings)
      modifies this`schemasByKey
      ensures Valid()
      ensures InitResult(schemasByKey, error) == InitializeRoutesOutcome(old(schemasByKey), routes, pluginName, ev.validateSchema)
    {
      if !routes.RouteArray? {
        return Some(TypeError);
      }
      var rs := routes.routes;
      var i := 0;
      while i < |rs|
        invariant 0 <= i <= |rs|
        invariant CacheWellFormed(schemasByKey)
        invariant InitializeRoutesSpec(schemasByKey, rs[i..], pluginName, ev.validateSchema)
               == InitializeRoutesSpec(old(schemasByKey), rs, pluginName, ev.validateSchema)
      {
        var generated := GenerateSchemas(rs[i], pluginName, ev.validateSchema);
        if generated.Throws? {
          return Some(generated.error);
        }
        GeneratedWellFormed(rs[i], pluginName, ev.validateSchema);
        schemasByKey := schemasByKey + generated.value;
        assert rs[i..][1..] == rs[i + 1..];
        i := i + 1;
      }
      return None;
    }

    /** The cached schema for `surface`, well formed. */
    function SchemaOfRoute(route: Route, surface: Surface): (r: Option<JValue>)
      reads this
      requires Valid()
      ensures r == SchemaFor(schemasByKey, route, pluginName, surface)
      ensures r.Some? ==> WellFormed(r.value)
    {
      SchemaFor(schemasByKey, route, pluginName, surface)
    }

    /**
      `validatePath(request)`: converts `request.params` in place, then
      evaluates it. A raise leaves the fields converted before it in place.
     */
    method ValidatePath(request: Request) returns (r: Outcome<Report>)
      requires Valid() && request.Valid()
      modifies request`params
      ensures request.Valid()
      ensures var spec := ValidatePathSpec(schemasByKey, request.route, pluginName, old(request.params), ev, toNumber);
        && r == ReportOf(spec)
        && (spec.Returns? ==> request.params == spec.value.value)
        && (spec.Throws? ==> var schema := SchemaOfRoute(request.route, Path);
              schema.Some? && request.params == CoercePartial(old(request.params), schema.value, false, toNumber))
    {
      var schema := SchemaOfRoute(request.route, Path);
      if schema.None? {
        return Returns(ValidReport);
      }
      PathSpecWithSchema(schemasByKey, request.route, pluginName, request.params, schema.value, ev, toNumber);
      var after;
      r, after := ConvertSurface(request.params, schema.value, false, ev, toNumber);
      request.params := after;
    }

    /**
      `validateQuery(request)`: rewrites `name[i]` keys, converts
      `request.query` in place, then evaluates it. A raise leaves the
      rewritten query with the fields converted before it.
     */
    method ValidateQuery(request: Request) returns (r: Outcome<Report>)
      requires Valid() && request.Valid()
      modifies request`query
      ensures request.Valid()
      ensures var spec := ValidateQuerySpec(schemasByKey, request.route, pluginName, old(request.query), ev, toNumber);
        && r == ReportOf(spec)
        && (spec.Returns? ==> request.query == spec.value.value)
        && (spec.Throws? ==> var schema := SchemaOfRoute(request.route, Query);
              schema.Some? && request.query == CoercePartial(NormalizeQuery(old(request.query)), schema.value, true, toNumber))
    {
      var schema := SchemaOfRoute(request.route, Query);
      if schema.None? {
        return Returns(ValidReport);
      }
      QuerySpecWithSchema(schemasByKey, request.route, pluginName, request.query, schema.value, ev, toNumber);
      NormalizeQueryKeepsWellFormed(request.query);
      request.query := ConvertArraysInQueryString(request.query);
      var after;
      r, after := ConvertSurface(request.query, schema.value, true, ev, toNumber);
      request.query := after;
    }

    /**
      `validateHeaders(request)`: converts the raw headers in place, then
      evaluates them. A raise leaves the fields converted before it in place.
     */
    method ValidateHeaders(request: Request) returns (r: Outcome<Report>)
      requires Valid() && request.Valid()
      modifies request`headers
      ensures request.Valid()
      ensures var spec := ValidateHeadersSpec(schemasByKey, request.route, pluginName, old(request.headers), ev, toNumber);
        && r == ReportOf(spec)
        && (spec.Returns? ==> request.headers == spec.value.value)
        && (spec.Throws? ==> var schema := SchemaOfRoute(request.route, Headers);
              schema.Some? && request.headers == CoercePartial(old(request.headers), schema.value, true, toNumber))
    {
      var schema := SchemaOfRoute(request.route, Headers);
      if schema.None? {
        return Returns(ValidReport);
      }
      HeadersSpecWithSchema(schemasByKey, request.route, pluginName, request.headers, schema.value, ev, toNumber);
      var after;
      r, after := ConvertSurface(request.headers, schema.value, true, ev, toNumber);
      request.headers := after;
    }

    /**
      `validatePayload(request)`: the content-type check, the file policy,
      conversion of form posts in place, then evaluation. A raise in the
      conversion leaves the fields converted before it in place.
     */
    method ValidatePayload(request: Request) returns (r: Outcome<Report>)
      requires Valid() && request.Valid()
      modifies request`payload
      ensures request.Valid()
      ensures var spec := ValidatePayloadSpec(schemasByKey, request.route, pluginName, Prop(request.headers, "content-type"),
                                              old(request.payload), ev, toNumber);
        && r == ReportOf(spec)
        && (spec.Returns? ==> request.payload == spec.value.value)
        && (spec.Throws? ==> var schema := SchemaOfRoute(request.route, Payload);
              schema.Some? && request.payload == PayloadAfterRaise(schema.value, Prop(request.headers, "content-type"),
                                                                   old(request.payload), toNumber))
    {
      var schema := SchemaOfRoute(request.route, Payload);
      if schema.None? {
        return Returns(ValidReport);
      }
      var contentType := Prop(request.headers, "content-type");
      PayloadSpecWithSchema(schemasByKey, request.route, pluginName, contentType, request.payload, schema.value, ev, toNumber);
      PayloadAfterRaiseWellFormed(schema.value, contentType, request.payload, toNumber);
      var checked, after := CheckPayload(schema.value, contentType, request.payload, ev, toNumber);
      if checked.Returns? {
        PayloadCheckWellFormed(schema.value, contentType, request.payload, ev, toNumber);
      }
      request.payload := after;
      if checked.Throws? {
        return Throws(checked.error);
      }
      return Returns(checked.value.report);
    }

    /** `validateResponse(request)`: evaluates the response source as it is. */
    method ValidateResponse(request: Request) returns (r: Report)
      requires Valid()
      ensures r == ValidateResponseSpec(schemasByKey, request.route, pluginName, request.responseSource, ev)
    {
      var schema := SchemaOfRoute(request.route, Response);
      if schema.None? {
        return ValidReport;
      }
      return Evaluate(ev, request.responseSource, schema.value);
    }
  }
}
