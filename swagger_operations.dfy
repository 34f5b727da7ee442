/**
  Swagger 1.2 operations in lib/SwaggerManager.js: the parameters
  `getSwaggerParams` derives from a route's validation schemas, and the
  operation `getSwaggerOperationForRoute` builds around them.
 */
module SwaggerOperations {
  import opened Json
  import opened JsString
  import opened SchemaKeys
  import opened SwaggerRoutes
  import opened Folds

  /** `v.hasOwnProperty(k)`. */
  predicate HasOwn(v: JValue, k: string)
  {
    v.JObj? && k in KeysOf(v.fields)
  }

  /**
    `v.indexOf(s) >= 0` on a truthy `v`: element search on an array,
    substring search on a string; any other value has no `indexOf` to call.
   */
  function IndexOfMember(v: JValue, s: string): (r: Outcome<bool>)
    ensures r.Returns? <==> v.JArr? || v.JStr?
    ensures v.JArr? ==> r == Returns(JStr(s) in v.elems)
    ensures v.JStr? ==> r == Returns(Contains(v.s, s))
  {
    match v
    case JArr(es) => Returns(JStr(s) in es)
    case JStr(t) => Returns(Contains(t, s))
    case _ => Throws(TypeError)
  }

  /** A `minimum` as the parameter carries it: copied, or `minimum + 1` when `exclusiveMinimum` is set. */
  datatype Bound = Exactly(v: JValue) | PlusOne(v: JValue)

  /** The number a bound denotes, for a numeric `minimum`. */
  function BoundNumber(b: Bound): Option<real>
  {
    match b
    case Exactly(JNum(n)) => Some(n)
    case PlusOne(JNum(n)) => Some(n + 1.0)
    case _ => None
  }

  /** A Swagger parameter: `{paramType, name, description, type, required, minimum?, maximum?, enum?}`. */
  datatype Param = Param(paramType: string, name: string, description: JValue, paramSchemaType: JValue, required: JValue,
                         minimum: Option<Bound>, maximum: Option<JValue>, enumValues: Option<JValue>)

  /** `swaggerParamTypeMap`. */
  function ParamType(s: Surface): string
  {
    match s
    case Path => "path"
    case Query => "query"
    case Payload => "body"
    case Headers => "header"
    case Response => "undefined"
  }

  /** `(schema.required && schema.required.indexOf(prop) >= 0)`. */
  function Required(required: JValue, name: string): (r: Outcome<JValue>)
    ensures !Truthy(required) ==> r == Returns(required)
    ensures Truthy(required) ==> match IndexOfMember(required, name)
      case Throws(e) => r == Throws(e)
      case Returns(b) => r == Returns(JBool(b))
  {
    if !Truthy(required) then Returns(required)
    else
      match IndexOfMember(required, name)
      case Throws(e) => Throws(e)
      case Returns(b) => Returns(JBool(b))
  }

  /**
    The parameter for one schema property; `withBounds` for path, query and
    header parameters, which carry `minimum`, `maximum` and `enum`.
    Reading a field of a `null` property schema raises a TypeError.
   */
  function PropertyParam(paramType: string, withBounds: bool, property: (string, JValue), required: JValue): Outcome<Param>
  {
    var (name, p) := property;
    if NullOrUndefined(p) then Throws(TypeError)
    else
      match Required(required, name)
      case Throws(e) => Throws(e)
      case Returns(req) =>
        Returns(Param(paramType, name, Prop(p, "description"), Prop(p, "type"), req,
                      if withBounds then MinimumOf(p) else None,
                      if withBounds then OwnField(p, "maximum") else None,
                      if withBounds then OwnField(p, "enum") else None))
  }

  /** `param.minimum`: set when the property has its own `minimum`, raised by one when `exclusiveMinimum` is truthy. */
  function MinimumOf(p: JValue): (r: Option<Bound>)
    ensures r.Some? <==> HasOwn(p, "minimum")
    ensures HasOwn(p, "minimum") && Prop(p, "minimum").JNum? ==>
      BoundNumber(r.value) == Some(if Truthy(Prop(p, "exclusiveMinimum")) then Prop(p, "minimum").n + 1.0 else Prop(p, "minimum").n)
  {
    if !HasOwn(p, "minimum") then None
    else if Truthy(Prop(p, "exclusiveMinimum")) then Some(PlusOne(Prop(p, "minimum")))
    else Some(Exactly(Prop(p, "minimum")))
  }

  /** `param[k] = p[k]` when the property has its own `k`. */
  function OwnField(p: JValue, k: string): (r: Option<JValue>)
    ensures r.Some? <==> HasOwn(p, k)
    ensures r.Some? ==> r.value == Prop(p, k)
  {
    if HasOwn(p, k) then Some(Prop(p, k)) else None
  }

  /** The body of the loop over `schema.properties`, as a function of the property. */
  function PropertyParamOf(paramType: string, withBounds: bool, required: JValue): ((string, JValue)) -> Outcome<Param>
  {
    (property: (string, JValue)) => PropertyParam(paramType, withBounds, property, required)
  }

  /** The loop over `schema.properties`: one parameter per property, in order, stopping at an error. */
  function PropertyParams(paramType: string, withBounds: bool, properties: Fields, required: JValue): Outcome<seq<Param>>
  {
    MapSteps(properties, |properties|, PropertyParamOf(paramType, withBounds, required))
  }

  /** The own fields of `schema.properties`; other values give no properties. */
  function PropertiesOf(schema: JValue): Fields
  {
    var props := Prop(schema, "properties");
    if props.JObj? then props.fields else []
  }

  /** `!payload || !payload.allow || payload.allow.indexOf('application/json') >= 0`. */
  function JsonBody(route: Route): Outcome<bool>
  {
    var payload := Prop(route.settings, "payload");
    var allow := Prop(payload, "allow");
    if !Truthy(payload) || !Truthy(allow) then Returns(true)
    else IndexOfMember(allow, "application/json")
  }

  /** The single `body` parameter of a JSON payload, typed by the operation's `<nickname>_body` model. */
  function BodyParam(schema: JValue, nickname: string): Param
  {
    Param("body", "body", Prop(schema, "description"),
          if nickname != "" then JStr(nickname + "_body") else Prop(schema, "type"), JBool(true), None, None, None)
  }

  /** What `getSwaggerParams` emits: nothing, the one body parameter, or a parameter per property. */
  datatype ParamPlan =
    | NoParams
    | Body(param: Param)
    | PerProperty(paramType: string, withBounds: bool, properties: Fields, required: JValue)

  /** The branches of `getSwaggerParams` before its loops. */
  function PlanParams(route: Route, kind: Surface, pluginName: string, nickname: string): Outcome<ParamPlan>
    requires kind != Response
  {
    var config := PluginConfig(route, pluginName);
    var schema := Prop(config, SurfaceName(kind));
    if !(Truthy(Prop(route.settings, "plugins")) && Truthy(config) && Truthy(schema)) then Returns(NoParams)
    else if kind == Payload then
      match JsonBody(route)
      case Throws(e) => Throws(e)
      case Returns(true) => Returns(Body(BodyParam(schema, nickname)))
      case Returns(false) => Returns(PerProperty("form", false, PropertiesOf(schema), Prop(schema, "required")))
    else Returns(PerProperty(ParamType(kind), true, PropertiesOf(schema), Prop(schema, "required")))
  }

  /** `getSwaggerParams(route, type, operationNickname)`. */
  function SwaggerParams(route: Route, kind: Surface, pluginName: string, nickname: string): Outcome<seq<Param>>
    requires kind != Response
  {
    match PlanParams(route, kind, pluginName, nickname)
    case Throws(e) => Throws(e)
    case Returns(NoParams) => Returns([])
    case Returns(Body(p)) => Returns([p])
    case Returns(PerProperty(paramType, withBounds, properties, required)) => PropertyParams(paramType, withBounds, properties, required)
  }

  /**
    `getSwaggerParams`: pushes one parameter per property onto `params`
    (or the one `body` parameter), raising when a property cannot be read.
   */
  method GetSwaggerParams(route: Route, kind: Surface, pluginName: string, nickname: string) returns (r: Outcome<seq<Param>>)
    requires kind != Response
    ensures r == SwaggerParams(route, kind, pluginName, nickname)
  {
    var plan := PlanParams(route, kind, pluginName, nickname);
    if plan.Throws? {
      return Throws(plan.error);
    }
    if plan.value.NoParams? {
      return Returns([]);
    }
    if plan.value.Body? {
      return Returns([plan.value.param]);
    }
    var PerProperty(paramType, withBounds, properties, required) := plan.value;
    r := PushPropertyParams(paramType, withBounds, properties, required);
  }

  /** The `for (prop in schema.properties)` loop of `getSwaggerParams`. */
  method PushPropertyParams(paramType: string, withBounds: bool, properties: Fields, required: JValue) returns (r: Outcome<seq<Param>>)
    ensures r == PropertyParams(paramType, withBounds, properties, required)
  {
    ghost var f := PropertyParamOf(paramType, withBounds, required);
    var params: seq<Param> := [];
    var i := 0;
    while i < |properties|
      invariant 0 <= i <= |properties|
      invariant MapSteps(properties, i, f) == Returns(params)
    {
      MapStepsStep(properties, i, f, params);
      var param := PropertyParam(paramType, withBounds, properties[i], required);
      assert f(properties[i]) == param;
      if param.Throws? {
        MapStepsThrowsPrefix(properties, i + 1, f, param.error);
        return Throws(param.error);
      }
      params := params + [param.value];
      i := i + 1;
    }
    return Returns(params);
  }

  /**
    One parameter per property, named after it, in property order, with the
    surface's parameter type; the loop raises exactly when some property does.
   */
  lemma PropertyParamsPerProperty(paramType: string, withBounds: bool, properties: Fields, required: JValue)
    ensures PropertyParams(paramType, withBounds, properties, required).Throws? <==>
      exists i :: 0 <= i < |properties| && PropertyParam(paramType, withBounds, properties[i], required).Throws?
    ensures var r := PropertyParams(paramType, withBounds, properties, required);
      r.Returns? ==>
        && |r.value| == |properties|
        && forall i :: 0 <= i < |properties| ==>
             && r.value[i] == PropertyParam(paramType, withBounds, properties[i], required).value
             && r.value[i].name == properties[i].0 && r.value[i].paramType == paramType
  {
    var f := PropertyParamOf(paramType, withBounds, required);
    MapStepsThrowsIff(properties, |properties|, f);
    assert forall i :: 0 <= i < |properties| ==> f(properties[i]) == PropertyParam(paramType, withBounds, properties[i], required);
    var r := PropertyParams(paramType, withBounds, properties, required);
    if r.Returns? {
      MapStepsResults(properties, |properties|, f);
      forall i | 0 <= i < |properties|
        ensures r.value[i].name == properties[i].0 && r.value[i].paramType == paramType
      {
        PropertyParamShape(paramType, withBounds, properties[i], required);
      }
    }
  }

  /** A parameter built from a property carries its name and the surface's parameter type. */
  lemma PropertyParamShape(paramType: string, withBounds: bool, property: (string, JValue), required: JValue)
    requires PropertyParam(paramType, withBounds, property, required).Returns?
    ensures PropertyParam(paramType, withBounds, property, required).value.name == property.0
    ensures PropertyParam(paramType, withBounds, property, required).value.paramType == paramType
  {
  }

  /**
    A parameter is required (truthy) exactly when its name is listed in the
    schema's `required` array.
   */
  lemma RequiredIffListed(paramType: string, withBounds: bool, property: (string, JValue), required: JValue)
    requires required.JArr? || !Truthy(required)
    requires PropertyParam(paramType, withBounds, property, required).Returns?
    ensures Truthy(PropertyParam(paramType, withBounds, property, required).value.required) <==>
      required.JArr? && JStr(property.0) in required.elems
  {
  }

  /**
    Path, query and header parameters carry the property's bounds and enum
    (an exclusive minimum raised by one); form parameters carry none.
   */
  lemma BoundsCopied(paramType: string, withBounds: bool, property: (string, JValue), required: JValue)
    requires PropertyParam(paramType, withBounds, property, required).Returns?
    ensures var param := PropertyParam(paramType, withBounds, property, required).value;
      && (withBounds ==> param.minimum == MinimumOf(property.1) && param.maximum == OwnField(property.1, "maximum")
                          && param.enumValues == OwnField(property.1, "enum"))
      && (!withBounds ==> param.minimum.None? && param.maximum.None? && param.enumValues.None?)
  {
  }

  /** The guards of `getSwaggerParams` hold for the payload: the route has a payload schema for the plugin. */
  predicate PayloadConfigured(route: Route, pluginName: string)
  {
    Truthy(Prop(route.settings, "plugins")) && Truthy(PluginConfig(route, pluginName))
    && Truthy(Prop(PluginConfig(route, pluginName), "payload"))
  }

  /** A configured payload that accepts JSON is documented as one required `body` parameter typed `<nickname>_body`. */
  lemma PayloadBodyParam(route: Route, pluginName: string, nickname: string)
    requires PayloadConfigured(route, pluginName) && JsonBody(route) == Returns(true)
    requires nickname != ""
    ensures var schema := Prop(PluginConfig(route, pluginName), "payload");
      SwaggerParams(route, Payload, pluginName, nickname)
      == Returns([Param("body", "body", Prop(schema, "description"), JStr(nickname + "_body"), JBool(true), None, None, None)])
  {
    var schema := Prop(PluginConfig(route, pluginName), "payload");
    assert PlanParams(route, Payload, pluginName, nickname) == Returns(Body(BodyParam(schema, nickname)));
  }

  /** A configured payload that does not accept JSON is documented as one `form` parameter per property. */
  lemma PayloadFormParams(route: Route, pluginName: string, nickname: string)
    requires PayloadConfigured(route, pluginName) && JsonBody(route) == Returns(false)
    requires SwaggerParams(route, Payload, pluginName, nickname).Returns?
    ensures var schema := Prop(PluginConfig(route, pluginName), "payload");
      var ps := SwaggerParams(route, Payload, pluginName, nickname).value;
      |ps| == |PropertiesOf(schema)|
      && forall i :: 0 <= i < |ps| ==> ps[i].paramType == "form" && ps[i].name == PropertiesOf(schema)[i].0
  {
    var schema := Prop(PluginConfig(route, pluginName), "payload");
    assert PlanParams(route, Payload, pluginName, nickname)
        == Returns(PerProperty("form", false, PropertiesOf(schema), Prop(schema, "required")));
    var r := SwaggerParams(route, Payload, pluginName, nickname);
    assert r == PropertyParams("form", false, PropertiesOf(schema), Prop(schema, "required"));
    FormParamsPerProperty(PropertiesOf(schema), Prop(schema, "required"), r.value);
  }

  /** The form parameters of a payload: one per property, named after it. */
  lemma FormParamsPerProperty(properties: Fields, required: JValue, ps: seq<Param>)
    requires PropertyParams("form", false, properties, required) == Returns(ps)
    ensures |ps| == |properties|
    ensures forall i :: 0 <= i < |ps| ==> ps[i].paramType == "form" && ps[i].name == properties[i].0
  {
    PropertyParamsPerProperty("form", false, properties, required);
  }

  // ----- `getSwaggerOperationForRoute` -----

  /** A Swagger operation; `items` is the `$ref` of an array response. */
  datatype Operation = Operation(httpMethod: string, summary: JValue, notes: JValue, responseType: JValue, items: Option<string>,
                                 nickname: string, responseMessages: Option<JValue>, parameters: seq<Param>)

  /** `plugins[pluginName].response`, when the guards of lines 143-145 hold. */
  function ResponseConfig(route: Route, pluginName: string): Option<JValue>
  {
    var config := PluginConfig(route, pluginName);
    if Truthy(Prop(route.settings, "plugins")) && Truthy(config) && Truthy(Prop(config, "response"))
    then Some(Prop(config, "response")) else None
  }

  /** The operation's `type` and `items` from the response schema. */
  function ResponseType(route: Route, pluginName: string, nickname: string): (JValue, Option<string>)
  {
    match ResponseConfig(route, pluginName)
    case Some(response) =>
      var schema := Prop(response, "schema");
      if !Truthy(schema) then (JStr("void"), None)
      else if Prop(schema, "type") == JStr("object") then (JStr(nickname + "_response"), None)
      else if Prop(schema, "type") == JStr("array") then (JStr("array"), Some(nickname + "_response"))
      else (Prop(schema, "type"), None)
    case None => (JStr("void"), None)
  }

  /** `response.messages`, when truthy. */
  function ResponseMessages(route: Route, pluginName: string): Option<JValue>
  {
    match ResponseConfig(route, pluginName)
    case Some(response) => if Truthy(Prop(response, "messages")) then Some(Prop(response, "messages")) else None
    case None => None
  }

  /** `parameters.concat(next)`, where the call producing `next` may raise. */
  function Then(acc: Outcome<seq<Param>>, next: Outcome<seq<Param>>): (r: Outcome<seq<Param>>)
    ensures r.Returns? <==> acc.Returns? && next.Returns?
    ensures r.Returns? ==> r.value == acc.value + next.value
    ensures acc.Throws? ==> r == acc
  {
    match acc
    case Throws(e) => Throws(e)
    case Returns(ps) =>
      match next
      case Throws(e) => Throws(e)
      case Returns(qs) => Returns(ps + qs)
  }

  /** The parameters of lines 167-173: path, query, payload and headers, concatenated in turn. */
  function OperationParams(route: Route, pluginName: string, nickname: string): Outcome<seq<Param>>
  {
    var afterPath := Then(Returns([]), SwaggerParams(route, Path, pluginName, ""));
    var afterQuery := Then(afterPath, SwaggerParams(route, Query, pluginName, ""));
    var afterPayload := Then(afterQuery, SwaggerParams(route, Payload, pluginName, nickname));
    Then(afterPayload, SwaggerParams(route, Headers, pluginName, ""))
  }

  /** `getSwaggerOperationForRoute(route, resourceType, path)`. */
  function OperationSpec(route: Route, pluginName: string, path: string): Outcome<Operation>
  {
    var nickname := OperationNickname(route.httpMethod, path);
    var (responseType, items) := ResponseType(route, pluginName, nickname);
    match OperationParams(route, pluginName, nickname)
    case Throws(e) => Throws(e)
    case Returns(parameters) =>
      Returns(Operation(route.httpMethod, Prop(route.settings, "description"), Prop(route.settings, "notes"),
                        responseType, items, nickname, ResponseMessages(route, pluginName), parameters))
  }

  /** The four `operation.parameters = operation.parameters.concat(getSwaggerParams(...))` statements. */
  method ConcatOperationParams(route: Route, pluginName: string, nickname: string) returns (r: Outcome<seq<Param>>)
    ensures r == OperationParams(route, pluginName, nickname)
  {
    var pathParams := GetSwaggerParams(route, Path, pluginName, "");
    r := Then(Returns([]), pathParams);
    if r.Throws? {
      return;
    }
    var queryParams := GetSwaggerParams(route, Query, pluginName, "");
    r := Then(r, queryParams);
    if r.Throws? {
      return;
    }
    var payloadParams := GetSwaggerParams(route, Payload, pluginName, nickname);
    r := Then(r, payloadParams);
    if r.Throws? {
      return;
    }
    var headerParams := GetSwaggerParams(route, Headers, pluginName, "");
    r := Then(r, headerParams);
  }

  /** `getSwaggerOperationForRoute`: the nickname, the response type and the concatenated parameters. */
  method GetSwaggerOperationForRoute(route: Route, pluginName: string, path: string) returns (r: Outcome<Operation>)
    ensures r == OperationSpec(route, pluginName, path)
  {
    var nickname := OperationNickname(route.httpMethod, path);
    var (responseType, items) := ResponseType(route, pluginName, nickname);
    var parameters := ConcatOperationParams(route, pluginName, nickname);
    if parameters.Throws? {
      return Throws(parameters.error);
    }
    return Returns(Operation(route.httpMethod, Prop(route.settings, "description"), Prop(route.settings, "notes"),
                             responseType, items, nickname, ResponseMessages(route, pluginName), parameters.value));
  }

  /**
    The operation type is `void` without a response schema, the
    `<nickname>_response` model for an object schema, an array of that model
    for an array schema, and the schema's own type otherwise.
   */
  lemma OperationTypeRules(route: Route, pluginName: string, path: string)
    requires OperationSpec(route, pluginName, path).Returns?
    ensures var op := OperationSpec(route, pluginName, path).value;
      var response := ResponseConfig(route, pluginName);
      var schema := if response.Some? then Prop(response.value, "schema") else JUndefined;
      && op.nickname == route.httpMethod + "_" + Nickname(path)
      && (!Truthy(schema) ==> op.responseType == JStr("void") && op.items.None?)
      && (Truthy(schema) && Prop(schema, "type") == JStr("object") ==>
            op.responseType == JStr(op.nickname + "_response") && op.items.None?)
      && (Truthy(schema) && Prop(schema, "type") == JStr("array") ==>
            op.responseType == JStr("array") && op.items == Some(op.nickname + "_response"))
      && (Truthy(schema) && Prop(schema, "type") !in {JStr("object"), JStr("array")} ==>
            op.responseType == Prop(schema, "type") && op.items.None?)
  {
  }

  /** The operation lists the path, query, payload and header parameters, in that order. */
  lemma OperationParamsOrder(route: Route, pluginName: string, nickname: string)
    requires OperationParams(route, pluginName, nickname).Returns?
    ensures var pathParams := SwaggerParams(route, Path, pluginName, "");
      var queryParams := SwaggerParams(route, Query, pluginName, "");
      var payloadParams := SwaggerParams(route, Payload, pluginName, nickname);
      var headerParams := SwaggerParams(route, Headers, pluginName, "");
      && pathParams.Returns? && queryParams.Returns? && payloadParams.Returns? && headerParams.Returns?
      && OperationParams(route, pluginName, nickname).value
         == pathParams.value + queryParams.value + payloadParams.value + headerParams.value
  {
    ThenChain(SwaggerParams(route, Path, pluginName, ""), SwaggerParams(route, Query, pluginName, ""),
              SwaggerParams(route, Payload, pluginName, nickname), SwaggerParams(route, Headers, pluginName, ""));
  }

  /** Four `concat`s in a row that return hold the four lists in order. */
  lemma ThenChain(a: Outcome<seq<Param>>, b: Outcome<seq<Param>>, c: Outcome<seq<Param>>, d: Outcome<seq<Param>>)
    requires Then(Then(Then(Then(Returns([]), a), b), c), d).Returns?
    ensures a.Returns? && b.Returns? && c.Returns? && d.Returns?
    ensures Then(Then(Then(Then(Returns([]), a), b), c), d).value == a.value + b.value + c.value + d.value
  {
    assert [] + a.value == a.value;
  }

}
