/**
  Schema registration (lib/RouteSchemaManager.js, `generateSchemasForRoute`
  and `initializeRoutes`): each surface option a route declares becomes a
  cache entry under `surface:method|path`, after the schema passes the
  evaluator's `validateSchema` check.
 */
module Registration {
  import opened Json
  import opened SchemaKeys
  import opened HeadersSchema

  /** The error raised for a schema that fails the `validateSchema` check. */
  function SchemaError(route: Route, s: Surface): JsError
  {
    Error("Failed to validate schema for route: " + route.path + ", method: " + route.httpMethod + ", type: " + SurfaceName(s))
  }

  /** The cache key of a route's schema for surface `s`. */
  function KeyFor(route: Route, s: Surface): string
  {
    ConstructSchemaKey(SurfaceName(s), route.httpMethod, route.path)
  }

  /**
    The schema an option registers: `.schema` of a response policy (reading it
    from null or undefined raises a TypeError), the lower-cased form of a
    headers schema, the option itself otherwise.
   */
  function SchemaOf(s: Surface, option: JValue): (r: Outcome<JValue>)
    ensures r.Throws? <==> s == Response && NullOrUndefined(option)
  {
    match s
    case Response => if NullOrUndefined(option) then Throws(TypeError) else Returns(Prop(option, "schema"))
    case Headers => Returns(ModifyHeadersSchema(option))
    case _ => Returns(option)
  }

  /** A response schema that is missing or of type `void` is not registered. */
  predicate SkippedResponse(schema: JValue)
  {
    !Truthy(schema) || IsType(schema, "void")
  }

  /**
    The iterator of `generateSchemasForRoute` for one option: the entry it
    stores, `None` when it stores nothing, or the error it raises.
   */
  function RegisterOption(route: Route, s: Surface, option: JValue, validateSchema: JValue -> bool): (r: Outcome<Option<(string, JValue)>>)
    // the only entry ever stored is under this route's key for `s`, holding the registered schema
    ensures r.Returns? && r.value.Some? ==>
      SchemaOf(s, option).Returns? && r.value.value == (KeyFor(route, s), SchemaOf(s, option).value)
    // nothing is stored only for a skipped response
    ensures r == Returns(None) <==> s == Response && SchemaOf(s, option).Returns? && SkippedResponse(SchemaOf(s, option).value)
    // the check's failure is reported with the route's path, method and surface
    ensures r.Throws? && r.error.Error? ==>
      SchemaOf(s, option).Returns? && r.error == SchemaError(route, s) && !validateSchema(SchemaOf(s, option).value)
  {
    match SchemaOf(s, option)
    case Throws(e) => Throws(e)
    case Returns(schema) =>
      if s == Response && SkippedResponse(schema) then Returns(None)
      else if s == Payload && NullOrUndefined(schema) then Throws(TypeError)
      else if s == Payload && IsType(schema, "file") then Returns(Some((KeyFor(route, s), schema)))
      else if !validateSchema(schema) then Throws(SchemaError(route, s))
      else Returns(Some((KeyFor(route, s), schema)))
  }

  /** A payload schema of type `file` is stored whatever the schema check says. */
  lemma FilePayloadStoredUnchecked(route: Route, option: JValue, validateSchema: JValue -> bool)
    requires IsType(option, "file")
    ensures RegisterOption(route, Payload, option, validateSchema) == Returns(Some((KeyFor(route, Payload), option)))
  {
  }

  /** Any other schema is stored exactly when it passes the check, and its failure names the route. */
  lemma CheckedSchemaStored(route: Route, s: Surface, option: JValue, validateSchema: JValue -> bool)
    requires s != Response && !(s == Payload && (NullOrUndefined(option) || IsType(option, "file")))
    ensures var schema := SchemaOf(s, option).value;
      && (validateSchema(schema) ==> RegisterOption(route, s, option, validateSchema) == Returns(Some((KeyFor(route, s), schema))))
      && (!validateSchema(schema) ==> RegisterOption(route, s, option, validateSchema) == Throws(SchemaError(route, s)))
  {
  }

  /** The map after one option's registration outcome. */
  function Extend(m: map<string, JValue>, entry: Outcome<Option<(string, JValue)>>): Outcome<map<string, JValue>>
  {
    match entry
    case Throws(e) => Throws(e)
    case Returns(None) => Returns(m)
    case Returns(Some(kv)) => Returns(m[kv.0 := kv.1])
  }

  /**
    `generateSchemasForRoute` over the options `opts`, in order: the map of
    entries stored, or the first error raised.
   */
  function RouteSchemas(route: Route, opts: seq<(Surface, JValue)>, validateSchema: JValue -> bool): (r: Outcome<map<string, JValue>>)
  {
    if |opts| == 0 then Returns(map[])
    else
      match RouteSchemas(route, opts[..|opts| - 1], validateSchema)
      case Throws(e) => Throws(e)
      case Returns(m) => Extend(m, RegisterOption(route, opts[|opts| - 1].0, opts[|opts| - 1].1, validateSchema))
  }

  /** One more option extends the map of the options before it. */
  lemma RouteSchemasStep(route: Route, opts: seq<(Surface, JValue)>, i: int, validateSchema: JValue -> bool, m: map<string, JValue>)
    requires 0 <= i < |opts| && RouteSchemas(route, opts[..i], validateSchema) == Returns(m)
    ensures RouteSchemas(route, opts[..i + 1], validateSchema) == Extend(m, RegisterOption(route, opts[i].0, opts[i].1, validateSchema))
  {
    assert opts[..i + 1][..i] == opts[..i];
  }

  /** `generateSchemasForRoute(route)`. */
  function GenerateSchemasForRoute(route: Route, pluginName: string, validateSchema: JValue -> bool): Outcome<map<string, JValue>>
  {
    RouteSchemas(route, ValidationOptions(route, pluginName), validateSchema)
  }

  /** Registering option `o` raises. */
  predicate OptionThrows(route: Route, o: (Surface, JValue), validateSchema: JValue -> bool)
  {
    RegisterOption(route, o.0, o.1, validateSchema).Throws?
  }

  /** The route's schemas are generated exactly when no option raises. */
  lemma {:induction false} RouteSchemasThrows(route: Route, opts: seq<(Surface, JValue)>, validateSchema: JValue -> bool)
    ensures RouteSchemas(route, opts, validateSchema).Throws? <==>
      exists i :: 0 <= i < |opts| && OptionThrows(route, opts[i], validateSchema)
  {
    if |opts| > 0 {
      var n := |opts| - 1;
      RouteSchemasThrows(route, opts[..n], validateSchema);
      RouteSchemasThrowsLast(route, opts, validateSchema);
      SomeOptionThrowsSplit(route, opts, opts[..n], validateSchema);
    }
  }

  /** The run over all options raises when the run before the last one does, or the last one does. */
  lemma RouteSchemasThrowsLast(route: Route, opts: seq<(Surface, JValue)>, validateSchema: JValue -> bool)
    requires |opts| > 0
    ensures RouteSchemas(route, opts, validateSchema).Throws? <==>
      RouteSchemas(route, opts[..|opts| - 1], validateSchema).Throws? || OptionThrows(route, opts[|opts| - 1], validateSchema)
  {
  }

  lemma SomeOptionThrowsSplit(route: Route, opts: seq<(Surface, JValue)>, prev: seq<(Surface, JValue)>, validateSchema: JValue -> bool)
    requires |opts| > 0 && prev == opts[..|opts| - 1]
    ensures (exists i :: 0 <= i < |opts| && OptionThrows(route, opts[i], validateSchema)) <==>
      (exists i :: 0 <= i < |prev| && OptionThrows(route, prev[i], validateSchema))
      || OptionThrows(route, opts[|opts| - 1], validateSchema)
  {
    ExistsSplit(opts, prev, (o: (Surface, JValue)) => OptionThrows(route, o, validateSchema));
  }

  /** No two options name the same surface, as the keys of an options object are distinct. */
  predicate DistinctSurfaces(opts: seq<(Surface, JValue)>)
  {
    forall i, j :: 0 <= i < j < |opts| ==> opts[i].0 != opts[j].0
  }

  /** Option `o` stores `v` under `k`. */
  predicate Stores(route: Route, o: (Surface, JValue), validateSchema: JValue -> bool, k: string, v: JValue)
  {
    RegisterOption(route, o.0, o.1, validateSchema) == Returns(Some((k, v)))
  }

  /**
    Every entry stored comes from one option, and every option that stores
    an entry finds it in the result.
   */
  lemma RouteSchemasEntries(route: Route, opts: seq<(Surface, JValue)>, validateSchema: JValue -> bool)
    requires RouteSchemas(route, opts, validateSchema).Returns?
    requires DistinctSurfaces(opts)
    ensures var m := RouteSchemas(route, opts, validateSchema).value;
      forall k :: k in m ==> exists i :: 0 <= i < |opts| && Stores(route, opts[i], validateSchema, k, m[k])
    ensures var m := RouteSchemas(route, opts, validateSchema).value;
      forall i, k, v :: 0 <= i < |opts| && Stores(route, opts[i], validateSchema, k, v) ==> k in m && m[k] == v
  {
    EntriesHaveSources(route, opts, validateSchema);
    StoredEntriesKept(route, opts, validateSchema);
  }

  /** A run that returns is the run before the last option extended by that option's entry. */
  lemma RouteSchemasLast(route: Route, opts: seq<(Surface, JValue)>, validateSchema: JValue -> bool)
    requires |opts| > 0 && RouteSchemas(route, opts, validateSchema).Returns?
    ensures var n := |opts| - 1;
      var prev := RouteSchemas(route, opts[..n], validateSchema);
      var last := RegisterOption(route, opts[n].0, opts[n].1, validateSchema);
      && prev.Returns? && last.Returns?
      && RouteSchemas(route, opts, validateSchema).value
         == if last.value.Some? then prev.value[last.value.value.0 := last.value.value.1] else prev.value
  {
  }

  /** Some option among `opts` stores `v` under `k`. */
  predicate HasSource(route: Route, opts: seq<(Surface, JValue)>, validateSchema: JValue -> bool, k: string, v: JValue)
  {
    exists i :: 0 <= i < |opts| && Stores(route, opts[i], validateSchema, k, v)
  }

  lemma {:induction false} EntriesHaveSources(route: Route, opts: seq<(Surface, JValue)>, validateSchema: JValue -> bool)
    requires RouteSchemas(route, opts, validateSchema).Returns?
    ensures var m := RouteSchemas(route, opts, validateSchema).value;
      forall k :: k in m ==> HasSource(route, opts, validateSchema, k, m[k])
  {
    if |opts| > 0 {
      var n := |opts| - 1;
      var prev := opts[..n];
      RouteSchemasLast(route, opts, validateSchema);
      EntriesHaveSources(route, prev, validateSchema);
      var m0 := RouteSchemas(route, prev, validateSchema).value;
      var m := RouteSchemas(route, opts, validateSchema).value;
      var last := RegisterOption(route, opts[n].0, opts[n].1, validateSchema).value;
      forall k | k in m
        ensures HasSource(route, opts, validateSchema, k, m[k])
      {
        EntrySource(route, opts, prev, validateSchema, m0, last, m, k);
      }
    }
  }

  /** An entry after the last option comes from that option, or from an earlier one. */
  lemma EntrySource(route: Route, opts: seq<(Surface, JValue)>, prev: seq<(Surface, JValue)>, validateSchema: JValue -> bool,
                    m0: map<string, JValue>, last: Option<(string, JValue)>, m: map<string, JValue>, k: string)
    requires |opts| > 0 && prev == opts[..|opts| - 1]
    requires RegisterOption(route, opts[|opts| - 1].0, opts[|opts| - 1].1, validateSchema) == Returns(last)
    requires m == if last.Some? then m0[last.value.0 := last.value.1] else m0
    requires k in m && (k in m0 ==> HasSource(route, prev, validateSchema, k, m0[k]))
    ensures HasSource(route, opts, validateSchema, k, m[k])
  {
    var n := |opts| - 1;
    if last.Some? && k == last.value.0 {
      assert Stores(route, opts[n], validateSchema, k, m[k]);
    } else {
      var i :| 0 <= i < |prev| && Stores(route, prev[i], validateSchema, k, m0[k]);
      assert prev[i] == opts[i];
    }
  }

  lemma {:induction false} StoredEntriesKept(route: Route, opts: seq<(Surface, JValue)>, validateSchema: JValue -> bool)
    requires RouteSchemas(route, opts, validateSchema).Returns?
    requires DistinctSurfaces(opts)
    ensures var m := RouteSchemas(route, opts, validateSchema).value;
      forall i, k, v :: 0 <= i < |opts| && Stores(route, opts[i], validateSchema, k, v) ==> k in m && m[k] == v
  {
    if |opts| > 0 {
      var n := |opts| - 1;
      var prev := opts[..n];
      assert DistinctSurfaces(prev);
      RouteSchemasLast(route, opts, validateSchema);
      StoredEntriesKept(route, prev, validateSchema);
      var m := RouteSchemas(route, opts, validateSchema).value;
      var before := RouteSchemas(route, prev, validateSchema).value;
      var last := RegisterOption(route, opts[n].0, opts[n].1, validateSchema).value;
      forall i, k, v | 0 <= i < |opts| && Stores(route, opts[i], validateSchema, k, v)
        ensures k in m && m[k] == v
      {
        if i < n {
          assert prev[i] == opts[i];
          StoredEntryOutlivesLast(route, before, last, m, opts[i], opts[n], validateSchema, k, v);
        }
      }
    }
  }

  /** An entry stored by an earlier option survives the last option, which writes under another key. */
  lemma StoredEntryOutlivesLast(route: Route, before: map<string, JValue>, last: Option<(string, JValue)>, m: map<string, JValue>,
                                earlier: (Surface, JValue), final: (Surface, JValue), validateSchema: JValue -> bool, k: string, v: JValue)
    requires earlier.0 != final.0
    requires Stores(route, earlier, validateSchema, k, v) && k in before && before[k] == v
    requires RegisterOption(route, final.0, final.1, validateSchema) == Returns(last)
    requires m == if last.Some? then before[last.value.0 := last.value.1] else before
    ensures k in m && m[k] == v
  {
    if last.Some? {
      SchemaKeyInjectiveForRoute(route, earlier.0, final.0);
    }
  }

  /** Different surfaces of one route have different keys. */
  lemma SchemaKeyInjectiveForRoute(route: Route, s1: Surface, s2: Surface)
    requires s1 != s2
    ensures KeyFor(route, s1) != KeyFor(route, s2)
  {
    SurfaceNameInjective(s1, s2);
    SurfaceInKey(route, s1);
    SurfaceInKey(route, s2);
  }

  /** The surface name is the part of the key before its first colon. */
  lemma SurfaceInKey(route: Route, s: Surface)
    ensures IndexOfChar(KeyFor(route, s), ':') == |SurfaceName(s)|
    ensures KeyFor(route, s)[..|SurfaceName(s)|] == SurfaceName(s)
  {
    var rest := route.httpMethod + "|" + route.path;
    SurfaceNameInjective(s, s);
    SchemaKeySplit(SurfaceName(s), route.httpMethod, route.path);
    IndexOfCharAfter(SurfaceName(s), ':', rest);
  }

  /** The options read from an object with distinct keys name distinct surfaces. */
  lemma {:induction false} SurfaceEntriesDistinct(fs: Fields)
    requires DistinctKeys(fs)
    ensures DistinctSurfaces(SurfaceEntries(fs))
  {
    if |fs| > 0 {
      assert DistinctKeys(fs[1..]) by {
        forall i, j | 0 <= i < j < |fs[1..]| ensures fs[1..][i].0 != fs[1..][j].0 {
          assert fs[1..][i] == fs[i + 1] && fs[1..][j] == fs[j + 1];
        }
      }
      SurfaceEntriesDistinct(fs[1..]);
      var rest := SurfaceEntries(fs[1..]);
      match FindSurface(AllSurfaces, fs[0].0)
      case None =>
      case Some(s) =>
        forall j | 0 <= j < |rest| ensures rest[j].0 != s {
          assert rest[j] in rest;
          SurfaceEntriesMembers(fs[1..], rest[j].0, rest[j].1);
          var q :| 0 <= q < |fs[1..]| && fs[1..][q] == (SurfaceName(rest[j].0), rest[j].1);
          assert fs[q + 1].0 == SurfaceName(rest[j].0);
        }
        var r := [(s, fs[0].1)] + rest;
        forall i, j | 0 <= i < j < |r| ensures r[i].0 != r[j].0 {
          if i > 0 {
            assert r[i] == rest[i - 1] && r[j] == rest[j - 1];
          } else {
            assert r[j] == rest[j - 1];
          }
        }
    }
  }

  /** A route's options, when its settings are well formed, name distinct surfaces and hold well-formed values. */
  lemma ValidationOptionsWellFormed(route: Route, pluginName: string)
    requires WellFormed(route.settings)
    ensures DistinctSurfaces(ValidationOptions(route, pluginName))
    ensures forall i :: 0 <= i < |ValidationOptions(route, pluginName)| ==> WellFormed(ValidationOptions(route, pluginName)[i].1)
  {
    var plugins := Prop(route.settings, "plugins");
    WellFormedProp(route.settings, "plugins");
    WellFormedProp(plugins, pluginName);
    var opts := ValidationOptions(route, pluginName);
    match PluginOptions(route, pluginName)
    case Some(JObj(fs)) =>
      SurfaceEntriesDistinct(fs);
      forall i | 0 <= i < |opts| ensures WellFormed(opts[i].1) {
        assert opts[i] in opts;
        SurfaceEntriesMembers(fs, opts[i].0, opts[i].1);
        WellFormedField(fs, (SurfaceName(opts[i].0), opts[i].1));
      }
    case _ =>
  }

  /** Every schema registered from a well-formed option is well formed. */
  lemma RegisteredWellFormed(route: Route, s: Surface, option: JValue, validateSchema: JValue -> bool)
    requires WellFormed(option)
    requires RegisterOption(route, s, option, validateSchema).Returns?
    requires RegisterOption(route, s, option, validateSchema).value.Some?
    ensures WellFormed(RegisterOption(route, s, option, validateSchema).value.value.1)
  {
    match s
    case Response => WellFormedProp(option, "schema");
    case Headers => ModifyKeepsWellFormed(option);
    case _ =>
  }

  /** Every schema generated for a route with well-formed settings is well formed. */
  lemma GeneratedWellFormed(route: Route, pluginName: string, validateSchema: JValue -> bool)
    requires WellFormed(route.settings)
    requires GenerateSchemasForRoute(route, pluginName, validateSchema).Returns?
    ensures forall k :: k in GenerateSchemasForRoute(route, pluginName, validateSchema).value ==>
      WellFormed(GenerateSchemasForRoute(route, pluginName, validateSchema).value[k])
  {
    var opts := ValidationOptions(route, pluginName);
    ValidationOptionsWellFormed(route, pluginName);
    RouteSchemasEntries(route, opts, validateSchema);
    var m := GenerateSchemasForRoute(route, pluginName, validateSchema).value;
    forall k | k in m ensures WellFormed(m[k]) {
      var i :| 0 <= i < |opts| && Stores(route, opts[i], validateSchema, k, m[k]);
      RegisteredWellFormed(route, opts[i].0, opts[i].1, validateSchema);
    }
  }

  /**
    `generateSchemasForRoute(route)` as the source runs it: one registration
    per option, in order, stopping at the first error.
   */
  method GenerateSchemas(route: Route, pluginName: string, validateSchema: JValue -> bool) returns (r: Outcome<map<string, JValue>>)
    ensures r == GenerateSchemasForRoute(route, pluginName, validateSchema)
  {
    var opts := ValidationOptions(route, pluginName);
    var schemas: map<string, JValue> := map[];
    var i := 0;
    while i < |opts|
      invariant 0 <= i <= |opts|
      invariant RouteSchemas(route, opts[..i], validateSchema) == Returns(schemas)
    {
      var (s, option) := opts[i];
      var entry := RegisterOption(route, s, option, validateSchema);
      RouteSchemasStep(route, opts, i, validateSchema, schemas);
      if entry.Throws? {
        RouteSchemasThrowsPrefix(route, opts, i + 1, validateSchema);
        return Throws(entry.error);
      }
      if entry.value.Some? {
        schemas := schemas[entry.value.value.0 := entry.value.value.1];
      }
      i := i + 1;
    }
    assert opts[..i] == opts;
    return Returns(schemas);
  }

  /** Once a prefix of the options raises, the whole run raises the same error. */
  lemma {:induction false} RouteSchemasThrowsPrefix(route: Route, opts: seq<(Surface, JValue)>, n: nat, validateSchema: JValue -> bool)
    requires n <= |opts| && RouteSchemas(route, opts[..n], validateSchema).Throws?
    ensures RouteSchemas(route, opts, validateSchema) == RouteSchemas(route, opts[..n], validateSchema)
    decreases |opts| - n
  {
    if n < |opts| {
      assert opts[..n + 1][..n] == opts[..n];
      RouteSchemasThrowsPrefix(route, opts, n + 1, validateSchema);
    } else {
      assert opts[..n] == opts;
    }
  }

  /** What `initializeRoutes` leaves behind: the cache, and the error it raised if any. */
  datatype InitResult = InitResult(cache: map<string, JValue>, error: Option<JsError>)

  /**
    `initializeRoutes(routes)`: each route's schemas are merged into the cache
    in turn (`_.extend`); an error stops the loop, keeping what was merged.
   */
  function InitializeRoutesSpec(cache: map<string, JValue>, routes: seq<Route>, pluginName: string, validateSchema: JValue -> bool): InitResult
    decreases |routes|
  {
    if |routes| == 0 then InitResult(cache, None)
    else
      match GenerateSchemasForRoute(routes[0], pluginName, validateSchema)
      case Throws(e) => InitResult(cache, Some(e))
      case Returns(m) => InitializeRoutesSpec(cache + m, routes[1..], pluginName, validateSchema)
  }

  /** `initializeRoutes` raises exactly when some route's schemas cannot be generated. */
  lemma {:induction false} InitializeErrorIff(cache: map<string, JValue>, routes: seq<Route>, pluginName: string, validateSchema: JValue -> bool)
    ensures InitializeRoutesSpec(cache, routes, pluginName, validateSchema).error.Some? <==>
      exists i :: 0 <= i < |routes| && GenerateSchemasForRoute(routes[i], pluginName, validateSchema).Throws?
    decreases |routes|
  {
    if |routes| > 0 {
      match GenerateSchemasForRoute(routes[0], pluginName, validateSchema)
      case Throws(_) =>
      case Returns(m) =>
        InitializeErrorIff(cache + m, routes[1..], pluginName, validateSchema);
        if exists i :: 0 <= i < |routes| && GenerateSchemasForRoute(routes[i], pluginName, validateSchema).Throws? {
          var i :| 0 <= i < |routes| && GenerateSchemasForRoute(routes[i], pluginName, validateSchema).Throws?;
          assert routes[1..][i - 1] == routes[i];
        }
    }
  }

  /**
    When a route raises, the cache holds exactly what the routes before it
    merged, and the error is that route's.
   */
  lemma {:induction false} InitializePartialMerge(cache: map<string, JValue>, routes: seq<Route>, pluginName: string, validateSchema: JValue -> bool)
    returns (i: nat)
    requires InitializeRoutesSpec(cache, routes, pluginName, validateSchema).error.Some?
    ensures i < |routes|
    ensures InitializeRoutesSpec(cache, routes[..i], pluginName, validateSchema).error.None?
    ensures InitializeRoutesSpec(cache, routes, pluginName, validateSchema).cache
         == InitializeRoutesSpec(cache, routes[..i], pluginName, validateSchema).cache
    ensures GenerateSchemasForRoute(routes[i], pluginName, validateSchema)
         == Throws(InitializeRoutesSpec(cache, routes, pluginName, validateSchema).error.value)
    decreases |routes|
  {
    InitializeErrorNonEmpty(cache, routes, pluginName, validateSchema);
    match GenerateSchemasForRoute(routes[0], pluginName, validateSchema)
    case Throws(e) =>
      i := 0;
      InitializeFirstThrows(cache, routes, pluginName, validateSchema, e);
      assert routes[..0] == [];
    case Returns(m) =>
      var j := InitializePartialMerge(cache + m, routes[1..], pluginName, validateSchema);
      i := j + 1;
      var pre := routes[..i];
      assert pre[0] == routes[0];
      assert pre[1..] == routes[1..][..j];
      InitializeAfterFirst(cache, routes, pluginName, validateSchema, m);
      InitializeAfterFirst(cache, pre, pluginName, validateSchema, m);
      assert routes[1..][j] == routes[i];
  }

  /** Only a non-empty run of routes raises. */
  lemma InitializeErrorNonEmpty(cache: map<string, JValue>, routes: seq<Route>, pluginName: string, validateSchema: JValue -> bool)
    requires InitializeRoutesSpec(cache, routes, pluginName, validateSchema).error.Some?
    ensures |routes| > 0
  {
  }

  /** When the first route raises, the run stops there with the cache untouched. */
  lemma InitializeFirstThrows(cache: map<string, JValue>, routes: seq<Route>, pluginName: string, validateSchema: JValue -> bool,
                              e: JsError)
    requires |routes| > 0 && GenerateSchemasForRoute(routes[0], pluginName, validateSchema) == Throws(e)
    ensures InitializeRoutesSpec(cache, routes, pluginName, validateSchema) == InitResult(cache, Some(e))
  {
  }

  /** When the first route's schemas are generated, the rest of the routes run on the extended cache. */
  lemma InitializeAfterFirst(cache: map<string, JValue>, routes: seq<Route>, pluginName: string, validateSchema: JValue -> bool,
                             m: map<string, JValue>)
    requires |routes| > 0 && GenerateSchemasForRoute(routes[0], pluginName, validateSchema) == Returns(m)
    ensures InitializeRoutesSpec(cache, routes, pluginName, validateSchema)
         == InitializeRoutesSpec(cache + m, routes[1..], pluginName, validateSchema)
  {
  }

  /** Without an error, the cache is the old cache updated by the union of all routes' schemas. */
  lemma {:induction false} InitializeMerges(cache: map<string, JValue>, routes: seq<Route>, pluginName: string, validateSchema: JValue -> bool)
    requires InitializeRoutesSpec(cache, routes, pluginName, validateSchema).error.None?
    ensures InitializeRoutesSpec(cache, routes, pluginName, validateSchema).cache
         == cache + InitializeRoutesSpec(map[], routes, pluginName, validateSchema).cache
    decreases |routes|
  {
    if |routes| > 0 {
      var m := GenerateSchemasForRoute(routes[0], pluginName, validateSchema).value;
      InitializeMerges(cache + m, routes[1..], pluginName, validateSchema);
      InitializeErrorIndependent(cache + m, map[] + m, routes[1..], pluginName, validateSchema);
      InitializeMerges(map[] + m, routes[1..], pluginName, validateSchema);
      var u := InitializeRoutesSpec(map[], routes[1..], pluginName, validateSchema).cache;
      MergeFromEmpty(m);
      MergeAssociative(cache, m, u);
    }
  }

  lemma MergeFromEmpty<K, V>(m: map<K, V>)
    ensures map[] + m == m
  {
  }

  /** `_.extend` in turn with `b` and then `c` is `_.extend` with `b` extended by `c`. */
  lemma MergeAssociative<K, V>(a: map<K, V>, b: map<K, V>, c: map<K, V>)
    ensures (a + b) + c == a + (b + c)
  {
  }

  /** Whether a route raises does not depend on what the cache holds. */
  lemma {:induction false} InitializeErrorIndependent(c1: map<string, JValue>, c2: map<string, JValue>, routes: seq<Route>, pluginName: string, validateSchema: JValue -> bool)
    ensures InitializeRoutesSpec(c1, routes, pluginName, validateSchema).error
         == InitializeRoutesSpec(c2, routes, pluginName, validateSchema).error
    decreases |routes|
  {
    if |routes| > 0 && GenerateSchemasForRoute(routes[0], pluginName, validateSchema).Returns? {
      var m := GenerateSchemasForRoute(routes[0], pluginName, validateSchema).value;
      InitializeErrorIndependent(c1 + m, c2 + m, routes[1..], pluginName, validateSchema);
    }
  }

  /** Registering the same routes a second time leaves the cache as registering them once. */
  lemma InitializeIdempotent(cache: map<string, JValue>, routes: seq<Route>, pluginName: string, validateSchema: JValue -> bool)
    requires InitializeRoutesSpec(cache, routes, pluginName, validateSchema).error.None?
    ensures var once := InitializeRoutesSpec(cache, routes, pluginName, validateSchema).cache;
      InitializeRoutesSpec(once, routes, pluginName, validateSchema) == InitResult(once, None)
  {
    var once := InitializeRoutesSpec(cache, routes, pluginName, validateSchema).cache;
    InitializeErrorIndependent(once, cache, routes, pluginName, validateSchema);
    InitializeMerges(cache, routes, pluginName, validateSchema);
    InitializeMerges(once, routes, pluginName, validateSchema);
    var u := InitializeRoutesSpec(map[], routes, pluginName, validateSchema).cache;
    assert (cache + u) + u == cache + u;
  }

  /** Every cached schema is well formed. */
  predicate CacheWellFormed(cache: map<string, JValue>)
  {
    forall k :: k in cache ==> WellFormed(cache[k])
  }

  /** The cache stays well formed when routes with well-formed settings are registered. */
  lemma {:induction false} InitializeKeepsWellFormed(cache: map<string, JValue>, routes: seq<Route>, pluginName: string, validateSchema: JValue -> bool)
    requires CacheWellFormed(cache)
    requires forall i :: 0 <= i < |routes| ==> WellFormed(routes[i].settings)
    ensures CacheWellFormed(InitializeRoutesSpec(cache, routes, pluginName, validateSchema).cache)
    decreases |routes|
  {
    if |routes| > 0 && GenerateSchemasForRoute(routes[0], pluginName, validateSchema).Returns? {
      var m := GenerateSchemasForRoute(routes[0], pluginName, validateSchema).value;
      GeneratedWellFormed(routes[0], pluginName, validateSchema);
      assert CacheWellFormed(cache + m);
      assert forall i :: 0 <= i < |routes[1..]| ==> WellFormed(routes[1..][i].settings) by {
        forall i | 0 <= i < |routes[1..]| ensures WellFormed(routes[1..][i].settings) {
          assert routes[1..][i] == routes[i + 1];
        }
      }
      InitializeKeepsWellFormed(cache + m, routes[1..], pluginName, validateSchema);
    }
  }
}
