/**
  The five validation surfaces, the cache key of a route's schema for one
  surface, and the validation options a route declares for this plugin
  (lib/RouteSchemaManager.js, `validationTypes` to `forEachValidationOption`,
  and `getSchemasForRoute`).
 */
module SchemaKeys {
  import opened Json

  /** `validationTypes`. */
  datatype Surface = Path | Query | Payload | Headers | Response

  function SurfaceName(s: Surface): string
  {
    match s
    case Path => "path"
    case Query => "query"
    case Payload => "payload"
    case Headers => "headers"
    case Response => "response"
  }

  /** The enumeration order of `validationTypes`. */
  const AllSurfaces: seq<Surface> := [Path, Query, Payload, Headers, Response]

  /** The surface whose name is `name`, searching `ss` in order. */
  function FindSurface(ss: seq<Surface>, name: string): (r: Option<Surface>)
    ensures r.Some? ==> r.value in ss && SurfaceName(r.value) == name
    ensures r.None? ==> forall s :: s in ss ==> SurfaceName(s) != name
  {
    if |ss| == 0 then None
    else if SurfaceName(ss[0]) == name then Some(ss[0])
    else FindSurface(ss[1..], name)
  }

  /** `isValidValidationProperty`: `name` is one of the five surface names. */
  predicate IsValidValidationProperty(name: string)
  {
    FindSurface(AllSurfaces, name).Some?
  }

  lemma ValidValidationProperties(name: string)
    ensures IsValidValidationProperty(name)
        <==> name in {"path", "query", "payload", "headers", "response"}
    ensures IsValidValidationProperty(name) <==> exists s :: SurfaceName(s) == name
  {
    if !IsValidValidationProperty(name) {
      forall s ensures SurfaceName(s) != name {
        assert s == AllSurfaces[0] || s == AllSurfaces[1] || s == AllSurfaces[2]
            || s == AllSurfaces[3] || s == AllSurfaces[4];
      }
    }
  }

  /** `constructSchemaKey`. */
  function ConstructSchemaKey(validationType: string, routeMethod: string, routePath: string): string
  {
    validationType + ":" + routeMethod + "|" + routePath
  }

  /** First position of `c` in `s`, or `|s|`. */
  function IndexOfChar(s: string, c: char): (r: nat)
    ensures r <= |s|
    ensures r < |s| ==> s[r] == c
    ensures c !in s[..r]
  {
    if |s| == 0 then 0
    else if s[0] == c then 0
    else 1 + IndexOfChar(s[1..], c)
  }

  lemma {:induction false} IndexOfCharAfter(a: string, c: char, b: string)
    requires c !in a
    ensures IndexOfChar(a + [c] + b, c) == |a|
  {
    if |a| > 0 {
      assert (a + [c] + b)[1..] == a[1..] + [c] + b;
      IndexOfCharAfter(a[1..], c, b);
    }
  }

  /**
    Distinct (surface, method, path) triples get distinct keys, as long as the
    method holds no `|` (HTTP method names never do).
   */
  lemma SchemaKeyInjective(s1: Surface, m1: string, p1: string, s2: Surface, m2: string, p2: string)
    requires '|' !in m1 && '|' !in m2
    requires ConstructSchemaKey(SurfaceName(s1), m1, p1) == ConstructSchemaKey(SurfaceName(s2), m2, p2)
    ensures s1 == s2 && m1 == m2 && p1 == p2
  {
    var n1, n2 := SurfaceName(s1), SurfaceName(s2);
    var r1, r2 := m1 + "|" + p1, m2 + "|" + p2;
    SurfaceNameInjective(s1, s2);
    SurfaceNameInjective(s2, s1);
    SchemaKeySplit(n1, m1, p1);
    SchemaKeySplit(n2, m2, p2);
    IndexOfCharAfter(n1, ':', r1);
    IndexOfCharAfter(n2, ':', r2);
    JoinedParts(n1, ':', r1);
    JoinedParts(n2, ':', r2);
    assert r1 == r2;
    IndexOfCharAfter(m1, '|', p1);
    IndexOfCharAfter(m2, '|', p2);
    JoinedParts(m1, '|', p1);
    JoinedParts(m2, '|', p2);
  }

  /** The two sides of a separator are recovered by slicing around it. */
  lemma JoinedParts(a: string, c: char, b: string)
    ensures (a + [c] + b)[..|a|] == a
    ensures (a + [c] + b)[|a| + 1..] == b
  {
  }

  /** A key is the surface name, a colon, and the method and path joined by `|`. */
  lemma SchemaKeySplit(n: string, m: string, p: string)
    ensures ConstructSchemaKey(n, m, p) == n + [':'] + (m + "|" + p)
  {
  }

  lemma SurfaceNameInjective(s1: Surface, s2: Surface)
    ensures SurfaceName(s1) == SurfaceName(s2) ==> s1 == s2
    ensures ':' !in SurfaceName(s1)
  {
  }

  /** A route of the host's routing table, as the engine reads it. */
  datatype Route = Route(httpMethod: string, path: string, settings: JValue)

  /** `route.settings.plugins[pluginName]`, when both steps are truthy. */
  function PluginOptions(route: Route, pluginName: string): (r: Option<JValue>)
    ensures r.Some? ==> Truthy(r.value)
  {
    var plugins := Prop(route.settings, "plugins");
    if Truthy(plugins) && Truthy(Prop(plugins, pluginName)) then Some(Prop(plugins, pluginName))
    else None
  }

  /** The entries of an options object whose key names a surface, in key order. */
  function SurfaceEntries(fs: Fields): (r: seq<(Surface, JValue)>)
    ensures |r| <= |fs|
  {
    if |fs| == 0 then []
    else
      match FindSurface(AllSurfaces, fs[0].0)
      case Some(s) => [(s, fs[0].1)] + SurfaceEntries(fs[1..])
      case None => SurfaceEntries(fs[1..])
  }

  /**
    `forEachValidationOption`: the options the iterator is called with. An
    options value that is not an object has no key naming a surface.
   */
  function ValidationOptions(route: Route, pluginName: string): seq<(Surface, JValue)>
  {
    match PluginOptions(route, pluginName)
    case Some(JObj(fs)) => SurfaceEntries(fs)
    case _ => []
  }

  /** Exactly the keys naming a surface are visited, with their values. */
  lemma {:induction false} SurfaceEntriesMembers(fs: Fields, s: Surface, v: JValue)
    ensures (s, v) in SurfaceEntries(fs) <==> (SurfaceName(s), v) in fs
  {
    if |fs| > 0 {
      SurfaceEntriesMembers(fs[1..], s, v);
      assert fs == [fs[0]] + fs[1..];
      if fs[0].0 == SurfaceName(s) {
        assert SurfaceName(s) == SurfaceName(s) && s in AllSurfaces;
        assert FindSurface(AllSurfaces, fs[0].0) == Some(s);
      }
    }
  }

  /** A key that names no surface (such as `fake`) changes nothing, wherever it stands. */
  lemma {:induction false} UnknownOptionIgnored(fs: Fields, i: nat, k: string, v: JValue)
    requires i <= |fs|
    requires !IsValidValidationProperty(k)
    ensures SurfaceEntries(fs[..i] + [(k, v)] + fs[i..]) == SurfaceEntries(fs)
  {
    if i == 0 {
      assert fs[..0] + [(k, v)] + fs[0..] == [(k, v)] + fs;
      assert ([(k, v)] + fs)[1..] == fs;
    } else {
      UnknownOptionIgnored(fs[1..], i - 1, k, v);
      var g := fs[..i] + [(k, v)] + fs[i..];
      assert g[0] == fs[0];
      assert g[1..] == fs[1..][..i - 1] + [(k, v)] + fs[1..][i - 1..];
    }
  }

  /** The surfaces a route declares options for. */
  function DeclaredSurfaces(opts: seq<(Surface, JValue)>): set<Surface>
  {
    set i | 0 <= i < |opts| :: opts[i].0
  }

  /**
    `getSchemasForRoute`: null when the route declares no surface, otherwise
    the cached entry (possibly undefined) for every surface it declares.
   */
  function GetSchemasForRoute(cache: map<string, JValue>, route: Route, pluginName: string): (r: Option<map<Surface, JValue>>)
    ensures r.Some? <==> |ValidationOptions(route, pluginName)| > 0
    ensures r.Some? ==> r.value.Keys == DeclaredSurfaces(ValidationOptions(route, pluginName))
  {
    var opts := ValidationOptions(route, pluginName);
    if |opts| == 0 then None
    else Some(map s | s in DeclaredSurfaces(opts) ::
      var key := ConstructSchemaKey(SurfaceName(s), route.httpMethod, route.path);
      if key in cache then cache[key] else JUndefined)
  }

  /** `!schemas || !schemas[surface]` fails: the schema a validator uses. */
  function SchemaFor(cache: map<string, JValue>, route: Route, pluginName: string, surface: Surface): (r: Option<JValue>)
    ensures r.Some? <==>
      && surface in DeclaredSurfaces(ValidationOptions(route, pluginName))
      && ConstructSchemaKey(SurfaceName(surface), route.httpMethod, route.path) in cache
      && Truthy(cache[ConstructSchemaKey(SurfaceName(surface), route.httpMethod, route.path)])
    ensures r.Some? ==> r.value == cache[ConstructSchemaKey(SurfaceName(surface), route.httpMethod, route.path)]
  {
    match GetSchemasForRoute(cache, route, pluginName)
    case None => None
    case Some(schemas) =>
      if surface in schemas && Truthy(schemas[surface]) then Some(schemas[surface]) else None
  }
}
