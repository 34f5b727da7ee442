/**
  Route grouping in lib/SwaggerManager.js: the documented routes are
  grouped by the last path segment that is not a parameter; each group is
  one Swagger 1.2 API, listed in the resource listing. Also the operation
  nicknames derived from a route's path.
 */
module SwaggerRoutes {
  import opened Json
  import opened JsString
  import opened SchemaKeys

  // ----- `_.groupBy` -----

  /** The group keys, in order of first appearance. */
  function GroupKeys<T>(gs: seq<(string, seq<T>)>): (ks: seq<string>)
    ensures |ks| == |gs| && forall i :: 0 <= i < |gs| ==> ks[i] == gs[i].0
  {
    if |gs| == 0 then [] else [gs[0].0] + GroupKeys(gs[1..])
  }

  /** `groups[k]`, or no elements when `k` is not a group. */
  function GroupOf<T>(gs: seq<(string, seq<T>)>, k: string): seq<T>
  {
    if |gs| == 0 then [] else if gs[0].0 == k then gs[0].1 else GroupOf(gs[1..], k)
  }

  /** Adds `x` to the group `k`, opening that group at the end if it is new. */
  function AddToGroup<T>(gs: seq<(string, seq<T>)>, k: string, x: T): (r: seq<(string, seq<T>)>)
    ensures k in GroupKeys(gs) ==> GroupKeys(r) == GroupKeys(gs)
    ensures k !in GroupKeys(gs) ==> GroupKeys(r) == GroupKeys(gs) + [k]
    ensures forall k' :: GroupOf(r, k') == GroupOf(gs, k') + (if k' == k then [x] else [])
  {
    if |gs| == 0 then [(k, [x])]
    else if gs[0].0 == k then [(k, gs[0].1 + [x])] + gs[1..]
    else
      var rest := AddToGroup(gs[1..], k, x);
      assert GroupKeys([gs[0]] + rest) == [gs[0].0] + GroupKeys(rest);
      [gs[0]] + rest
  }

  /** `_.groupBy(xs, key)`: each element joins the group of its key, in order. */
  function GroupBy<T>(xs: seq<T>, key: T -> string): seq<(string, seq<T>)>
    decreases |xs|
  {
    if |xs| == 0 then [] else AddToGroup(GroupBy(xs[..|xs| - 1], key), key(xs[|xs| - 1]), xs[|xs| - 1])
  }

  /** The elements with key `k`, in their order: the reference definition of a group. */
  function Select<T>(xs: seq<T>, key: T -> string, k: string): (r: seq<T>)
    ensures forall i :: 0 <= i < |r| ==> r[i] in xs && key(r[i]) == k
    decreases |xs|
  {
    if |xs| == 0 then []
    else Select(xs[..|xs| - 1], key, k) + (if key(xs[|xs| - 1]) == k then [xs[|xs| - 1]] else [])
  }

  predicate DistinctStrings(ks: seq<string>)
  {
    forall i, j :: 0 <= i < j < |ks| ==> ks[i] != ks[j]
  }

  /**
    Grouping is exact: the keys are distinct, a key is present exactly when
    some element has it, and each group holds exactly the elements with its
    key, in their original order.
   */
  lemma {:induction false} GroupByIsSelect<T>(xs: seq<T>, key: T -> string)
    ensures DistinctStrings(GroupKeys(GroupBy(xs, key)))
    ensures forall k :: GroupOf(GroupBy(xs, key), k) == Select(xs, key, k)
    ensures forall k :: k in GroupKeys(GroupBy(xs, key)) <==> |Select(xs, key, k)| > 0
    decreases |xs|
  {
    if |xs| > 0 {
      var init := xs[..|xs| - 1];
      GroupByIsSelect(init, key);
      var gs := GroupBy(init, key);
      var x := xs[|xs| - 1];
      assert GroupBy(xs, key) == AddToGroup(gs, key(x), x);
      forall k ensures k in GroupKeys(GroupBy(xs, key)) <==> |Select(xs, key, k)| > 0 {
        assert Select(xs, key, k) == Select(init, key, k) + (if key(x) == k then [x] else []);
      }
    }
  }

  // ----- `getRoutesGroupedByName` -----

  /** `route.settings.plugins[pluginName]`. */
  function PluginConfig(route: Route, pluginName: string): JValue
  {
    Prop(Prop(route.settings, "plugins"), pluginName)
  }

  /** The filter of `getRoutesGroupedByName`: the route configures this plugin and does not opt out of Swagger. */
  predicate Documented(route: Route, pluginName: string)
  {
    var config := PluginConfig(route, pluginName);
    && Truthy(Prop(route.settings, "plugins")) && Truthy(config)
    && (Prop(config, "swagger") == JUndefined || Prop(config, "swagger") == JBool(true))
  }

  function DocumentedRoutes(routes: seq<Route>, pluginName: string): (r: seq<Route>)
    ensures forall i :: 0 <= i < |r| ==> r[i] in routes && Documented(r[i], pluginName)
    ensures forall route :: route in routes && Documented(route, pluginName) ==> route in r
  {
    if |routes| == 0 then []
    else (if Documented(routes[0], pluginName) then [routes[0]] else []) + DocumentedRoutes(routes[1..], pluginName)
  }

  /** `part.indexOf('{') === 0`. */
  predicate StartsWithBrace(part: string)
  {
    |part| > 0 && part[0] == '{'
  }

  /** `.filter(part => part.indexOf('{') !== 0)`. */
  function PlainSegments(parts: seq<string>): (r: seq<string>)
    ensures forall i :: 0 <= i < |r| ==> r[i] in parts && !StartsWithBrace(r[i])
    decreases |parts|
  {
    if |parts| == 0 then []
    else PlainSegments(parts[..|parts| - 1]) + (if StartsWithBrace(parts[|parts| - 1]) then [] else [parts[|parts| - 1]])
  }

  /** The group key: the last path segment not opening with `{`; `pop()` of nothing is `undefined`. */
  function GroupName(path: string): string
  {
    var plain := PlainSegments(Split(path, '/'));
    if |plain| == 0 then "undefined" else plain[|plain| - 1]
  }

  function RouteGroupName(route: Route): string
  {
    GroupName(route.path)
  }

  /**
    The group name is a segment of the path that is not a parameter, and
    every segment after it is one.
   */
  lemma {:induction false} GroupNameIsLastPlainSegment(parts: seq<string>) returns (i: nat)
    requires |PlainSegments(parts)| > 0
    ensures var plain := PlainSegments(parts);
      && i < |parts| && parts[i] == plain[|plain| - 1] && !StartsWithBrace(parts[i])
      && forall j :: i < j < |parts| ==> StartsWithBrace(parts[j])
    decreases |parts|
  {
    var n := |parts|;
    var plain := PlainSegments(parts);
    var init := parts[..n - 1];
    if StartsWithBrace(parts[n - 1]) {
      assert plain == PlainSegments(init);
      i := GroupNameIsLastPlainSegment(init);
      assert parts[i] == init[i];
      forall j | i < j < n ensures StartsWithBrace(parts[j]) {
        if j < n - 1 {
          assert parts[j] == init[j];
        }
      }
    } else {
      i := n - 1;
      assert plain == PlainSegments(init) + [parts[n - 1]];
    }
  }

  /** `getRoutesGroupedByName(routes)`. */
  function RoutesGroupedByName(routes: seq<Route>, pluginName: string): seq<(string, seq<Route>)>
  {
    GroupBy(DocumentedRoutes(routes, pluginName), RouteGroupName)
  }

  /** `isValidApi(routes, apiName)`: `routesByGroupNames.hasOwnProperty(apiName)`. */
  predicate IsValidApi(routes: seq<Route>, pluginName: string, apiName: string)
  {
    apiName in GroupKeys(RoutesGroupedByName(routes, pluginName))
  }

  /** An API name is valid exactly when some documented route has it as its group name. */
  lemma IsValidApiIff(routes: seq<Route>, pluginName: string, apiName: string)
    ensures IsValidApi(routes, pluginName, apiName) <==>
      exists route :: route in routes && Documented(route, pluginName) && GroupName(route.path) == apiName
  {
    var docs := DocumentedRoutes(routes, pluginName);
    GroupByIsSelect(docs, RouteGroupName);
    if IsValidApi(routes, pluginName, apiName) {
      var sel := Select(docs, RouteGroupName, apiName);
      assert sel[0] in docs;
    }
    if exists route :: route in routes && Documented(route, pluginName) && GroupName(route.path) == apiName {
      var route :| route in routes && Documented(route, pluginName) && GroupName(route.path) == apiName;
      SelectHas(docs, RouteGroupName, route);
    }
  }

  /** An element is in the selection of its own key. */
  lemma {:induction false} SelectHas<T>(xs: seq<T>, key: T -> string, x: T)
    requires x in xs
    ensures x in Select(xs, key, key(x))
    decreases |xs|
  {
    var n := |xs|;
    if xs[n - 1] != x {
      assert x in xs[..n - 1];
      SelectHas(xs[..n - 1], key, x);
    }
  }

  // ----- `getResourceListingModel` -----

  /** The resource listing: `{apiVersion, swaggerVersion: '1.2', apis: [{path: '/' + name}, ...]}`. */
  datatype ResourceListing = ResourceListing(apiVersion: string, swaggerVersion: string, apis: seq<string>)

  const SwaggerVersion := "1.2"

  /**
    `getResourceListingModel(routes)`: one `/name` path per group, in group
    order; `apiVersion` is the resolved `options.apiVersion`.
   */
  method GetResourceListingModel(routes: seq<Route>, pluginName: string, apiVersion: string) returns (r: ResourceListing)
    ensures r.apiVersion == apiVersion && r.swaggerVersion == SwaggerVersion
    ensures |r.apis| == |RoutesGroupedByName(routes, pluginName)|
    ensures forall i :: 0 <= i < |r.apis| ==> r.apis[i] == "/" + RoutesGroupedByName(routes, pluginName)[i].0
  {
    var apis := GroupPaths(RoutesGroupedByName(routes, pluginName));
    return ResourceListing(apiVersion, SwaggerVersion, apis);
  }

  /** The `forEach` over the group names of `getResourceListingModel`: `{path: '/' + name}` for each. */
  method GroupPaths(groups: seq<(string, seq<Route>)>) returns (apis: seq<string>)
    ensures |apis| == |groups|
    ensures forall i :: 0 <= i < |groups| ==> apis[i] == "/" + groups[i].0
  {
    var names := GroupKeys(groups);
    apis := [];
    for i := 0 to |names|
      invariant |apis| == i
      invariant forall j :: 0 <= j < i ==> apis[j] == "/" + names[j]
    {
      apis := apis + ["/" + names[i]];
    }
  }

  /** The listing names each valid API exactly once, and nothing else. */
  lemma ListingIsValidApis(routes: seq<Route>, pluginName: string, listing: ResourceListing, apiName: string)
    requires |listing.apis| == |RoutesGroupedByName(routes, pluginName)|
    requires forall i :: 0 <= i < |listing.apis| ==> listing.apis[i] == "/" + RoutesGroupedByName(routes, pluginName)[i].0
    ensures ("/" + apiName in listing.apis) <==> IsValidApi(routes, pluginName, apiName)
    ensures forall i, j :: 0 <= i < j < |listing.apis| ==> listing.apis[i] != listing.apis[j]
  {
    var gs := RoutesGroupedByName(routes, pluginName);
    GroupByIsSelect(DocumentedRoutes(routes, pluginName), RouteGroupName);
    forall i, j | 0 <= i < j < |listing.apis| ensures listing.apis[i] != listing.apis[j] {
      assert GroupKeys(gs)[i] != GroupKeys(gs)[j];
      assert listing.apis[i][1..] == gs[i].0 && listing.apis[j][1..] == gs[j].0;
    }
    if "/" + apiName in listing.apis {
      var i :| 0 <= i < |listing.apis| && listing.apis[i] == "/" + apiName;
      assert ("/" + apiName)[1..] == apiName && listing.apis[i][1..] == gs[i].0;
      assert GroupKeys(gs)[i] == apiName;
    }
    if IsValidApi(routes, pluginName, apiName) {
      var i :| 0 <= i < |gs| && GroupKeys(gs)[i] == apiName;
      assert listing.apis[i] == "/" + apiName;
    }
  }

  // ----- operation nicknames -----

  /** The regular expression `/^\{.+\}$/`: braces around at least one character other than a line terminator. */
  predicate IsResourceId(segment: string)
  {
    && |segment| >= 3 && segment[0] == '{' && segment[|segment| - 1] == '}'
    && forall i :: 1 <= i < |segment| - 1 ==> segment[i] !in {'\n', '\r', '\U{2028}', '\U{2029}'}
  }

  /**
    The nickname of `getSwaggerOperationForRoute`: the last segment, or
    `<previous>_by_<id>` when the last segment is a parameter.
   */
  function Nickname(path: string): string
  {
    NicknameOfSegments(Split(path, '/'))
  }

  /** The nickname, from the segments of the path. */
  function NicknameOfSegments(parts: seq<string>): string
    requires |parts| >= 1
  {
    var last := parts[|parts| - 1];
    if !IsResourceId(last) then last
    else (if |parts| >= 2 then parts[|parts| - 2] else "undefined") + "_by_" + StripBraces(last)
  }

  /** `route.method + '_' + nickname`. */
  function OperationNickname(httpMethod: string, path: string): string
  {
    httpMethod + "_" + Nickname(path)
  }

  /** Removing braces keeps every other character out that was out. */
  lemma {:induction false} StripBracesKeepsOut(s: string, c: char)
    requires c !in s
    ensures c !in StripBraces(s)
  {
    if |s| > 0 {
      assert c !in s[1..];
      StripBracesKeepsOut(s[1..], c);
    }
  }

  /**
    A nickname never contains `/`; when the path ends in a parameter its id
    part carries no braces.
   */
  lemma NicknameShape(path: string) returns (prefix: string)
    ensures '/' !in Nickname(path)
    ensures var parts := Split(path, '/');
      IsResourceId(parts[|parts| - 1]) ==>
        && Nickname(path) == prefix + "_by_" + StripBraces(parts[|parts| - 1])
        && '/' !in prefix && '{' !in StripBraces(parts[|parts| - 1])
  {
    prefix := SegmentsNicknameShape(Split(path, '/'));
  }

  /** `NicknameShape`, for any segments free of `/`. */
  lemma SegmentsNicknameShape(parts: seq<string>) returns (prefix: string)
    requires |parts| >= 1 && forall i :: 0 <= i < |parts| ==> '/' !in parts[i]
    ensures '/' !in NicknameOfSegments(parts)
    ensures IsResourceId(parts[|parts| - 1]) ==>
      && NicknameOfSegments(parts) == prefix + "_by_" + StripBraces(parts[|parts| - 1])
      && '/' !in prefix && '{' !in StripBraces(parts[|parts| - 1])
  {
    var last := parts[|parts| - 1];
    prefix := if |parts| >= 2 then parts[|parts| - 2] else "undefined";
    assert '/' !in prefix && '/' !in last;
    if IsResourceId(last) {
      StripBracesKeepsOut(last, '/');
      assert '/' !in "_by_";
    }
  }

  /** Splitting at the first separator: the text before it is the first part. */
  lemma {:induction false} SplitAtFirst(a: string, sep: char, b: string)
    requires sep !in a
    ensures Split(a + [sep] + b, sep) == [a] + Split(b, sep)
    ensures Split(a, sep) == [a]
  {
    if |a| > 0 {
      assert (a + [sep] + b)[1..] == a[1..] + [sep] + b;
      SplitAtFirst(a[1..], sep, b);
      assert [a[0]] + a[1..] == a;
    } else {
      assert a + [sep] + b == [sep] + b;
      assert ([sep] + b)[1..] == b;
    }
  }

  /** A separator-free last part is split off as the last segment. */
  lemma {:induction false} SplitAtLast(a: string, sep: char, b: string)
    requires sep !in b
    ensures Split(a + [sep] + b, sep) == Split(a, sep) + [b]
  {
    if |a| == 0 {
      assert a + [sep] + b == [] + [sep] + b;
      SplitAtFirst([], sep, b);
      SplitAtFirst(b, sep, []);
    } else {
      assert (a + [sep] + b)[1..] == a[1..] + [sep] + b;
      SplitAtLast(a[1..], sep, b);
    }
  }

  /** A path ending in a plain segment is nicknamed after that segment. */
  lemma NicknameOfPlainPath(prefix: string, name: string)
    requires '/' !in name && !IsResourceId(name)
    ensures Nickname(prefix + "/" + name) == name
  {
    SplitAtLast(prefix, '/', name);
    assert prefix + "/" + name == prefix + ['/'] + name;
  }

  /** A path ending in `<name>/{<id>}` is nicknamed `<name>_by_<id>`, whatever comes before. */
  lemma NicknameOfResourcePath(prefix: string, name: string, id: string)
    requires '/' !in name && '/' !in id && IsResourceId(id)
    ensures Nickname(prefix + "/" + name + "/" + id) == name + "_by_" + StripBraces(id)
  {
    SplitAtLast(prefix, '/', name);
    SplitAtLast(prefix + "/" + name, '/', id);
    assert prefix + "/" + name == prefix + ['/'] + name;
    assert prefix + "/" + name + "/" + id == (prefix + "/" + name) + ['/'] + id;
  }

  /** A route `<prefix>/<name>/{<id>}` with a plain `name` is grouped under `name`. */
  lemma GroupNameOfResourcePath(prefix: string, name: string, id: string)
    requires '/' !in name && '/' !in id && !StartsWithBrace(name) && StartsWithBrace(id)
    ensures GroupName(prefix + "/" + name + "/" + id) == name
  {
    SplitAtLast(prefix, '/', name);
    SplitAtLast(prefix + "/" + name, '/', id);
    assert prefix + "/" + name == prefix + ['/'] + name;
    assert prefix + "/" + name + "/" + id == (prefix + "/" + name) + ['/'] + id;
    var parts := Split(prefix, '/') + [name] + [id];
    assert parts[..|parts| - 1] == Split(prefix, '/') + [name];
    assert (Split(prefix, '/') + [name])[..|parts| - 2] == Split(prefix, '/');
    assert PlainSegments(parts) == PlainSegments(Split(prefix, '/') + [name]);
    assert PlainSegments(Split(prefix, '/') + [name]) == PlainSegments(Split(prefix, '/')) + [name];
  }
}
