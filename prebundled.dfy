/** `setNextjsPrebundledReact`: the request path is matched against the
    routes manifest, and for an App Router page the process environment is
    told to use the prebundled React. The environment is a string map, as
    Node's `process.env` is. */
module PrebundledReact {
  import opened Common
  import opened OpenNextTypes

  const Variable: string := "__NEXT_PRIVATE_PREBUNDLED_REACT"

  /** A route of the routes manifest. */
  datatype Route = Route(regex: string, page: string)

  datatype RoutesManifest = RoutesManifest(staticRoutes: seq<Route>, dynamicRoutes: seq<Route>)

  /** The first route, static ones before dynamic ones, whose pattern
      matches the path (`test(regex, path)` is `new RegExp(regex).test`). */
  function FindRoute(test: (string, string) -> bool, routes: seq<Route>, path: string): (r: Option<Route>)
    ensures r.Some? ==> r.value in routes && test(r.value.regex, path)
    ensures r.Some? ==> exists i :: 0 <= i < |routes| && routes[i] == r.value &&
                                    forall j :: 0 <= j < i ==> !test(routes[j].regex, path)
    ensures r.None? ==> forall j :: 0 <= j < |routes| ==> !test(routes[j].regex, path)
  {
    if routes == [] then None
    else if test(routes[0].regex, path) then Some(routes[0])
    else
      var rest := FindRoute(test, routes[1..], path);
      if rest.Some? then
        assert forall j :: 1 <= j < |routes| ==> routes[j] == routes[1..][j - 1];
        rest
      else rest
  }

  /** The route a raw path belongs to; a missing path is matched as `""`. */
  function RouteOf(test: (string, string) -> bool, manifest: RoutesManifest, rawPath: Option<string>): Option<Route> {
    FindRoute(test, manifest.staticRoutes + manifest.dynamicRoutes, rawPath.GetOr(""))
  }

  /** A static route that matches is preferred to every dynamic one. */
  lemma {:induction false} StaticRoutesFirst(test: (string, string) -> bool, manifest: RoutesManifest, path: string)
    requires FindRoute(test, manifest.staticRoutes, path).Some?
    ensures RouteOf(test, manifest, Some(path)) == FindRoute(test, manifest.staticRoutes, path)
  {
    FindAppended(test, manifest.staticRoutes, manifest.dynamicRoutes, path);
  }

  lemma {:induction false} FindAppended(test: (string, string) -> bool, routes: seq<Route>, more: seq<Route>, path: string)
    requires FindRoute(test, routes, path).Some?
    ensures FindRoute(test, routes + more, path) == FindRoute(test, routes, path)
  {
    if !test(routes[0].regex, path) {
      assert (routes + more)[1..] == routes[1..] + more;
      FindAppended(test, routes[1..], more, path);
    }
  }

  /** `isApp`: the matched page, or `""` without a match, is an App Router
      path. */
  predicate IsApp(test: (string, string) -> bool, manifest: RoutesManifest, appPaths: seq<string>, rawPath: Option<string>) {
    var route := RouteOf(test, manifest, rawPath);
    (if route.Some? then route.value.page else "") in appPaths
  }

  /** The value an App Router page sets. */
  function AppValue(serverActions: bool): (v: string)
    ensures serverActions ==> v == "experimental"
    ensures !serverActions ==> v == "next"
  {
    if serverActions then "experimental" else "next"
  }

  /** The environment after the call, as written: for a page that is not an
      App Router one it assigns `undefined`, which Node stores as the text
      `"undefined"`. */
  function EnvAsWritten(env: map<string, string>, isApp: bool, serverActions: bool): (r: map<string, string>)
    ensures Variable in r
    ensures isApp ==> r[Variable] == AppValue(serverActions)
    ensures !isApp ==> r[Variable] == "undefined"
    ensures forall k :: k != Variable ==> (k in r <==> k in env) && (k in env ==> r[k] == env[k])
  {
    env[Variable := if isApp then AppValue(serverActions) else "undefined"]
  }

  /** As written, a Pages Router request leaves the variable set to a
      non-empty value, so the prebundled React is still selected. */
  lemma PagesRouteLeavesVariableSet(env: map<string, string>, serverActions: bool)
    ensures Truthy(Lookup(EnvAsWritten(env, false, serverActions), Variable))
  {
  }

  /** The environment after the call as intended: the variable is removed
      for a page that is not an App Router one. */
  function Env(env: map<string, string>, isApp: bool, serverActions: bool): (r: map<string, string>)
    ensures isApp <==> Variable in r
    ensures isApp ==> r[Variable] == AppValue(serverActions)
    ensures forall k :: k != Variable ==> (k in r <==> k in env) && (k in env ==> r[k] == env[k])
  {
    if isApp then env[Variable := AppValue(serverActions)] else env - {Variable}
  }

  /** The variable is non-empty exactly for App Router pages. */
  lemma PrebundledExactlyForAppRoutes(env: map<string, string>, isApp: bool, serverActions: bool)
    ensures Truthy(Lookup(Env(env, isApp, serverActions), Variable)) <==> isApp
  {
  }

  /** The process environment. */
  class ProcessEnv {
    var vars: map<string, string>

    constructor (vars: map<string, string>)
      ensures this.vars == vars
    {
      this.vars := vars;
    }

    /** `setNextjsPrebundledReact(rawPath)`, with the variable removed
        rather than set to `"undefined"`. */
    method SetNextjsPrebundledReact(test: (string, string) -> bool, manifest: RoutesManifest, appPaths: seq<string>,
                                    serverActions: bool, rawPath: Option<string>)
      modifies this
      ensures vars == Env(old(vars), IsApp(test, manifest, appPaths, rawPath), serverActions)
    {
      var route := RouteOf(test, manifest, rawPath);
      var isApp := (if route.Some? then route.value.page else "") in appPaths;
      if isApp {
        vars := vars[Variable := AppValue(serverActions)];
        return;
      }
      vars := vars - {Variable};
    }
  }
}
