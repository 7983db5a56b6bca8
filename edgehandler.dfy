/** The edge function handler: the request's path selects the first edge
    route with a matching pattern, and that route's middleware entry answers
    the request. Pattern tests, URL parsing and the entries are parameters. */
module EdgeFunctionHandler {
  import opened Common

  /** `EdgeRoute`: a name, a page and its path patterns. */
  datatype EdgeRoute = EdgeRoute(name: string, page: string, regex: seq<string>)

  /** The request, without its `page`. */
  datatype EdgeRequest = EdgeRequest(headers: map<string, string>, httpMethod: string, url: string, body: Option<string>)

  /** What an entry receives as `request`: the request plus `page.name`. */
  datatype PageRequest = PageRequest(request: EdgeRequest, pageName: string)

  /** What an entry resolves to; the `waitUntil` promise is awaited and
      dropped. */
  datatype EntryResult<R> = EntryResult(response: R, waitUntil: ())

  /** `test(r, p)` is `new RegExp(r).test(p)`; `pathname(u)` is
      `new URL(u).pathname`. */
  datatype Lib = Lib(test: (string, string) -> bool, pathname: string -> string)

  /** `route.regex.some(...)` */
  predicate Matches(lib: Lib, route: EdgeRoute, path: string) {
    exists i :: 0 <= i < |route.regex| && lib.test(route.regex[i], path)
  }

  /** `routes.find(...)`: the index of the first route that matches. */
  function FindRoute(lib: Lib, routes: seq<EdgeRoute>, path: string): (r: Option<nat>)
    ensures r.Some? ==> r.value < |routes| && Matches(lib, routes[r.value], path)
    ensures r.Some? ==> forall j :: 0 <= j < r.value ==> !Matches(lib, routes[j], path)
    ensures r.None? ==> forall j :: 0 <= j < |routes| ==> !Matches(lib, routes[j], path)
  {
    if routes == [] then None
    else if Matches(lib, routes[0], path) then Some(0)
    else
      var rest := FindRoute(lib, routes[1..], path);
      if rest.Some? then Some(rest.value + 1) else None
  }

  /** The key a route's entry is registered under. */
  function EntryKey(route: EdgeRoute): (k: string)
    ensures StartsWith(k, "middleware_") && k[|"middleware_"|..] == route.name
  {
    "middleware_" + route.name
  }

  /** `edgeFunctionHandler`: with no matching route it throws
      `No route found for <url>`; with no entry under the route's key,
      reading `default` throws; otherwise the entry is called with the
      route's page and the request named after the route, and its response
      is returned unchanged. */
  function Handle<R>(lib: Lib, routes: seq<EdgeRoute>, entries: map<string, (string, PageRequest) -> EntryResult<R>>,
                     request: EdgeRequest): (r: Result<R, string>)
    ensures FindRoute(lib, routes, lib.pathname(request.url)).None? ==> r == Err("No route found for " + request.url)
    ensures var found := FindRoute(lib, routes, lib.pathname(request.url));
            found.Some? && EntryKey(routes[found.value]) !in entries ==> r.Err?
    ensures var found := FindRoute(lib, routes, lib.pathname(request.url));
            found.Some? && EntryKey(routes[found.value]) in entries ==>
              var route := routes[found.value];
              r == Ok(entries[EntryKey(route)](route.page, PageRequest(request, route.name)).response)
    ensures r.Ok? ==> exists i :: 0 <= i < |routes| && Matches(lib, routes[i], lib.pathname(request.url))
  {
    var found := FindRoute(lib, routes, lib.pathname(request.url));
    if found.None? then Err("No route found for " + request.url)
    else
      var route := routes[found.value];
      var key := EntryKey(route);
      if key !in entries then Err("TypeError: Cannot read properties of undefined (reading 'default')")
      else Ok(entries[key](route.page, PageRequest(request, route.name)).response)
  }

  /** Routes listed after the first matching one never answer: appending
      routes leaves the choice unchanged once one matches. */
  lemma {:induction false} EarlierRouteWins(lib: Lib, routes: seq<EdgeRoute>, more: seq<EdgeRoute>, path: string)
    requires FindRoute(lib, routes, path).Some?
    ensures FindRoute(lib, routes + more, path) == FindRoute(lib, routes, path)
  {
    assert routes != [];
    if !Matches(lib, routes[0], path) {
      assert (routes + more)[1..] == routes[1..] + more;
      EarlierRouteWins(lib, routes[1..], more, path);
    }
  }
}
