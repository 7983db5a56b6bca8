/** The edge adapter's handler: an internal event becomes a request to the
    bundled middleware, and the middleware's response becomes an internal
    result. URL building, the query string, the body stream and the
    middleware itself are parameters. */
module EdgeAdapter {
  import opened Common
  import opened OpenNextTypes

  datatype I18n = I18n(locales: seq<string>, defaultLocale: string)

  /** The Next.js configuration the bundle carries; `rest` stands for every
      other setting. */
  datatype NextConfig = NextConfig(
    basePath: Option<string>, i18n: Option<I18n>, trailingSlash: Option<bool>, rest: map<string, string>)

  /** The part of the configuration the middleware is given. */
  datatype ForwardedConfig = ForwardedConfig(basePath: Option<string>, i18n: Option<I18n>, trailingSlash: Option<bool>)

  datatype MiddlewareRequest = MiddlewareRequest(
    headers: map<string, string>, httpMethod: string, nextConfig: ForwardedConfig, url: string, body: Option<string>)

  /** The middleware's `Response`: its status, the `(key, value)` pairs its
      `headers.forEach` visits, in order, and its body stream if any. */
  datatype MiddlewareResponse = MiddlewareResponse(status: int, headers: seq<(string, string)>, body: Option<string>)

  /** `url(path, base, search)` is `new URL(path, base)` with its search
      replaced, as text; `queryString` is `convertToQueryString`; `bodyStream`
      is `convertBodyToReadableStream`. */
  datatype Lib = Lib(
    url: (string, string, string) -> string,
    queryString: Query -> string,
    bodyStream: (string, Option<Buffer>) -> Option<string>,
    middleware: MiddlewareRequest -> MiddlewareResponse)

  /** The base the path is resolved against. */
  function Base(headers: map<string, string>): (base: string)
    ensures Truthy(Lookup(headers, "host")) ==> base == "https://" + headers["host"]
    ensures !Truthy(Lookup(headers, "host")) ==> base == "http://localhost:3000"
  {
    var host := Lookup(headers, "host");
    if Truthy(host) then "https://" + host.value else "http://localhost:3000"
  }

  /** The method the middleware sees: `GET` when the event has none. */
  function MiddlewareMethod(httpMethod: string): (m: string)
    ensures httpMethod != "" ==> m == httpMethod
    ensures httpMethod == "" ==> m == "GET"
  {
    if httpMethod != "" then httpMethod else "GET"
  }

  /** Only `basePath`, `i18n` and `trailingSlash` are forwarded. */
  function Forwarded(config: NextConfig): (f: ForwardedConfig)
    ensures f.basePath == config.basePath && f.i18n == config.i18n && f.trailingSlash == config.trailingSlash
  {
    ForwardedConfig(config.basePath, config.i18n, config.trailingSlash)
  }

  /** The request handed to the middleware. */
  function RequestFor(lib: Lib, ev: InternalEvent, config: NextConfig): (req: MiddlewareRequest)
    ensures req.headers == ev.headers && req.httpMethod == MiddlewareMethod(ev.httpMethod)
    ensures req.nextConfig == Forwarded(config)
    ensures req.url == lib.url(ev.rawPath, Base(ev.headers), lib.queryString(ev.query))
    ensures req.body == lib.bodyStream(ev.httpMethod, ev.body)
  {
    MiddlewareRequest(ev.headers, MiddlewareMethod(ev.httpMethod), Forwarded(config),
                      lib.url(ev.rawPath, Base(ev.headers), lib.queryString(ev.query)),
                      lib.bodyStream(ev.httpMethod, ev.body))
  }

  /** One `forEach` step: a `set-cookie` value is appended to its list, any
      other value replaces the previous one. */
  function AddHeader(acc: map<string, HeaderValue>, key: string, value: string): map<string, HeaderValue> {
    if Lower(key) == "set-cookie" then
      acc[key := HMany((if key in acc && acc[key].HMany? then acc[key].items else []) + [value])]
    else acc[key := HOne(value)]
  }

  /** The response headers after visiting `entries` in order. */
  function ResponseHeaders(entries: seq<(string, string)>): map<string, HeaderValue> {
    if entries == [] then map[]
    else
      var last := entries[|entries| - 1];
      AddHeader(ResponseHeaders(entries[..|entries| - 1]), last.0, last.1)
  }

  /** The values visited under `key`, in order. */
  function ValuesOf(entries: seq<(string, string)>, key: string): (vs: seq<string>)
    ensures |vs| <= |entries|
  {
    if entries == [] then []
    else
      var last := entries[|entries| - 1];
      ValuesOf(entries[..|entries| - 1], key) + (if last.0 == key then [last.1] else [])
  }

  /** A `set-cookie` name holds the list of every value visited under it, in
      order, and is present exactly when there is one. */
  lemma {:induction false} SetCookieValuesAreCollected(entries: seq<(string, string)>, key: string)
    requires Lower(key) == "set-cookie"
    ensures key in ResponseHeaders(entries) <==> ValuesOf(entries, key) != []
    ensures key in ResponseHeaders(entries) ==> ResponseHeaders(entries)[key] == HMany(ValuesOf(entries, key))
  {
    if entries != [] {
      SetCookieValuesAreCollected(entries[..|entries| - 1], key);
    }
  }

  /** Any other name is present exactly when it was visited, and holds the
      last value visited under it. */
  lemma {:induction false} OtherHeadersLastWins(entries: seq<(string, string)>, key: string)
    requires Lower(key) != "set-cookie"
    ensures key in ResponseHeaders(entries) <==> ValuesOf(entries, key) != []
    ensures key in ResponseHeaders(entries) ==>
              var vs := ValuesOf(entries, key); ResponseHeaders(entries)[key] == HOne(vs[|vs| - 1])
  {
    if entries != [] {
      OtherHeadersLastWins(entries[..|entries| - 1], key);
    }
  }

  /** `response.headers.forEach(...)` filling `responseHeaders`. */
  method CollectHeaders(entries: seq<(string, string)>) returns (headers: map<string, HeaderValue>)
    ensures headers == ResponseHeaders(entries)
  {
    headers := map[];
    var i := 0;
    while i < |entries|
      invariant 0 <= i <= |entries|
      invariant headers == ResponseHeaders(entries[..i])
    {
      assert entries[..i + 1][..i] == entries[..i];
      var key := entries[i].0;
      var value := entries[i].1;
      if Lower(key) == "set-cookie" {
        headers := headers[key := HMany((if key in headers && headers[key].HMany? then headers[key].items else []) + [value])];
      } else {
        headers := headers[key := HOne(value)];
      }
      i := i + 1;
    }
    assert entries[..i] == entries;
  }

  /** `defaultHandler`: the middleware is called once, and its response
      becomes a `core` result that is never base64-encoded, with an empty
      stream when the response has no body. */
  method DefaultHandler(lib: Lib, ev: InternalEvent, config: NextConfig) returns (r: InternalResult)
    ensures var resp := lib.middleware(RequestFor(lib, ev, config));
            r.kind == "core" && r.statusCode == resp.status && !r.isBase64Encoded &&
            r.headers == ResponseHeaders(resp.headers) &&
            r.body == (if resp.body.Some? then StreamBody(resp.body.value) else EmptyStream)
  {
    var response := lib.middleware(RequestFor(lib, ev, config));
    var headers := CollectHeaders(response.headers);
    var body := if response.body.Some? then StreamBody(response.body.value) else EmptyStream;
    r := InternalResult("core", response.status, headers, body, false);
  }
}
