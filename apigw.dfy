/** The API Gateway (HTTP API, payload 2.0) converter: a gateway event
    becomes an `InternalEvent`, and an `InternalResult` becomes a gateway
    result. Query parsing and `parseCookies` are parameters. */
module ApiGatewayV2 {
  import opened Common
  import opened OpenNextTypes

  /** The event's `body` as it may arrive. An object body carries the text
      `JSON.stringify` gave for it. */
  datatype RawBody = BufferBody(bytes: seq<bv8>) | StringBody(text: string) | ObjectBody(json: string) | NoBody

  /** The parts of an `APIGatewayProxyEventV2` the converter reads. Raw
      headers are listed in `Object.entries` order; `None` is `undefined`. */
  datatype GatewayEvent = GatewayEvent(
    rawPath: string,
    rawQueryString: string,
    httpMethod: string,
    sourceIp: string,
    body: RawBody,
    isBase64Encoded: bool,
    headers: Option<seq<(string, string)>>,
    cookies: Option<seq<string>>)

  datatype GatewayResult = GatewayResult(
    statusCode: int,
    headers: map<string, string>,
    cookies: seq<string>,
    body: ResultBody,
    isBase64Encoded: bool)

  /** `convertToQuery` followed by `removeUndefinedFromQuery`, and
      `parseCookies`. */
  datatype Lib = Lib(toQuery: string -> Query, parseCookies: Option<HeaderValue> -> seq<string>)

  /** `normalizeAPIGatewayProxyEventV2Body` */
  function NormalizeBody(body: RawBody, isBase64Encoded: bool): (b: Buffer)
    ensures body.BufferBody? ==> b == RawBytes(body.bytes)
    ensures body.StringBody? ==> b == Decoded(body.text, if isBase64Encoded then Base64 else Utf8)
    ensures body.ObjectBody? ==> b == Decoded(body.json, Utf8)
    ensures body.NoBody? ==> b == Decoded("", Utf8)
  {
    match body
    case BufferBody(bytes) => RawBytes(bytes)
    case StringBody(text) => Decoded(text, if isBase64Encoded then Base64 else Utf8)
    case ObjectBody(json) => Decoded(json, Utf8)
    case NoBody => Decoded("", Utf8)
  }

  /** The header map before the raw headers are copied: `cookie` holds the
      cookies joined by `; ` when a cookie list was sent. */
  function CookieSeed(cookies: Option<seq<string>>): map<string, string> {
    if cookies.Some? then map["cookie" := Join(cookies.value, "; ")] else map[]
  }

  /** The raw headers with their names lower-cased, in order. */
  function LowerNames(entries: seq<(string, string)>): (r: seq<(string, string)>)
    ensures |r| == |entries|
    ensures forall i :: 0 <= i < |entries| ==> r[i] == (Lower(entries[i].0), entries[i].1)
  {
    seq(|entries|, i requires 0 <= i < |entries| => (Lower(entries[i].0), entries[i].1))
  }

  /** The normalised header map. */
  function Headers(ev: GatewayEvent): map<string, string> {
    WriteAll(CookieSeed(ev.cookies), LowerNames(ev.headers.GetOr([])))
  }

  /** `normalizeAPIGatewayProxyEventV2Headers` */
  method NormalizeHeaders(ev: GatewayEvent) returns (headers: map<string, string>)
    ensures headers == Headers(ev)
  {
    headers := map[];
    if ev.cookies.Some? {
      headers := headers["cookie" := Join(ev.cookies.value, "; ")];
    }
    var entries := ev.headers.GetOr([]);
    var i := 0;
    while i < |entries|
      invariant 0 <= i <= |entries|
      invariant headers == WriteAll(CookieSeed(ev.cookies), LowerNames(entries)[..i])
    {
      assert LowerNames(entries)[..i + 1][..i] == LowerNames(entries)[..i];
      headers := headers[Lower(entries[i].0) := entries[i].1];
      i := i + 1;
    }
    assert LowerNames(entries)[..i] == LowerNames(entries);
  }

  /** A header is present under a lower-case name exactly when some raw
      header's name lower-cases to it, or it is `cookie` and cookies were
      sent. */
  lemma HeaderPresence(ev: GatewayEvent, name: string)
    ensures var entries := ev.headers.GetOr([]);
            name in Headers(ev) <==>
              (name == "cookie" && ev.cookies.Some?) || exists i :: 0 <= i < |entries| && Lower(entries[i].0) == name
  {
    var entries := ev.headers.GetOr([]);
    var lowered := LowerNames(entries);
    WriteAllLastWins(CookieSeed(ev.cookies), lowered, name);
    if exists i :: 0 <= i < |lowered| && lowered[i].0 == name {
      var i :| 0 <= i < |lowered| && lowered[i].0 == name;
      assert Lower(entries[i].0) == name;
    }
    if exists i :: 0 <= i < |entries| && Lower(entries[i].0) == name {
      var i :| 0 <= i < |entries| && Lower(entries[i].0) == name;
      assert lowered[i].0 == name;
    }
  }

  /** A header holds the value of the last raw header whose name lower-cases
      to it: a later `Host` overrides an earlier `host`. */
  lemma HeaderLastWins(ev: GatewayEvent, i: int)
    requires ev.headers.Some? && 0 <= i < |ev.headers.value|
    requires forall j :: i < j < |ev.headers.value| ==> Lower(ev.headers.value[j].0) != Lower(ev.headers.value[i].0)
    ensures Lower(ev.headers.value[i].0) in Headers(ev)
    ensures Headers(ev)[Lower(ev.headers.value[i].0)] == ev.headers.value[i].1
  {
    var entries := ev.headers.value;
    var lowered := LowerNames(entries);
    var name := Lower(entries[i].0);
    WriteAllLastWins(CookieSeed(ev.cookies), lowered, name);
    assert lowered[i].0 == name;
    assert forall j :: i < j < |lowered| ==> lowered[j].0 != name by {
      forall j | i < j < |lowered| ensures lowered[j].0 != name {
        assert lowered[j].0 == Lower(entries[j].0);
      }
    }
  }

  /** Without a raw `cookie` header, the `cookie` header is the cookie list
      joined with `; `. */
  lemma CookieHeaderFromCookies(ev: GatewayEvent)
    requires ev.cookies.Some?
    requires forall i :: 0 <= i < |ev.headers.GetOr([])| ==> Lower(ev.headers.GetOr([])[i].0) != "cookie"
    ensures "cookie" in Headers(ev) && Headers(ev)["cookie"] == Join(ev.cookies.value, "; ")
  {
    var lowered := LowerNames(ev.headers.GetOr([]));
    WriteAllLastWins(CookieSeed(ev.cookies), lowered, "cookie");
    assert forall i :: 0 <= i < |lowered| ==> lowered[i].0 != "cookie";
  }

  /** `url`: the path, then `?` and the raw query when there is one. */
  function Url(rawPath: string, rawQueryString: string): (url: string)
    ensures rawQueryString == "" ==> url == rawPath
    ensures rawQueryString != "" ==> url == rawPath + "?" + rawQueryString
  {
    rawPath + (if rawQueryString != "" then "?" + rawQueryString else "")
  }

  /** `const [key, value] = cookie.split("=")`: the text before the first
      `=`, and the text between it and the next `=` (`None` when there is no
      `=`). */
  function CookiePair(cookie: string): (string, Option<string>) {
    var parts := Split(cookie, '=');
    (parts[0], if |parts| > 1 then Some(parts[1]) else None)
  }

  /** Text after a second `=` is dropped. */
  lemma CookiePairDropsAfterSecondEquals(name: string, value: string, rest: string)
    requires '=' !in name && '=' !in value
    ensures CookiePair(name + "=" + value) == (name, Some(value))
    ensures CookiePair(name + "=" + value + "=" + rest) == (name, Some(value))
  {
    SplitAtFirst(name, '=', value);
    SplitWithoutSeparator(value, '=');
    assert name + "=" + value == name + ['='] + value;
    SplitAtFirst(name, '=', value + "=" + rest);
    SplitAtFirst(value, '=', rest);
    assert name + "=" + value + "=" + rest == name + ['='] + (value + ['='] + rest);
  }

  /** A cookie without `=` is a name with an `undefined` value. */
  lemma CookieWithoutEquals(cookie: string)
    requires '=' !in cookie
    ensures CookiePair(cookie) == (cookie, None)
  {
    SplitWithoutSeparator(cookie, '=');
  }

  function CookiePairs(cookies: seq<string>): (r: seq<(string, Option<string>)>)
    ensures |r| == |cookies|
    ensures forall i :: 0 <= i < |cookies| ==> r[i] == CookiePair(cookies[i])
  {
    seq(|cookies|, i requires 0 <= i < |cookies| => CookiePair(cookies[i]))
  }

  /** The `cookies` reduce: later cookies of the same name win; no cookie
      list gives `{}`. */
  function CookieMap(cookies: Option<seq<string>>): (m: map<string, Option<string>>)
    ensures cookies.None? ==> m == map[]
  {
    if cookies.None? then map[] else WriteAll(map[], CookiePairs(cookies.value))
  }

  /** The cookie map holds each name that some cookie has, with the value of
      the last cookie of that name. */
  lemma CookieMapLastWins(cookies: seq<string>, name: string)
    ensures name in CookieMap(Some(cookies)) <==> exists i :: 0 <= i < |cookies| && CookiePair(cookies[i]).0 == name
    ensures forall i :: 0 <= i < |cookies| && CookiePair(cookies[i]).0 == name &&
                        (forall j :: i < j < |cookies| ==> CookiePair(cookies[j]).0 != name) ==>
                        CookieMap(Some(cookies))[name] == CookiePair(cookies[i]).1
  {
    var pairs := CookiePairs(cookies);
    WriteAllLastWins(map[], pairs, name);
    if name in CookieMap(Some(cookies)) {
      var i :| 0 <= i < |pairs| && pairs[i].0 == name;
      assert CookiePair(cookies[i]).0 == name;
    }
    forall i | 0 <= i < |cookies| && CookiePair(cookies[i]).0 == name &&
               (forall j :: i < j < |cookies| ==> CookiePair(cookies[j]).0 != name)
      ensures CookieMap(Some(cookies))[name] == CookiePair(cookies[i]).1
    {
      assert pairs[i].0 == name;
      assert forall j :: i < j < |pairs| ==> pairs[j].0 != name;
    }
  }

  /** `convertFromAPIGatewayProxyEventV2` */
  function ConvertFrom(lib: Lib, ev: GatewayEvent): (r: InternalEvent)
    ensures r.kind == "core" && r.httpMethod == ev.httpMethod && r.rawPath == ev.rawPath
    ensures r.url == Url(ev.rawPath, ev.rawQueryString) && r.remoteAddress == ev.sourceIp
    ensures r.body == Some(NormalizeBody(ev.body, ev.isBase64Encoded))
    ensures r.headers == Headers(ev) && r.query == lib.toQuery(ev.rawQueryString)
    ensures r.cookies == CookieMap(ev.cookies)
  {
    InternalEvent("core", ev.httpMethod, ev.rawPath, Url(ev.rawPath, ev.rawQueryString),
                  Some(NormalizeBody(ev.body, ev.isBase64Encoded)), Headers(ev),
                  lib.toQuery(ev.rawQueryString), CookieMap(ev.cookies), ev.sourceIp)
  }

  /** A header value as the gateway wants it: `null` is empty, a list is
      joined with `, `. */
  function Flatten(v: HeaderValue): string {
    match v
    case HNull => ""
    case HMany(items) => Join(items, ", ")
    case HOne(s) => s
  }

  /** The response headers: all but `set-cookie` in any letter case. */
  function ResponseHeaders(headers: map<string, HeaderValue>): (r: map<string, string>)
    ensures forall k :: k in r <==> k in headers && Lower(k) != "set-cookie"
    ensures forall k :: k in r ==> r[k] == Flatten(headers[k])
  {
    map k | k in headers && Lower(k) != "set-cookie" :: Flatten(headers[k])
  }

  /** `convertToApiGatewayProxyResultV2`: the cookies are what
      `parseCookies` makes of the header named exactly `set-cookie`. */
  method ConvertTo(lib: Lib, result: InternalResult) returns (r: GatewayResult)
    ensures r.statusCode == result.statusCode && r.body == result.body && r.isBase64Encoded == result.isBase64Encoded
    ensures r.headers == ResponseHeaders(result.headers)
    ensures r.cookies == lib.parseCookies(Lookup(result.headers, "set-cookie"))
  {
    var headers: map<string, string> := map[];
    var remaining := result.headers.Keys;
    while remaining != {}
      invariant remaining <= result.headers.Keys
      invariant headers == map k | k in result.headers.Keys - remaining && Lower(k) != "set-cookie" :: Flatten(result.headers[k])
      decreases remaining
    {
      var key :| key in remaining;
      if Lower(key) != "set-cookie" {
        headers := headers[key := Flatten(result.headers[key])];
      }
      remaining := remaining - {key};
    }
    r := GatewayResult(result.statusCode, headers, lib.parseCookies(Lookup(result.headers, "set-cookie")),
                       result.body, result.isBase64Encoded);
  }

  /** A cookie header spelt other than `set-cookie` (say `Set-Cookie`) is
      dropped from the headers, and is not what the cookies are read from. */
  lemma MixedCaseSetCookieIsNotForwarded(headers: map<string, HeaderValue>)
    requires "Set-Cookie" in headers
    ensures "Set-Cookie" !in ResponseHeaders(headers)
    ensures "set-cookie" !in headers ==> Lookup(headers, "set-cookie") == None
  {
    assert Lower("Set-Cookie") == "set-cookie";
  }
}
