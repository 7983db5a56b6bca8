/** The Fleek converters: a Fleek request becomes an internal, revalidation,
    initialisation or warmer event, and results go back as Fleek responses.
    URL resolution, JSON parsing, `fetch` and reading a response stream are
    parameters. */
module FleekConverter {
  import opened Common
  import opened OpenNextTypes

  /** `FleekRequest`; an absent body or header or query object is `None`. */
  datatype FleekRequest = FleekRequest(
    httpMethod: string,
    headers: Option<map<string, string>>,
    path: string,
    query: Option<Query>,
    body: Option<string>)

  datatype FleekResponse = FleekResponse(status: int, headers: map<string, string>, body: ResultBody)

  /** A parsed JSON value, as far as the converters look into it. */
  datatype Json = JNull | JString(s: string) | JNumber(n: int) | JObject(fields: map<string, Json>) | JOther

  /** `origin` of a middleware result. */
  datatype Origin = Origin(protocol: string, host: string, port: Option<string>)

  /** A middleware result that carries a request to forward. */
  datatype MiddlewareOutput = MiddlewareOutput(
    internalEvent: InternalEvent, isExternalRewrite: bool, origin: Option<Origin>, isISR: bool)

  /** What the middleware converter receives: a request to forward, or a
      result the middleware answered itself. */
  datatype MiddlewareResult = Forward(output: MiddlewareOutput) | Answered(result: InternalResult)

  /** The `Request` the middleware converter forwards. */
  datatype ProxyRequest = ProxyRequest(url: string, httpMethod: string, body: Option<Buffer>, headers: map<string, string>)

  /** A fetch `Response`: its status, the entries of its `Headers` object and
      its text. */
  datatype Response = Response(status: int, headers: map<string, string>, text: string)

  datatype RevalidateEvent = RevalidateEvent(records: Json)
  datatype InitializationEvent = InitializationEvent(requestType: Option<Json>, resourceId: string)
  datatype WarmerEvent = WarmerEvent(warmerId: Option<Json>, index: Option<Json>, concurrency: Option<Json>, delay: Option<Json>)

  /** `resolve(p)` is `new URL(p, "http://0.0.0.0").toString()`; `parse` is
      `JSON.parse` of a text; `fetch` is the forwarded
      request with its `cacheEverything` flag; `chunks` is the decoded text
      of each chunk a result stream yields, in order. */
  datatype Lib = Lib(
    resolve: string -> string,
    parse: string -> Result<Json, string>,
    fetch: (ProxyRequest, bool) -> Response,
    chunks: ResultBody -> seq<string>)

  /** `convertFromFleekRequestToInternalEvent` */
  function ConvertFrom(lib: Lib, req: FleekRequest): (r: InternalEvent)
    ensures r.kind == "core" && r.httpMethod == req.httpMethod && r.rawPath == req.path
    ensures r.query == req.query.GetOr(map[]) && r.cookies == map[] && r.remoteAddress == "0.0.0.0"
    ensures var host := if req.headers.Some? then Lookup(req.headers.value, "host") else None;
            r.url == (if Truthy(host) then host.value else lib.resolve(req.path))
    ensures "host" in r.headers
    ensures req.headers.Some? && "host" in req.headers.value ==> r.headers["host"] == req.headers.value["host"]
    ensures (req.headers.None? || "host" !in req.headers.value) ==> r.headers["host"] == lib.resolve(req.path)
    ensures forall k :: k in r.headers && k != "host" <==> req.headers.Some? && k in req.headers.value && k != "host"
    ensures forall k :: req.headers.Some? && k in req.headers.value ==> r.headers[k] == req.headers.value[k]
    ensures r.body == (if Truthy(req.body) then Some(Decoded(req.body.value, Utf8)) else None)
  {
    var url := lib.resolve(req.path);
    var host := if req.headers.Some? then Lookup(req.headers.value, "host") else None;
    InternalEvent(
      "core", req.httpMethod, req.path,
      if Truthy(host) then host.value else url,
      if Truthy(req.body) then Some(Decoded(req.body.value, Utf8)) else None,
      map["host" := url] + req.headers.GetOr(map[]),
      req.query.GetOr(map[]), map[], "0.0.0.0")
  }

  /** A header value as `convertHeaders` writes it: a list joined with `,`
      and no space, a string as it is. */
  function CommaJoined(v: HeaderValue): (s: string)
    requires !v.HNull?
    ensures v.HOne? ==> s == v.s
    ensures v.HMany? ==> s == Join(v.items, ",")
  {
    if v.HMany? then Join(v.items, ",") else v.s
  }

  predicate NoNulls(headers: map<string, HeaderValue>) {
    forall k :: k in headers ==> !headers[k].HNull?
  }

  /** `convertHeaders`: the same names, each value flattened. Its parameter
      type admits no `null`. */
  method ConvertHeaders(headers: map<string, HeaderValue>) returns (r: map<string, string>)
    requires NoNulls(headers)
    ensures r.Keys == headers.Keys
    ensures forall k :: k in r ==> r[k] == CommaJoined(headers[k])
  {
    r := map[];
    var remaining := headers.Keys;
    while remaining != {}
      invariant remaining <= headers.Keys
      invariant r.Keys == headers.Keys - remaining
      invariant forall k :: k in r ==> r[k] == CommaJoined(headers[k])
      decreases remaining
    {
      var key :| key in remaining;
      r := r[key := CommaJoined(headers[key])];
      remaining := remaining - {key};
    }
  }

  /** `convertToFleekResponseFromInternalResult` */
  method ConvertTo(result: InternalResult) returns (r: FleekResponse)
    requires NoNulls(result.headers)
    ensures r.status == result.statusCode && r.body == result.body
    ensures r.headers.Keys == result.headers.Keys
    ensures forall k :: k in r.headers ==> r.headers[k] == CommaJoined(result.headers[k])
  {
    var headers := ConvertHeaders(result.headers);
    r := FleekResponse(result.statusCode, headers, result.body);
  }

  /** Joining a list of values adds no space. */
  lemma CommaJoinedHasNoSpace(a: string, b: string)
    ensures CommaJoined(HMany([a, b])) == a + "," + b
  {
    assert [a, b][1..] == [b];
    assert Join([b], ",") == b;
  }

  /** A property of a parsed JSON value: `undefined` when it is missing,
      a `TypeError` when the value is `null`. */
  function Field(v: Json, name: string): (r: Result<Option<Json>, string>)
    ensures v.JNull? <==> r.Err?
    ensures v.JObject? && name in v.fields ==> r == Ok(Some(v.fields[name]))
    ensures !v.JNull? && !(v.JObject? && name in v.fields) ==> r == Ok(None)
  {
    match v
    case JNull => Err("TypeError: Cannot read properties of null (reading '" + name + "')")
    case JObject(fields) => Ok(Lookup(fields, name))
    case _ => Ok(None)
  }

  /** The text `JSON.parse(event.body)` parses: the argument is turned into
      text first, so an absent body is parsed as the text `undefined`. */
  function JsonText(body: Option<string>): (t: string)
    ensures body.Some? ==> t == body.value
    ensures body.None? ==> t == "undefined"
  {
    body.GetOr("undefined")
  }

  /** `convertFromFleekRequestToRevalidateEvent`: the parsed body is the
      record list. */
  function ConvertFromRevalidate(lib: Lib, req: FleekRequest): (r: Result<RevalidateEvent, string>)
    ensures lib.parse(JsonText(req.body)).Err? <==> r.Err?
    ensures r.Ok? ==> r.value.records == lib.parse(JsonText(req.body)).value
  {
    var body := lib.parse(JsonText(req.body));
    if body.Err? then Err(body.error) else Ok(RevalidateEvent(body.value))
  }

  /** `convertFromFleekRequestToInitializationFunctionEvent` */
  function ConvertFromInitialization(lib: Lib, req: FleekRequest): (r: Result<InitializationEvent, string>)
    ensures r.Ok? <==> lib.parse(JsonText(req.body)).Ok? && !lib.parse(JsonText(req.body)).value.JNull?
    ensures r.Ok? ==> r.value.resourceId == "dynamodb-cache"
    ensures r.Ok? ==> r.value.requestType == Field(lib.parse(JsonText(req.body)).value, "requestType").value
  {
    var body := lib.parse(JsonText(req.body));
    if body.Err? then Err(body.error)
    else
      var requestType := Field(body.value, "requestType");
      if requestType.Err? then Err(requestType.error)
      else Ok(InitializationEvent(requestType.value, "dynamodb-cache"))
  }

  /** `convertFromFleekRequestToWarmerEvent`: the four fields are copied
      from the body. */
  function ConvertFromWarmer(lib: Lib, req: FleekRequest): (r: Result<WarmerEvent, string>)
    ensures r.Ok? <==> lib.parse(JsonText(req.body)).Ok? && !lib.parse(JsonText(req.body)).value.JNull?
    ensures r.Ok? ==> var body := lib.parse(JsonText(req.body)).value;
                      r.value.warmerId == Field(body, "warmerId").value &&
                      r.value.index == Field(body, "index").value &&
                      r.value.concurrency == Field(body, "concurrency").value &&
                      r.value.delay == Field(body, "delay").value
  {
    var body := lib.parse(JsonText(req.body));
    if body.Err? then Err(body.error)
    else if body.value.JNull? then Err(Field(body.value, "warmerId").error)
    else Ok(WarmerEvent(Field(body.value, "warmerId").value, Field(body.value, "index").value,
                        Field(body.value, "concurrency").value, Field(body.value, "delay").value))
  }

  /** The fixed answer of the revalidation converter. */
  function RevalidateResponse(): (r: FleekResponse)
    ensures r.status == 200 && r.headers == map["x-random-header" := "random-value-3"]
    ensures r.body == TextBody("random response 3")
  {
    FleekResponse(200, map["x-random-header" := "random-value-3"], TextBody("random response 3"))
  }

  /** The fixed answer of the initialisation converter. */
  function InitializationResponse(): (r: FleekResponse)
    ensures r.status == 200 && r.headers == map["x-random-header" := "random-value-2"]
    ensures r.body == TextBody("random response 2")
  {
    FleekResponse(200, map["x-random-header" := "random-value-2"], TextBody("random response 2"))
  }

  /** The fixed answer of the warmer converter. */
  function WarmerResponse(): (r: FleekResponse)
    ensures r.status == 200 && r.headers == map["x-random-header" := "random-value"]
    ensures r.body == TextBody("random response")
  {
    FleekResponse(200, map["x-random-header" := "random-value"], TextBody("random response"))
  }

  /** The URL a middleware result is forwarded to. */
  function ProxyUrl(m: MiddlewareOutput): (url: string)
    ensures m.isExternalRewrite ==> url == m.internalEvent.url
    ensures !m.isExternalRewrite && m.origin.Some? ==>
              url == m.origin.value.protocol + "://" + m.origin.value.host +
                     (if Truthy(m.origin.value.port) then ":" + m.origin.value.port.value else "") +
                     m.internalEvent.url
    ensures !m.isExternalRewrite && m.origin.None? ==>
              url == "https://" + Lookup(m.internalEvent.headers, "host").GetOr("undefined") + m.internalEvent.url
    ensures EndsWith(url, m.internalEvent.url)
  {
    var url := m.internalEvent.url;
    if m.isExternalRewrite then url
    else if m.origin.Some? then
      var o := m.origin.value;
      var prefix := o.protocol + "://" + o.host + (if Truthy(o.port) then ":" + o.port.value else "");
      assert (prefix + url)[|prefix|..] == url;
      prefix + url
    else
      var prefix := "https://" + Lookup(m.internalEvent.headers, "host").GetOr("undefined");
      assert (prefix + url)[|prefix|..] == url;
      prefix + url
  }

  /** The forwarded request: the event's body, method and headers, plus
      `x-forwarded-host` set to the `host` header. */
  function ForwardedRequest(m: MiddlewareOutput): (r: ProxyRequest)
    ensures r.url == ProxyUrl(m) && r.httpMethod == m.internalEvent.httpMethod && r.body == m.internalEvent.body
    ensures r.headers.Keys == m.internalEvent.headers.Keys + {"x-forwarded-host"}
    ensures r.headers["x-forwarded-host"] == Lookup(m.internalEvent.headers, "host").GetOr("undefined")
    ensures forall k :: k in m.internalEvent.headers && k != "x-forwarded-host" ==> r.headers[k] == m.internalEvent.headers[k]
  {
    var ev := m.internalEvent;
    ProxyRequest(ProxyUrl(m), ev.httpMethod, ev.body,
                 ev.headers["x-forwarded-host" := Lookup(ev.headers, "host").GetOr("undefined")])
  }

  /** `cfCache`: the whole response is cached for ISR pages and images,
      unless `DISABLE_CACHE` is `"true"`. */
  function CacheEverything(m: MiddlewareOutput, disableCache: Option<string>): (b: bool)
    ensures b <==> (m.isISR || StartsWith(m.internalEvent.rawPath, "/_next/image")) && disableCache != Some("true")
  {
    (m.isISR || StartsWith(m.internalEvent.rawPath, "/_next/image")) && disableCache != Some("true")
  }

  /** `adapt` as written: `Object.entries` of a `Headers` object lists none
      of its headers, so the Fleek response never carries any. */
  function AdaptAsWritten(resp: Response): (r: FleekResponse)
    ensures r.status == resp.status && r.body == TextBody(resp.text)
  {
    FleekResponse(resp.status, map[], TextBody(resp.text))
  }

  /** The headers of a response are lost by the `adapt` as written. */
  lemma AdaptAsWrittenDropsHeaders()
    ensures AdaptAsWritten(Response(200, map["content-type" := "text/html"], "")).headers == map[]
    ensures "content-type" !in AdaptAsWritten(Response(200, map["content-type" := "text/html"], "")).headers
  {
  }

  /** `adapt` with its headers copied entry by entry, as the loop in
      `adaptHeaders` evidently means to. */
  method Adapt(resp: Response) returns (r: FleekResponse)
    ensures r.status == resp.status && r.body == TextBody(resp.text)
    ensures r.headers == resp.headers
  {
    var headers: map<string, string> := map[];
    var remaining := resp.headers.Keys;
    while remaining != {}
      invariant remaining <= resp.headers.Keys
      invariant headers.Keys == resp.headers.Keys - remaining
      invariant forall k :: k in headers ==> headers[k] == resp.headers[k]
      decreases remaining
    {
      var key :| key in remaining;
      headers := headers[key := resp.headers[key]];
      remaining := remaining - {key};
    }
    r := FleekResponse(resp.status, headers, TextBody(resp.text));
  }

  /** A header value as `Headers.set` stores it: a list joined with `,`, a
      `null` as the text `null`. */
  function SetValue(v: HeaderValue): string {
    match v
    case HNull => "null"
    case HMany(items) => Join(items, ",")
    case HOne(s) => s
  }

  /** The `Headers` object the answered branch fills with `set`: names are
      lower-cased, so names that differ only in case end up as one header
      holding the value of one of them. */
  method AnsweredHeaders(headers: map<string, HeaderValue>) returns (h: map<string, string>)
    ensures forall name :: name in h <==> exists k :: k in headers && Lower(k) == name
    ensures forall name :: name in h ==> exists k :: k in headers && Lower(k) == name && h[name] == SetValue(headers[k])
  {
    h := map[];
    var remaining := headers.Keys;
    while remaining != {}
      invariant remaining <= headers.Keys
      invariant forall name :: name in h <==> exists k :: k in headers - remaining && Lower(k) == name
      invariant forall name :: name in h ==> exists k :: k in headers && Lower(k) == name && h[name] == SetValue(headers[k])
      decreases remaining
    {
      var key :| key in remaining;
      h := h[Lower(key) := SetValue(headers[key])];
      remaining := remaining - {key};
    }
  }

  // ---------------------------------------------------------------------------
  // Reading the answered body
  // ---------------------------------------------------------------------------

  /** What `reader.read()` resolves to: `{done: false, value}` while the
      stream has chunks left, then `{done: true, value: undefined}`. */
  datatype ReadResult = ReadResult(done: bool, value: Option<string>)

  /** `reader.read()` when `position` chunks have been read. */
  function ReadAt(chunks: seq<string>, position: nat): (rr: ReadResult)
    ensures rr.done <==> position >= |chunks|
    ensures !rr.done ==> rr.value == Some(chunks[position])
    ensures rr.done ==> rr.value.None?
  {
    if position < |chunks| then ReadResult(false, Some(chunks[position])) else ReadResult(true, None)
  }

  /** The position after one more `read()`: a finished stream stays finished. */
  function Advance(chunks: seq<string>, position: nat): nat {
    if position < |chunks| then position + 1 else position
  }

  /** `decoder.decode(chunk.value, {stream: true})`: `undefined` decodes to
      the empty text. */
  function Decode(value: Option<string>): string {
    value.GetOr("")
  }

  /** The chunks' texts one after the other. */
  function Concat(chunks: seq<string>): string {
    if chunks == [] then "" else Concat(chunks[..|chunks| - 1]) + chunks[|chunks| - 1]
  }

  /** The reader `body.getReader()` returns, over the chunks of one stream. */
  class BodyReader {
    const chunks: seq<string>
    var position: nat

    constructor (chunks: seq<string>)
      ensures this.chunks == chunks && position == 0
    {
      this.chunks := chunks;
      position := 0;
    }

    method Read() returns (rr: ReadResult)
      modifies this
      ensures rr == ReadAt(chunks, old(position))
      ensures position == Advance(chunks, old(position))
    {
      rr := ReadAt(chunks, position);
      position := Advance(chunks, position);
    }
  }

  /** JavaScript truthiness of the object `reader.read()` resolves to: an
      object is truthy whether `done` is set or not. */
  predicate ObjectTruthy(rr: ReadResult) {
    true
  }

  /** The answered branch's loop as written, `while (chunk)`, run for at
      most `fuel` turns: `Some(text)` once it leaves the loop, `None` while
      it is still inside. */
  function AsWrittenReadLoop(chunks: seq<string>, chunk: ReadResult, position: nat, text: string, fuel: nat)
    : Option<string>
    decreases fuel
  {
    if !ObjectTruthy(chunk) then Some(text)
    else if fuel == 0 then None
    else AsWrittenReadLoop(chunks, ReadAt(chunks, position), Advance(chunks, position),
                           text + Decode(chunk.value), fuel - 1)
  }

  /** As written, the loop never ends: however many turns it is given, and
      even for a stream with no chunks at all, it is still reading. */
  lemma {:induction false} AsWrittenReadLoopNeverExits(chunks: seq<string>, chunk: ReadResult, position: nat,
                                                       text: string, fuel: nat)
    ensures AsWrittenReadLoop(chunks, chunk, position, text, fuel).None?
    decreases fuel
  {
    if fuel > 0 {
      AsWrittenReadLoopNeverExits(chunks, ReadAt(chunks, position), Advance(chunks, position),
                                  text + Decode(chunk.value), fuel - 1);
    }
  }

  /** The loop as evidently intended, `while (!chunk.done)`: it reads the
      stream to its end and returns the text of all its chunks. */
  method ReadToEnd(chunks: seq<string>) returns (text: string)
    ensures text == Concat(chunks)
  {
    var reader := new BodyReader(chunks);
    var chunk := reader.Read();
    text := "";
    ghost var i := 0;
    while !chunk.done
      invariant i <= |chunks| && reader.chunks == chunks
      invariant chunk == ReadAt(chunks, i) && reader.position == Advance(chunks, i)
      invariant text == Concat(chunks[..i])
      decreases |chunks| - i
    {
      assert chunks[..i + 1][..i] == chunks[..i];
      text := text + Decode(chunk.value);
      chunk := reader.Read();
      i := i + 1;
    }
    assert chunks[..i] == chunks;
  }

  /** `convertToFleekResponseFromMiddlewareEvent`, with the corrected
      `adapt` and the corrected read loop: a request to forward is fetched
      (with `cacheEverything` as decided) and its response adapted; an
      answered result is adapted with its body read to the end. */
  method ConvertFromMiddleware(lib: Lib, result: MiddlewareResult, disableCache: Option<string>) returns (r: FleekResponse)
    ensures result.Forward? ==>
              var resp := lib.fetch(ForwardedRequest(result.output), CacheEverything(result.output, disableCache));
              r == FleekResponse(resp.status, resp.headers, TextBody(resp.text))
    ensures result.Answered? ==>
              r.status == result.result.statusCode && r.body == TextBody(Concat(lib.chunks(result.result.body))) &&
              (forall name :: name in r.headers <==> exists k :: k in result.result.headers && Lower(k) == name) &&
              (forall name :: name in r.headers ==>
                 exists k :: k in result.result.headers && Lower(k) == name &&
                   r.headers[name] == SetValue(result.result.headers[k]))
  {
    match result {
      case Forward(output) =>
        var resp := lib.fetch(ForwardedRequest(output), CacheEverything(output, disableCache));
        r := Adapt(resp);
      case Answered(res) =>
        var headers := AnsweredHeaders(res.headers);
        var body := ReadToEnd(lib.chunks(res.body));
        r := Adapt(Response(res.statusCode, headers, body));
    }
  }
}
