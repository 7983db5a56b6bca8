/** The image optimization adapter: the handler's success and failure
    responses, the bucket check, the S3 key the default loader reads, and
    the branches of the download handler Next.js calls back. Parameter
    validation, the optimizer, the loader and S3 are parameters. */
module ImageOptimization {
  import opened Common
  import opened OpenNextTypes

  /** A thrown value: its `message` (`None` when it has none) and what its
      `toString()` gives. */
  datatype Thrown = Thrown(message: Option<string>, text: string)

  /** `new Error(message)` */
  function ErrorOf(message: string): (e: Thrown)
    ensures e.message == Some(message)
  {
    Thrown(Some(message), if message == "" then "Error" else "Error: " + message)
  }

  /** What the optimizer returns: the image as base64 text, its `maxAge` and
      its content type. */
  datatype Optimized = Optimized(base64: string, maxAge: int, contentType: string)

  /** `validate` is `ImageOptimizerCache.validateParams` (an error is its
      `errorMessage`); `optimize` is `imageOptimizer`. */
  datatype Env<!P> = Env(
    bucketName: Option<string>,
    validate: (map<string, string>, Query) -> Result<P, string>,
    optimize: (map<string, string>, P) -> Result<Optimized, Thrown>)

  /** `ensureBucketExists` */
  function EnsureBucketExists(bucketName: Option<string>): (r: Result<(), Thrown>)
    ensures r.Err? <==> !Truthy(bucketName)
    ensures r.Err? ==> r.error == ErrorOf("Bucket name must be defined!")
  {
    if !Truthy(bucketName) then Err(ErrorOf("Bucket name must be defined!")) else Ok(())
  }

  /** `buildSuccessResponse` */
  function SuccessResponse(result: Optimized): (r: InternalResult)
    ensures r.kind == "core" && r.statusCode == 200 && r.isBase64Encoded && r.body == TextBody(result.base64)
    ensures r.headers == map["Vary" := HOne("Accept"),
                             "Cache-Control" := HOne("public,max-age=" + IntToString(result.maxAge) + ",immutable"),
                             "Content-Type" := HOne(result.contentType)]
  {
    InternalResult("core", 200,
                   map["Vary" := HOne("Accept"),
                       "Cache-Control" := HOne("public,max-age=" + IntToString(result.maxAge) + ",immutable"),
                       "Content-Type" := HOne(result.contentType)],
                   TextBody(result.base64), true)
  }

  /** The failure body: the error's message when it has a non-empty one,
      else its string form. */
  function FailureBody(e: Thrown): (body: string)
    ensures Truthy(e.message) ==> body == e.message.value
    ensures !Truthy(e.message) ==> body == e.text
  {
    if Truthy(e.message) then e.message.value else e.text
  }

  /** `buildFailureResponse` */
  function FailureResponse(e: Thrown): (r: InternalResult)
    ensures r.kind == "core" && r.statusCode == 500 && !r.isBase64Encoded && r.body == TextBody(FailureBody(e))
    ensures r.headers == map["Vary" := HOne("Accept"),
                             "Cache-Control" := HOne("public,max-age=60,immutable"),
                             "Content-Type" := HOne("application/json")]
  {
    InternalResult("core", 500,
                   map["Vary" := HOne("Accept"),
                       "Cache-Control" := HOne("public,max-age=60,immutable"),
                       "Content-Type" := HOne("application/json")],
                   TextBody(FailureBody(e)), false)
  }

  /** `defaultHandler`: any failure of the bucket check, of validation or of
      the optimizer becomes the failure response. */
  function DefaultHandler<P>(env: Env<P>, ev: InternalEvent): (r: InternalResult)
    ensures !Truthy(env.bucketName) ==> r == FailureResponse(ErrorOf("Bucket name must be defined!"))
    ensures Truthy(env.bucketName) && env.validate(ev.headers, ev.query).Err? ==>
              r == FailureResponse(ErrorOf(env.validate(ev.headers, ev.query).error))
    ensures Truthy(env.bucketName) && env.validate(ev.headers, ev.query).Ok? ==>
              var out := env.optimize(ev.headers, env.validate(ev.headers, ev.query).value);
              r == if out.Ok? then SuccessResponse(out.value) else FailureResponse(out.error)
    ensures r.statusCode == 200 || r.statusCode == 500
  {
    var bucket := EnsureBucketExists(env.bucketName);
    if bucket.Err? then FailureResponse(bucket.error)
    else
      var params := env.validate(ev.headers, ev.query);
      if params.Err? then FailureResponse(ErrorOf(params.error))
      else
        var out := env.optimize(ev.headers, params.value);
        if out.Ok? then SuccessResponse(out.value) else FailureResponse(out.error)
  }

  /** `s.replace(/^\//, "")` */
  function DropLeadingSlash(s: string): (r: string)
    ensures StartsWith(s, "/") ==> r == s[1..]
    ensures !StartsWith(s, "/") ==> r == s
  {
    if StartsWith(s, "/") then s[1..] else s
  }

  /** `s.replace(/^\/|\/$/g, "")`: one leading and then one trailing `/`
      removed. */
  function TrimSlashes(s: string): (r: string)
    ensures StartsWith(s, "/") && |s| >= 2 && EndsWith(s, "/") ==> r == s[1..|s| - 1]
    ensures StartsWith(s, "/") && !EndsWith(s[1..], "/") ==> r == s[1..]
    ensures !StartsWith(s, "/") && EndsWith(s, "/") ==> r == s[..|s| - 1]
    ensures !StartsWith(s, "/") && !EndsWith(s, "/") ==> r == s
  {
    var t := DropLeadingSlash(s);
    if |t| > 0 && t[|t| - 1] == '/' then t[..|t| - 1] else t
  }

  /** The S3 key the default loader reads for `key` under the
      `BUCKET_KEY_PREFIX` `prefix`. */
  function S3Key(prefix: Option<string>, key: string): (r: string)
    ensures prefix.Some? && TrimSlashes(prefix.value) != "" ==>
              r == TrimSlashes(prefix.value) + "/" + DropLeadingSlash(key)
    ensures prefix.None? || TrimSlashes(prefix.value) == "" ==> r == DropLeadingSlash(key)
  {
    var keyPrefix := if prefix.Some? then Some(TrimSlashes(prefix.value)) else None;
    if Truthy(keyPrefix) then keyPrefix.value + "/" + DropLeadingSlash(key) else DropLeadingSlash(key)
  }

  /** With a prefix and a key written with their slashes, the key is the
      bare prefix, one `/`, and the bare key. */
  lemma S3KeyJoinsBareNames(prefix: string, key: string)
    requires prefix != "" && prefix[0] != '/' && prefix[|prefix| - 1] != '/'
    ensures S3Key(Some("/" + prefix + "/"), "/" + key) == prefix + "/" + key
    ensures S3Key(Some(prefix), key) == prefix + "/" + DropLeadingSlash(key)
    ensures S3Key(None, "/" + key) == key
  {
    var s := "/" + prefix + "/";
    assert StartsWith(s, "/");
    assert DropLeadingSlash(s) == prefix + "/";
    assert TrimSlashes(s) == prefix;
    assert StartsWith("/" + key, "/");
    assert ("/" + key)[1..] == key;
    assert !StartsWith(prefix, "/");
  }

  /** An S3 key never starts with `/` unless the key or the prefix began
      with two. */
  lemma S3KeyHasNoLeadingSlash(prefix: Option<string>, key: string)
    requires !StartsWith(key, "//")
    requires prefix.Some? ==> !StartsWith(prefix.value, "//")
    ensures !StartsWith(S3Key(prefix, key), "/")
  {
    if |key| >= 2 {
      assert key[..2] == [key[0], key[1]];
    }
    if prefix.Some? && TrimSlashes(prefix.value) != "" {
      var p := prefix.value;
      if |p| >= 2 {
        assert p[..2] == [p[0], p[1]];
      }
      assert TrimSlashes(p)[0] == DropLeadingSlash(p)[0];
    }
  }

  /** `url.href.toLowerCase().match(/^https?:\/\//)` */
  predicate IsRemote(href: string) {
    StartsWith(Lower(href), "http://") || StartsWith(Lower(href), "https://")
  }

  /** What the loader hands back: the body stream if any, its content type
      and cache control. */
  datatype LoaderResponse = LoaderResponse(body: Option<string>, contentType: Option<string>, cacheControl: Option<string>)

  /** The loader: the configured one, or the default one that reads
      `S3Key(prefix, key)` from the bucket. */
  datatype Loader =
    | Custom(load: string -> Result<LoaderResponse, Thrown>)
    | S3(prefix: Option<string>, getObject: string -> Result<LoaderResponse, Thrown>)

  function Load(loader: Loader, href: string): Result<LoaderResponse, Thrown> {
    match loader
    case Custom(load) => load(href)
    case S3(prefix, getObject) => getObject(S3Key(prefix, href))
  }

  /** `https.get` accepts only `https:` URLs; an `http:` URL makes it
      throw Node's `ERR_INVALID_PROTOCOL` before any request is sent. */
  const InvalidHttpProtocol := Thrown(Some("Protocol \"http:\" not supported. Expected \"https:\""),
                                      "TypeError [ERR_INVALID_PROTOCOL]: Protocol \"http:\" not supported. Expected \"https:\"")

  /** The stream piped into the response. */
  datatype Source = Remote(url: string) | Stored(body: string)

  /** The header map after `setHeader(name, value)` when the value is
      present and non-empty. */
  function SetIfPresent(headers: map<string, string>, name: string, value: Option<string>): (r: map<string, string>)
    ensures Truthy(value) ==> r == headers[name := value.value]
    ensures !Truthy(value) ==> r == headers
  {
    if Truthy(value) then headers[name := value.value] else headers
  }

  /** The `ServerResponse` the download handler writes to. */
  class ServerResponse {
    var headers: map<string, string>

    constructor ()
      ensures headers == map[]
    {
      headers := map[];
    }

    method SetHeader(name: string, value: string)
      modifies this
      ensures headers == old(headers)[name := value]
    {
      headers := headers[name := value];
    }
  }

  /** `downloadHandler`: a remote URL goes to `https.get`, which pipes an
      `https:` one and throws at an `http:` one; otherwise the loader's body
      is piped, an empty one is an error, and the content type and cache
      control are copied only when present. */
  method DownloadHandler(res: ServerResponse, href: string, loader: Loader) returns (r: Result<Source, Thrown>)
    modifies res
    ensures IsRemote(href) && StartsWith(Lower(href), "https://") ==> r == Ok(Remote(href)) && res.headers == old(res.headers)
    ensures IsRemote(href) && StartsWith(Lower(href), "http://") ==> r == Err(InvalidHttpProtocol) && res.headers == old(res.headers)
    ensures !IsRemote(href) && Load(loader, href).Err? ==> r == Err(Load(loader, href).error) && res.headers == old(res.headers)
    ensures !IsRemote(href) && Load(loader, href).Ok? && Load(loader, href).value.body.None? ==>
              r == Err(ErrorOf("Empty response body from the S3 request.")) && res.headers == old(res.headers)
    ensures !IsRemote(href) && Load(loader, href).Ok? && Load(loader, href).value.body.Some? ==>
              var resp := Load(loader, href).value;
              r == Ok(Stored(resp.body.value)) &&
              res.headers == SetIfPresent(SetIfPresent(old(res.headers), "Content-Type", resp.contentType),
                                          "Cache-Control", resp.cacheControl)
  {
    if IsRemote(href) {
      if StartsWith(Lower(href), "http://") {
        assert Lower(href)[4] == "http://"[4] != "https://"[4];
        return Err(InvalidHttpProtocol);
      }
      return Ok(Remote(href));
    }
    var response := Load(loader, href);
    if response.Err? {
      return Err(response.error);
    }
    if response.value.body.None? {
      return Err(ErrorOf("Empty response body from the S3 request."));
    }
    r := Ok(Stored(response.value.body.value));
    if Truthy(response.value.contentType) {
      res.SetHeader("Content-Type", response.value.contentType.value);
    }
    if Truthy(response.value.cacheControl) {
      res.SetHeader("Cache-Control", response.value.cacheControl.value);
    }
  }
}
