/** The `fs` polyfill of the edge bundle: files are looked up by normalised
    path in a global path-to-CID map and fetched from an IPFS gateway, and
    fetched contents are memoised by CID in a module-level cache. The global
    map, `path.normalize` and the gateway are parameters (`Env`). */
module FsPolyfill {
  import opened Common
  import opened OpenNextTypes

  /** What the gateway answers for a CID: the synchronous reader checks for
      status 200, the asynchronous one for `ok`. */
  datatype GatewayResponse = GatewayResponse(status: int, ok: bool, statusText: string, text: string)

  /** `globalThis.__IPFS_CID_MAP__` (`None` when unset), `path.normalize`, and
      the gateway at `globalThis.__IPFS_GATEWAY_URL__`. */
  datatype Env = Env(cidMap: Option<map<string, string>>, normalize: string -> string,
                     gateway: string -> GatewayResponse)

  datatype FsError = NoCidMap | Enoent(syscall: string, path: string) | FetchFailed(message: string)

  /** The error's `message`. */
  function Message(e: FsError): string {
    match e
    case NoCidMap => "Global CID map not set. Please set globalThis.__IPFS_CID_MAP__"
    case Enoent(syscall, path) => "ENOENT: no such file or directory, " + syscall + " '" + path + "'"
    case FetchFailed(m) => m
  }

  /** The error's `code`: only the missing-file errors carry one. */
  function Code(e: FsError): (r: Option<string>)
    ensures r == Some("ENOENT") <==> e.Enoent?
    ensures r.None? <==> !e.Enoent?
  {
    if e.Enoent? then Some("ENOENT") else None
  }

  /** `getCID`: the CID of the normalised path; an unset global map throws. */
  function GetCid(env: Env, path: string): (r: Result<Option<string>, FsError>)
    ensures r.Err? <==> env.cidMap.None?
    ensures r.Err? ==> r.error == NoCidMap
    ensures r.Ok? ==> (r.value.Some? <==> env.normalize(path) in env.cidMap.value)
    ensures r.Ok? && r.value.Some? ==> r.value.value == env.cidMap.value[env.normalize(path)]
  {
    if env.cidMap.None? then Err(NoCidMap) else Ok(Lookup(env.cidMap.value, env.normalize(path)))
  }

  /** `existsSync`: the normalised path has an entry in the map. */
  function ExistsSync(env: Env, path: string): (r: Result<bool, FsError>)
    ensures r.Err? <==> env.cidMap.None?
    ensures r.Ok? ==> (r.value <==> env.normalize(path) in env.cidMap.value)
  {
    match GetCid(env, path)
    case Err(e) => Err(e)
    case Ok(cid) => Ok(cid.Some?)
  }

  /** A fetch's outcome and the cache after it. */
  datatype Fetched = Fetched(result: Result<string, FsError>, cache: map<string, string>)

  /** `fetchFromIPFSSync` (`sync`) or `fetchFromIPFS`: a cached CID is answered
      from the cache; otherwise the gateway is asked and a good answer is
      cached. */
  function Fetch(env: Env, cache: map<string, string>, cid: string, sync: bool): (f: Fetched)
    ensures cid in cache ==> f == Fetched(Ok(cache[cid]), cache)
    ensures forall k :: k in cache ==> k in f.cache && f.cache[k] == cache[k]
    ensures f.cache.Keys <= cache.Keys + {cid}
    ensures f.result.Ok? ==> cid in f.cache && f.cache[cid] == f.result.value
    ensures f.result.Err? ==> f.cache == cache && f.result.error.FetchFailed?
    ensures cid !in cache ==>
              (f.result.Ok? <==> (if sync then env.gateway(cid).status == 200 else env.gateway(cid).ok))
  {
    if cid in cache then Fetched(Ok(cache[cid]), cache)
    else
      var response := env.gateway(cid);
      if sync then
        if response.status == 200 then Fetched(Ok(response.text), cache[cid := response.text])
        else Fetched(Err(FetchFailed("Failed to fetch CID " + cid + ": " + IntToString(response.status) + " " +
                                    response.statusText)), cache)
      else
        if response.ok then Fetched(Ok(response.text), cache[cid := response.text])
        else Fetched(Err(FetchFailed("Failed to fetch CID " + cid)), cache)
  }

  /** The cache after a series of fetches, each a CID and whether it was the
      synchronous reader. */
  function FetchAll(env: Env, cache: map<string, string>, requests: seq<(string, bool)>): map<string, string>
    decreases |requests|
  {
    if requests == [] then cache
    else
      var last := requests[|requests| - 1];
      Fetch(env, FetchAll(env, cache, requests[..|requests| - 1]), last.0, last.1).cache
  }

  /** Once a CID is cached, every later fetch of it, however many fetches come
      in between, returns the same content without a request. */
  lemma {:induction false} CachedContentIsStable(env: Env, cache: map<string, string>, requests: seq<(string, bool)>,
                                                 cid: string, sync: bool)
    requires cid in cache
    ensures cid in FetchAll(env, cache, requests)
    ensures FetchAll(env, cache, requests)[cid] == cache[cid]
    ensures Fetch(env, FetchAll(env, cache, requests), cid, sync).result == Ok(cache[cid])
    decreases |requests|
  {
    if requests != [] {
      CachedContentIsStable(env, cache, requests[..|requests| - 1], cid, sync);
    }
  }

  /** The content a read returns: the text when `options.encoding` is set,
      otherwise a Buffer of it (its byte encoding is not modelled). */
  datatype Content = Text(text: string) | Buffer(text: string)

  function Encode(text: string, encoding: Option<string>): (c: Content)
    ensures c.text == text
    ensures c.Text? <==> Truthy(encoding)
  {
    if Truthy(encoding) then Text(text) else Buffer(text)
  }

  /** Look the path up, then fetch it: an unset map throws, a missing or empty
      CID is `ENOENT` for `syscall`, and the cache is only touched by the
      fetch. */
  function Read(env: Env, cache: map<string, string>, path: string, syscall: string, sync: bool): (f: Fetched)
    ensures env.cidMap.None? ==> f == Fetched(Err(NoCidMap), cache)
    ensures env.cidMap.Some? && !Truthy(Lookup(env.cidMap.value, env.normalize(path))) ==>
              f == Fetched(Err(Enoent(syscall, path)), cache)
    ensures env.cidMap.Some? && Truthy(Lookup(env.cidMap.value, env.normalize(path))) ==>
              f == Fetch(env, cache, env.cidMap.value[env.normalize(path)], sync)
  {
    match GetCid(env, path)
    case Err(e) => Fetched(Err(e), cache)
    case Ok(cid) =>
      if !Truthy(cid) then Fetched(Err(Enoent(syscall, path)), cache)
      else Fetch(env, cache, cid.value, sync)
  }

  /** A path mapped to an empty CID exists for `existsSync`, yet reading it
      fails with `ENOENT`: the two tests differ (`!== undefined` against
      falsiness). */
  lemma EmptyCidExistsButIsMissing(env: Env, cache: map<string, string>, path: string)
    requires env.cidMap.Some? && env.normalize(path) in env.cidMap.value
    requires env.cidMap.value[env.normalize(path)] == ""
    ensures ExistsSync(env, path) == Ok(true)
    ensures Read(env, cache, path, "open", true).result == Err(Enoent("open", path))
  {
  }

  /** `s.length`: JavaScript counts UTF-16 code units, so a character
      beyond U+FFFF counts twice. */
  function Utf16Length(s: string): (n: nat)
    ensures |s| <= n <= 2 * |s|
    ensures (forall i :: 0 <= i < |s| ==> s[i] as int <= 0xFFFF) ==> n == |s|
  {
    if s == [] then 0
    else Utf16Length(s[..|s| - 1]) + (if s[|s| - 1] as int > 0xFFFF then 2 else 1)
  }

  /** The length of joined texts is the sum of their lengths. */
  lemma {:induction false} Utf16LengthAppend(a: string, b: string)
    ensures Utf16Length(a + b) == Utf16Length(a) + Utf16Length(b)
    decreases |b|
  {
    if b != [] {
      assert (a + b)[..|a + b| - 1] == a + b[..|b| - 1];
      Utf16LengthAppend(a, b[..|b| - 1]);
    } else {
      assert a + b == a;
    }
  }

  /** A character outside the Basic Multilingual Plane is two code units. */
  lemma AstralCharIsTwoUnits()
    ensures Utf16Length("\U{1F600}") == 2
  {
  }

  /** `createStats`: a regular file of the content's length, in 4096-byte
      blocks. `now` stands for `Date.now()` and also for the `Date` fields. */
  datatype Stats = Stats(
    isFile: bool, isDirectory: bool, isBlockDevice: bool, isCharacterDevice: bool,
    isSymbolicLink: bool, isFIFO: bool, isSocket: bool,
    dev: int, ino: int, mode: int, nlink: int, uid: int, gid: int, rdev: int,
    size: nat, blksize: int, blocks: nat,
    atimeMs: int, mtimeMs: int, ctimeMs: int, birthtimeMs: int)

  function CreateStats(content: string, now: int): (s: Stats)
    ensures s.isFile && !s.isDirectory && !s.isBlockDevice && !s.isCharacterDevice
    ensures !s.isSymbolicLink && !s.isFIFO && !s.isSocket
    ensures s.mode == 33188 && s.size == Utf16Length(content) && s.blksize == 4096
    ensures s.blocks * 4096 >= s.size && (s.blocks == 0 || (s.blocks - 1) * 4096 < s.size)
    ensures s.atimeMs == now && s.mtimeMs == now && s.ctimeMs == now && s.birthtimeMs == now
  {
    Stats(true, false, false, false, false, false, false,
          0, 0, 33188, 1, 0, 0, 0,
          Utf16Length(content), 4096, (Utf16Length(content) + 4095) / 4096,
          now, now, now, now)
  }

  /** `createReadStream`: the stream of the path's CID. The lookup errors are
      thrown at once; the content is fetched when the stream is read, which
      is not modelled. */
  function CreateReadStream(env: Env, path: string): (r: Result<string, FsError>)
    ensures env.cidMap.None? ==> r == Err(NoCidMap)
    ensures env.cidMap.Some? && !Truthy(Lookup(env.cidMap.value, env.normalize(path))) ==> r == Err(Enoent("open", path))
    ensures r.Ok? ==> env.cidMap.Some? && Lookup(env.cidMap.value, env.normalize(path)) == Some(r.value) && r.value != ""
  {
    match GetCid(env, path)
    case Err(e) => Err(e)
    case Ok(cid) => if !Truthy(cid) then Err(Enoent("open", path)) else Ok(cid.value)
  }

  /** How a callback was called: with an error, or with `null` and the data. */
  datatype Callback<D> = Failed(error: FsError) | Succeeded(data: D)

  /** `readFile`'s second argument: the options, or the callback itself. */
  datatype ReadFileArg = Options(encoding: Option<string>) | NoOptions | CallbackInstead

  function ArgEncoding(arg: ReadFileArg): Option<string> {
    if arg.Options? then arg.encoding else None
  }

  /** The polyfill module: its content cache and the globals it reads. */
  class Fs {
    const env: Env
    var cache: map<string, string>

    constructor (env: Env)
      ensures this.env == env && cache == map[]
    {
      this.env := env;
      cache := map[];
    }

    /** `fetchFromIPFSSync` */
    method FetchFromIpfsSync(cid: string) returns (r: Result<string, FsError>)
      modifies this
      ensures Fetched(r, cache) == Fetch(env, old(cache), cid, true)
    {
      if cid in cache {
        return Ok(cache[cid]);
      }
      var response := env.gateway(cid);
      if response.status == 200 {
        var content := response.text;
        cache := cache[cid := content];
        r := Ok(content);
      } else {
        r := Err(FetchFailed("Failed to fetch CID " + cid + ": " + IntToString(response.status) + " " +
                             response.statusText));
      }
    }

    /** `fetchFromIPFS` */
    method FetchFromIpfs(cid: string) returns (r: Result<string, FsError>)
      modifies this
      ensures Fetched(r, cache) == Fetch(env, old(cache), cid, false)
    {
      if cid in cache {
        return Ok(cache[cid]);
      }
      var response := env.gateway(cid);
      if !response.ok {
        return Err(FetchFailed("Failed to fetch CID " + cid));
      }
      var content := response.text;
      cache := cache[cid := content];
      r := Ok(content);
    }

    /** `readFile(path, options, callback)`: the lookup and fetch errors go to
        the callback; only an unset CID map is thrown (`Err`). */
    method ReadFile(path: string, options: ReadFileArg) returns (r: Result<Callback<Content>, FsError>)
      modifies this
      ensures var f := Read(env, old(cache), path, "open", true);
              cache == f.cache &&
              (f.result == Err(NoCidMap) ==> r == Err(NoCidMap)) &&
              (f.result.Err? && f.result != Err(NoCidMap) ==> r == Ok(Failed(f.result.error))) &&
              (f.result.Ok? ==> r == Ok(Succeeded(Encode(f.result.value, ArgEncoding(options)))))
    {
      var encoding := ArgEncoding(options);
      var cid := GetCid(env, path);
      if cid.Err? {
        return Err(cid.error);
      }
      if !Truthy(cid.value) {
        return Ok(Failed(Enoent("open", path)));
      }
      var content := FetchFromIpfsSync(cid.value.value);
      if content.Err? {
        r := Ok(Failed(content.error));
      } else {
        r := Ok(Succeeded(Encode(content.value, encoding)));
      }
    }

    /** `readFileSync(path, options)`: every error is thrown. */
    method ReadFileSync(path: string, encoding: Option<string>) returns (r: Result<Content, FsError>)
      modifies this
      ensures var f := Read(env, old(cache), path, "open", true);
              cache == f.cache &&
              (f.result.Err? ==> r == Err(f.result.error)) &&
              (f.result.Ok? ==> r == Ok(Encode(f.result.value, encoding)))
    {
      var cid := GetCid(env, path);
      if cid.Err? {
        return Err(cid.error);
      }
      if !Truthy(cid.value) {
        return Err(Enoent("open", path));
      }
      var content := FetchFromIpfsSync(cid.value.value);
      if content.Err? {
        return Err(content.error);
      }
      r := Ok(Encode(content.value, encoding));
    }

    /** `promises.readFile(path, options)`: as `readFileSync`, through the
        asynchronous fetch. */
    method ReadFilePromise(path: string, encoding: Option<string>) returns (r: Result<Content, FsError>)
      modifies this
      ensures var f := Read(env, old(cache), path, "open", false);
              cache == f.cache &&
              (f.result.Err? ==> r == Err(f.result.error)) &&
              (f.result.Ok? ==> r == Ok(Encode(f.result.value, encoding)))
    {
      var cid := GetCid(env, path);
      if cid.Err? {
        return Err(cid.error);
      }
      if !Truthy(cid.value) {
        return Err(Enoent("open", path));
      }
      var content := FetchFromIpfs(cid.value.value);
      if content.Err? {
        return Err(content.error);
      }
      r := Ok(Encode(content.value, encoding));
    }

    /** `stat(path, callback)`: errors other than an unset map go to the
        callback. */
    method Stat(path: string, now: int) returns (r: Result<Callback<Stats>, FsError>)
      modifies this
      ensures var f := Read(env, old(cache), path, "stat", true);
              cache == f.cache &&
              (f.result == Err(NoCidMap) ==> r == Err(NoCidMap)) &&
              (f.result.Err? && f.result != Err(NoCidMap) ==> r == Ok(Failed(f.result.error))) &&
              (f.result.Ok? ==> r == Ok(Succeeded(CreateStats(f.result.value, now))))
    {
      var cid := GetCid(env, path);
      if cid.Err? {
        return Err(cid.error);
      }
      if !Truthy(cid.value) {
        return Ok(Failed(Enoent("stat", path)));
      }
      var content := FetchFromIpfsSync(cid.value.value);
      if content.Err? {
        r := Ok(Failed(content.error));
      } else {
        r := Ok(Succeeded(CreateStats(content.value, now)));
      }
    }

    /** `statSync(path)` */
    method StatSync(path: string, now: int) returns (r: Result<Stats, FsError>)
      modifies this
      ensures var f := Read(env, old(cache), path, "stat", true);
              cache == f.cache &&
              (f.result.Err? ==> r == Err(f.result.error)) &&
              (f.result.Ok? ==> r == Ok(CreateStats(f.result.value, now)))
    {
      var cid := GetCid(env, path);
      if cid.Err? {
        return Err(cid.error);
      }
      if !Truthy(cid.value) {
        return Err(Enoent("stat", path));
      }
      var content := FetchFromIpfsSync(cid.value.value);
      if content.Err? {
        return Err(content.error);
      }
      r := Ok(CreateStats(content.value, now));
    }

    /** `promises.stat(path)` */
    method StatPromise(path: string, now: int) returns (r: Result<Stats, FsError>)
      modifies this
      ensures var f := Read(env, old(cache), path, "stat", false);
              cache == f.cache &&
              (f.result.Err? ==> r == Err(f.result.error)) &&
              (f.result.Ok? ==> r == Ok(CreateStats(f.result.value, now)))
    {
      var cid := GetCid(env, path);
      if cid.Err? {
        return Err(cid.error);
      }
      if !Truthy(cid.value) {
        return Err(Enoent("stat", path));
      }
      var content := FetchFromIpfs(cid.value.value);
      if content.Err? {
        return Err(content.error);
      }
      r := Ok(CreateStats(content.value, now));
    }
  }
}
