/** The IPFS-backed incremental cache: Redis maps each cache key to the CID
    of the content uploaded to IPFS, plus a `:lastModified` side key; the
    content itself is fetched from an IPFS gateway. Also the upload helpers
    whose logic is visible: the `retry` loop, the classification of a
    rejected upload response, and the fold that finds a stream's root CID
    and total size. The gateway, the uploader and `JSON.parse` are
    parameters. */
module IpfsCache {
  import opened Common
  import opened OpenNextTypes

  /** Which half of the cache an entry lives in. */
  datatype Extension = Fetch | Cache

  function ExtensionName(e: Extension): string {
    match e
    case Fetch => "fetch"
    case Cache => "cache"
  }

  /** `buildRedisKey`: an unset build id prints as `undefined`. */
  function BuildKey(buildId: Option<string>, ext: Extension, key: string): string {
    buildId.GetOr("undefined") + ":" + ExtensionName(ext) + ":" + key
  }

  /** Where an entry's timestamp is kept. */
  function TimestampKey(entryKey: string): string {
    entryKey + ":lastModified"
  }

  /** An entry key names its half of the cache at a fixed position, so entries
      of the two halves (and their timestamps) never share a key. */
  lemma HalvesAreDisjoint(buildId: Option<string>, k1: string, k2: string)
    ensures BuildKey(buildId, Cache, k1) != BuildKey(buildId, Fetch, k2)
    ensures TimestampKey(BuildKey(buildId, Cache, k1)) != BuildKey(buildId, Fetch, k2)
    ensures BuildKey(buildId, Cache, k1) != TimestampKey(BuildKey(buildId, Fetch, k2))
    ensures TimestampKey(BuildKey(buildId, Cache, k1)) != TimestampKey(BuildKey(buildId, Fetch, k2))
  {
    var n := |buildId.GetOr("undefined")| + 1;
    assert BuildKey(buildId, Cache, k1)[n] == 'c';
    assert TimestampKey(BuildKey(buildId, Cache, k1))[n] == 'c';
    assert BuildKey(buildId, Fetch, k2)[n] == 'f';
    assert TimestampKey(BuildKey(buildId, Fetch, k2))[n] == 'f';
  }

  /** An HTTP response as the cache reads it. */
  datatype Response = Response(status: int, ok: bool, text: string)

  /** A successful `get`: the parsed content and its timestamp (`None` is `NaN`). */
  datatype Entry<V> = Entry(value: V, lastModified: Option<int>)

  const GetPrefix: string := "Failed to get cache: "
  const SetPrefix: string := "Failed to set cache: "
  const DeletePrefix: string := "Failed to delete cache: "

  /** `get` over the Redis data `redis`: `fetch` answers a gateway request for a
      CID (or fails with an error text), `parse` is `JSON.parse`. Every failure
      becomes `Failed to get cache: <error>`. */
  function GetFrom<V>(redis: map<string, string>, buildId: Option<string>, key: string, isFetch: bool,
                      fetch: string -> Result<Response, string>, parse: string -> Result<V, string>, now: int)
    : (r: Result<Entry<V>, string>)
    ensures r.Err? ==> StartsWith(r.error, GetPrefix)
    ensures !Truthy(Lookup(redis, BuildKey(buildId, if isFetch then Fetch else Cache, key))) ==>
              r == Err(GetPrefix + "Error: Not found")
    ensures r.Ok? ==>
              var rk := BuildKey(buildId, if isFetch then Fetch else Cache, key);
              rk in redis && redis[rk] != "" && fetch(redis[rk]).Ok? && fetch(redis[rk]).value.ok &&
              parse(fetch(redis[rk]).value.text) == Ok(r.value.value) &&
              (Truthy(Lookup(redis, TimestampKey(rk))) ==> r.value.lastModified == ParseInt(redis[TimestampKey(rk)])) &&
              (!Truthy(Lookup(redis, TimestampKey(rk))) ==> r.value.lastModified == Some(now))
    ensures var rk := BuildKey(buildId, if isFetch then Fetch else Cache, key);
            Truthy(Lookup(redis, rk)) && fetch(redis[rk]).Err? ==> r == Err(GetPrefix + fetch(redis[rk]).error)
    ensures var rk := BuildKey(buildId, if isFetch then Fetch else Cache, key);
            Truthy(Lookup(redis, rk)) && fetch(redis[rk]).Ok? && !fetch(redis[rk]).value.ok ==>
              r == Err(GetPrefix + "Error: Failed to fetch content: " + IntToString(fetch(redis[rk]).value.status))
    ensures var rk := BuildKey(buildId, if isFetch then Fetch else Cache, key);
            Truthy(Lookup(redis, rk)) && fetch(redis[rk]).Ok? && fetch(redis[rk]).value.ok &&
            parse(fetch(redis[rk]).value.text).Err? ==>
              r == Err(GetPrefix + parse(fetch(redis[rk]).value.text).error)
    ensures var rk := BuildKey(buildId, if isFetch then Fetch else Cache, key);
            Truthy(Lookup(redis, rk)) && fetch(redis[rk]).Ok? && fetch(redis[rk]).value.ok &&
            parse(fetch(redis[rk]).value.text).Ok? ==>
              r.Ok?
  {
    var rk := BuildKey(buildId, if isFetch then Fetch else Cache, key);
    var cid := Lookup(redis, rk);
    if !Truthy(cid) then Err(GetPrefix + "Error: Not found")
    else
      match fetch(cid.value)
      case Err(e) => Err(GetPrefix + e)
      case Ok(response) =>
        if !response.ok then Err(GetPrefix + "Error: Failed to fetch content: " + IntToString(response.status))
        else
          match parse(response.text)
          case Err(e) => Err(GetPrefix + e)
          case Ok(v) =>
            var stamp := Lookup(redis, TimestampKey(rk));
            Ok(Entry(v, if Truthy(stamp) then ParseInt(stamp.value) else Some(now)))
  }

  /** The Redis data after `set` stored `cid` under `rk` at time `now`. */
  function SetStore(redis: map<string, string>, rk: string, cid: string, now: nat): map<string, string> {
    redis[rk := cid][TimestampKey(rk) := NatToString(now)]
  }

  /** The Redis data after `delete` removed `rk` and its timestamp. */
  function DeleteStore(redis: map<string, string>, rk: string): map<string, string> {
    redis - {rk, TimestampKey(rk)}
  }

  /** `set` followed by `get` of the same key and half reads back the content
      at the stored CID, stamped with the time of the `set`. */
  lemma GetAfterSet<V>(redis: map<string, string>, buildId: Option<string>, key: string, isFetch: bool, cid: string, now: nat,
                       fetch: string -> Result<Response, string>, parse: string -> Result<V, string>, later: int)
    requires cid != ""
    requires fetch(cid).Ok? && fetch(cid).value.ok && parse(fetch(cid).value.text).Ok?
    ensures var rk := BuildKey(buildId, if isFetch then Fetch else Cache, key);
            GetFrom(SetStore(redis, rk, cid, now), buildId, key, isFetch, fetch, parse, later) ==
            Ok(Entry(parse(fetch(cid).value.text).value, Some(now)))
  {
    var rk := BuildKey(buildId, if isFetch then Fetch else Cache, key);
    assert rk != TimestampKey(rk) by {
      assert |TimestampKey(rk)| > |rk|;
    }
    ParseIntOfNatToString(now);
  }

  /** A `set` whose second Redis write failed leaves the new CID beside the
      old timestamp: `get` then reads the new content with the time of an
      earlier `set` (or the time of the read when there was none). */
  lemma PartialSetKeepsOldTimestamp<V>(redis: map<string, string>, buildId: Option<string>, key: string, isFetch: bool,
                                       cid: string, fetch: string -> Result<Response, string>,
                                       parse: string -> Result<V, string>, later: int)
    requires cid != ""
    requires fetch(cid).Ok? && fetch(cid).value.ok && parse(fetch(cid).value.text).Ok?
    ensures var rk := BuildKey(buildId, if isFetch then Fetch else Cache, key);
            var stamp := Lookup(redis, TimestampKey(rk));
            GetFrom(redis[rk := cid], buildId, key, isFetch, fetch, parse, later) ==
            Ok(Entry(parse(fetch(cid).value.text).value, if Truthy(stamp) then ParseInt(stamp.value) else Some(later)))
  {
    var rk := BuildKey(buildId, if isFetch then Fetch else Cache, key);
    assert rk != TimestampKey(rk) by {
      assert |TimestampKey(rk)| > |rk|;
    }
    assert Lookup(redis[rk := cid], TimestampKey(rk)) == Lookup(redis, TimestampKey(rk));
  }

  /** `delete` makes `get` of the `cache` half fail with `Not found`, and
      leaves every `fetch` entry and its timestamp as they were. */
  lemma DeleteOnlyTouchesCacheHalf<V>(redis: map<string, string>, buildId: Option<string>, key: string, other: string,
                                      fetch: string -> Result<Response, string>, parse: string -> Result<V, string>, now: int)
    ensures var after := DeleteStore(redis, BuildKey(buildId, Cache, key));
            GetFrom(after, buildId, key, false, fetch, parse, now) == Err(GetPrefix + "Error: Not found")
    ensures var after := DeleteStore(redis, BuildKey(buildId, Cache, key));
            var fk := BuildKey(buildId, Fetch, other);
            Lookup(after, fk) == Lookup(redis, fk) && Lookup(after, TimestampKey(fk)) == Lookup(redis, TimestampKey(fk)) &&
            GetFrom(after, buildId, other, true, fetch, parse, now) == GetFrom(redis, buildId, other, true, fetch, parse, now)
  {
    HalvesAreDisjoint(buildId, key, other);
  }

  /** The cache object: the Redis data it reads and writes, and the build id
      it was loaded with. */
  class IncrementalCache {
    const buildId: Option<string>
    var redis: map<string, string>

    constructor (buildId: Option<string>, redis: map<string, string>)
      ensures this.buildId == buildId && this.redis == redis
    {
      this.buildId := buildId;
      this.redis := redis;
    }

    /** `get`, reading the object's Redis data. */
    function Get<V>(key: string, isFetch: bool, fetch: string -> Result<Response, string>,
                    parse: string -> Result<V, string>, now: int): (r: Result<Entry<V>, string>)
      reads this
      ensures r == GetFrom(redis, buildId, key, isFetch, fetch, parse, now)
    {
      GetFrom(redis, buildId, key, isFetch, fetch, parse, now)
    }

    /** `set`: `upload` is what uploading the serialised value gave, a CID or
        an error text; `cidWrite` and `stampWrite` are the outcomes of the two
        `redis.set` calls (an error text when Redis fails). The CID is stored
        first, then the time, so a failure of the second call leaves the new
        CID beside the old timestamp. */
    method Set(key: string, isFetch: bool, upload: Result<string, string>,
               cidWrite: Result<(), string>, stampWrite: Result<(), string>, now: nat) returns (r: Result<(), string>)
      modifies this
      ensures upload.Err? ==> r == Err(SetPrefix + upload.error) && redis == old(redis)
      ensures upload.Ok? && cidWrite.Err? ==> r == Err(SetPrefix + cidWrite.error) && redis == old(redis)
      ensures upload.Ok? && cidWrite.Ok? && stampWrite.Err? ==>
                r == Err(SetPrefix + stampWrite.error) &&
                redis == old(redis)[BuildKey(buildId, if isFetch then Fetch else Cache, key) := upload.value]
      ensures upload.Ok? && cidWrite.Ok? && stampWrite.Ok? ==>
                r == Ok(()) &&
                redis == SetStore(old(redis), BuildKey(buildId, if isFetch then Fetch else Cache, key), upload.value, now)
    {
      var rk := BuildKey(buildId, if isFetch then Fetch else Cache, key);
      if upload.Err? {
        return Err(SetPrefix + upload.error);
      }
      if cidWrite.Err? {
        return Err(SetPrefix + cidWrite.error);
      }
      redis := redis[rk := upload.value];
      if stampWrite.Err? {
        return Err(SetPrefix + stampWrite.error);
      }
      redis := redis[TimestampKey(rk) := NatToString(now)];
      r := Ok(());
    }

    /** `delete`: always the `cache` half, the entry and then its timestamp;
        `entryDel` and `stampDel` are the outcomes of the two `redis.del`
        calls. A failure of the second leaves the timestamp behind. */
    method Delete(key: string, entryDel: Result<(), string>, stampDel: Result<(), string>) returns (r: Result<(), string>)
      modifies this
      ensures entryDel.Err? ==> r == Err(DeletePrefix + entryDel.error) && redis == old(redis)
      ensures entryDel.Ok? && stampDel.Err? ==>
                r == Err(DeletePrefix + stampDel.error) && redis == old(redis) - {BuildKey(buildId, Cache, key)}
      ensures entryDel.Ok? && stampDel.Ok? ==>
                r == Ok(()) && redis == DeleteStore(old(redis), BuildKey(buildId, Cache, key))
    {
      var rk := BuildKey(buildId, Cache, key);
      if entryDel.Err? {
        return Err(DeletePrefix + entryDel.error);
      }
      redis := redis - {rk};
      if stampDel.Err? {
        return Err(DeletePrefix + stampDel.error);
      }
      redis := redis - {TimestampKey(rk)};
      r := Ok(());
    }
  }

  // ---------------------------------------------------------------------------
  // retry
  // ---------------------------------------------------------------------------

  /** `retry`: call `fn` until it succeeds or has failed `tries` times;
      `fn(n)` is the outcome of the `n`-th call. The wait between calls is not
      modelled. `calls` is how many calls were made. */
  method Retry<T>(fn: nat -> Result<T, string>, tries: int) returns (r: Result<T, string>, calls: nat)
    requires tries >= 1
    ensures 1 <= calls <= tries
    ensures r == fn(calls)
    ensures forall j :: 1 <= j < calls ==> fn(j).Err?
    ensures r.Err? ==> calls == tries
  {
    var n := 1;
    while true
      invariant 1 <= n <= tries
      invariant forall j :: 1 <= j < n ==> fn(j).Err?
      decreases tries - n
    {
      var outcome := fn(n);
      if outcome.Ok? {
        return outcome, n;
      }
      if n == tries {
        return outcome, n;
      }
      n := n + 1;
    }
  }

  // ---------------------------------------------------------------------------
  // fetchWithValidStatus
  // ---------------------------------------------------------------------------

  /** What the body of a `429` response gave: unreadable (not JSON, or
      without an `errors` list), an empty `errors` list, or a first error with
      this `code` (`""` when it has none). */
  datatype Body429 = Unreadable | NoFirstError | FirstError(code: string)

  /** The error `fetchWithValidStatus` throws for a response, `None` when the
      status is valid. An empty `errors` list makes reading `code` throw a
      `TypeError`. */
  function Classify(status: int, validStatuses: seq<int>, body: Body429): (r: Option<string>)
    ensures status in validStatuses <==> r.None?
    ensures status !in validStatuses && status != 429 ==> r == Some("StorageIpfsUploadFailedError")
    ensures r == Some("StorageUploadTotalSizeQuotaExceededError") <==>
              status !in validStatuses && status == 429 && body == FirstError("DailyUploadedTotalSizeQuotaExceeded")
    ensures r == Some("StorageUploadFileCountQuotaExceededError") <==>
              status !in validStatuses && status == 429 && body == FirstError("DailyUploadedFilesQuotaExceeded")
    ensures status !in validStatuses && status == 429 && body.Unreadable? ==> r == Some("Unknown")
    ensures status !in validStatuses && status == 429 && body.FirstError? &&
            body.code != "DailyUploadedTotalSizeQuotaExceeded" && body.code != "DailyUploadedFilesQuotaExceeded" ==>
              r == Some("Unknown")
    ensures status !in validStatuses && status == 429 && body.NoFirstError? ==> r == Some("TypeError")
  {
    if status in validStatuses then None
    else if status == 429 then
      match body
      case Unreadable => Some("Unknown")
      case NoFirstError => Some("TypeError")
      case FirstError(code) =>
        if code == "DailyUploadedTotalSizeQuotaExceeded" then Some("StorageUploadTotalSizeQuotaExceededError")
        else if code == "DailyUploadedFilesQuotaExceeded" then Some("StorageUploadFileCountQuotaExceededError")
        else Some("Unknown")
    else Some("StorageIpfsUploadFailedError")
  }

  // ---------------------------------------------------------------------------
  // getStreamCidAndTotalSize
  // ---------------------------------------------------------------------------

  /** One CAR shard of an encoded file: its first root, if any, and its size. */
  datatype Shard = Shard(root: Option<string>, size: nat)

  function TotalSize(shards: seq<Shard>): nat
    decreases |shards|
  {
    if shards == [] then 0 else TotalSize(shards[..|shards| - 1]) + shards[|shards| - 1].size
  }

  /** The root of the last shard that has one. */
  function LastRoot(shards: seq<Shard>): (r: Option<string>)
    ensures r.Some? ==>
              exists i :: 0 <= i < |shards| && shards[i].root == r &&
                          forall j :: i < j < |shards| ==> shards[j].root.None?
    ensures r.None? ==> forall i :: 0 <= i < |shards| ==> shards[i].root.None?
    decreases |shards|
  {
    if shards == [] then None
    else if shards[|shards| - 1].root.Some? then shards[|shards| - 1].root
    else LastRoot(shards[..|shards| - 1])
  }

  /** Shards after the last one with a root do not change it. */
  lemma {:induction false} LastRootIgnoresRootlessTail(shards: seq<Shard>, tail: seq<Shard>)
    requires forall i :: 0 <= i < |tail| ==> tail[i].root.None?
    ensures LastRoot(shards + tail) == LastRoot(shards)
    decreases |tail|
  {
    if tail == [] {
      assert shards + tail == shards;
    } else {
      var n := |tail| - 1;
      assert (shards + tail)[..|shards + tail| - 1] == shards + tail[..n];
      LastRootIgnoresRootlessTail(shards, tail[..n]);
    }
  }

  lemma {:induction false} TotalSizeAppend(a: seq<Shard>, b: seq<Shard>)
    ensures TotalSize(a + b) == TotalSize(a) + TotalSize(b)
    decreases |b|
  {
    if b == [] {
      assert a + b == a;
    } else {
      var n := |b| - 1;
      assert (a + b)[..|a + b| - 1] == a + b[..n];
      TotalSizeAppend(a, b[..n]);
    }
  }

  /** `getStreamCidAndTotalSize`: the last root and the sum of the sizes; no
      root at all throws. */
  method StreamCidAndTotalSize(shards: seq<Shard>) returns (r: Result<(string, nat), string>)
    ensures !Truthy(LastRoot(shards)) ==> r == Err("StorageIpfsUploadFailedError")
    ensures Truthy(LastRoot(shards)) ==> r == Ok((LastRoot(shards).value, TotalSize(shards)))
  {
    var totalSize: nat := 0;
    var cid: Option<string> := None;
    var i := 0;
    while i < |shards|
      invariant 0 <= i <= |shards|
      invariant totalSize == TotalSize(shards[..i])
      invariant cid == LastRoot(shards[..i])
    {
      assert shards[..i + 1][..i] == shards[..i];
      if shards[i].root.Some? {
        cid := shards[i].root;
      }
      totalSize := totalSize + shards[i].size;
      i := i + 1;
    }
    assert shards[..i] == shards;
    if !Truthy(cid) {
      return Err("StorageIpfsUploadFailedError");
    }
    r := Ok((cid.value, totalSize));
  }
}
