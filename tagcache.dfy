/** The Upstash tag cache: a two-way relation between page paths and cache
    tags, kept as Redis sets, plus a per-path `revalidated` watermark that
    forces a cached page stale. Redis is modelled as the `Upstash` object's
    two maps; whether a Redis call succeeds, and the clock, are parameters. */
module TagCache {
  import opened Common

  /** A record's `revalidatedAt`: absent, `NaN` (an unparsable number), or a
      number of milliseconds. */
  datatype Stamp = Undefined | NotANumber | Millis(ms: int)

  datatype TagRecord = TagRecord(path: string, tag: string, revalidatedAt: Stamp)

  /** The Redis data: string sets, and stored numbers. A stored `None` is a
      value that reads back as `null` (what a `NaN` becomes on the wire). */
  datatype Store = Store(sets: map<string, set<string>>, values: map<string, Option<int>>)

  /** One queued pipeline command. */
  datatype Command = SAdd(key: string, member: string) | Put(key: string, value: Option<int>)

  // ---------------------------------------------------------------------------
  // Keys
  // ---------------------------------------------------------------------------

  /** `buildRedisKey`: the build id (empty when unset), a colon, the key. */
  function BuildRedisKey(buildId: Option<string>, key: string): string {
    buildId.GetOr("") + ":" + key
  }

  function PathKey(buildId: Option<string>, path: string): string {
    BuildRedisKey(buildId, "path:" + path)
  }

  function TagKey(buildId: Option<string>, tag: string): string {
    BuildRedisKey(buildId, "tag:" + tag)
  }

  function RevalidatedKey(buildId: Option<string>, path: string): string {
    BuildRedisKey(buildId, "revalidated:" + path)
  }

  /** The three key spaces never meet, and within each the key determines the
      path or tag it was built from. */
  lemma KeySpaces(buildId: Option<string>, p: string, q: string)
    ensures PathKey(buildId, p) != TagKey(buildId, q)
    ensures PathKey(buildId, p) != RevalidatedKey(buildId, q)
    ensures TagKey(buildId, p) != RevalidatedKey(buildId, q)
    ensures PathKey(buildId, p) == PathKey(buildId, q) ==> p == q
    ensures TagKey(buildId, p) == TagKey(buildId, q) ==> p == q
    ensures RevalidatedKey(buildId, p) == RevalidatedKey(buildId, q) ==> p == q
  {
    var n := |buildId.GetOr("")| + 1;
    assert PathKey(buildId, p)[n] == 'p';
    assert TagKey(buildId, p)[n] == 't';
    assert TagKey(buildId, q)[n] == 't';
    assert RevalidatedKey(buildId, q)[n] == 'r';
    if PathKey(buildId, p) == PathKey(buildId, q) {
      assert p == PathKey(buildId, p)[n + 5..];
    }
    if TagKey(buildId, p) == TagKey(buildId, q) {
      assert p == TagKey(buildId, p)[n + 4..];
    }
    if RevalidatedKey(buildId, p) == RevalidatedKey(buildId, q) {
      assert p == RevalidatedKey(buildId, p)[n + 12..];
    }
  }

  /** What is cut from each returned member: the first occurrence of the build
      id and a colon, where an unset build id prints as `undefined`. */
  function Strip(buildId: Option<string>, member: string): string {
    ReplaceFirst(member, buildId.GetOr("undefined") + ":", "")
  }

  /** A member that does not contain that text is returned as it is. */
  lemma StripKeepsPlainMember(buildId: Option<string>, member: string)
    requires !Occurs(member, buildId.GetOr("undefined") + ":")
    ensures Strip(buildId, member) == member
  {
    ReplaceFirstWithoutOccurrence(member, buildId.GetOr("undefined") + ":", "");
  }

  // ---------------------------------------------------------------------------
  // The store and the pipeline
  // ---------------------------------------------------------------------------

  /** `SMEMBERS key`: the empty set for a missing key. */
  function Members(st: Store, key: string): set<string> {
    if key in st.sets then st.sets[key] else {}
  }

  function Apply(st: Store, c: Command): Store {
    match c
    case SAdd(k, m) => st.(sets := st.sets[k := Members(st, k) + {m}])
    case Put(k, v) => st.(values := st.values[k := v])
  }

  /** The store after running `cmds` in order. */
  function ApplyAll(st: Store, cmds: seq<Command>): Store
    decreases |cmds|
  {
    if cmds == [] then st else Apply(ApplyAll(st, cmds[..|cmds| - 1]), cmds[|cmds| - 1])
  }

  /** The members some `SADD` of `cmds` adds to `key`. */
  function Added(cmds: seq<Command>, key: string): set<string>
    decreases |cmds|
  {
    if cmds == [] then {}
    else
      var c := cmds[|cmds| - 1];
      Added(cmds[..|cmds| - 1], key) + (if c.SAdd? && c.key == key then {c.member} else {})
  }

  predicate AddsTo(cmds: seq<Command>, key: string) {
    exists i :: 0 <= i < |cmds| && cmds[i].SAdd? && cmds[i].key == key
  }

  /** The value of the last `SET` of `key` in `cmds`, if any. */
  function LastPut(cmds: seq<Command>, key: string): Option<Option<int>>
    decreases |cmds|
  {
    if cmds == [] then None
    else
      var c := cmds[|cmds| - 1];
      if c.Put? && c.key == key then Some(c.value) else LastPut(cmds[..|cmds| - 1], key)
  }

  /** Running a pipeline only adds set members, and leaves each number at the
      value of the last `SET` of its key, or untouched when there is none. */
  lemma {:induction false} ApplyAllEffect(st: Store, cmds: seq<Command>, key: string)
    ensures key in ApplyAll(st, cmds).sets <==> key in st.sets || AddsTo(cmds, key)
    ensures Members(ApplyAll(st, cmds), key) == Members(st, key) + Added(cmds, key)
    ensures key in ApplyAll(st, cmds).values <==> key in st.values || LastPut(cmds, key).Some?
    ensures LastPut(cmds, key).Some? ==> ApplyAll(st, cmds).values[key] == LastPut(cmds, key).value
    ensures LastPut(cmds, key).None? && key in st.values ==> ApplyAll(st, cmds).values[key] == st.values[key]
    decreases |cmds|
  {
    if cmds != [] {
      var n := |cmds| - 1;
      ApplyAllEffect(st, cmds[..n], key);
      if AddsTo(cmds, key) && !AddsTo(cmds[..n], key) {
        var i :| 0 <= i < |cmds| && cmds[i].SAdd? && cmds[i].key == key;
        assert i == n;
      }
      if AddsTo(cmds[..n], key) {
        var i :| 0 <= i < n && cmds[..n][i].SAdd? && cmds[..n][i].key == key;
        assert cmds[i] == cmds[..n][i];
      }
    }
  }

  lemma LastPutAppend(a: seq<Command>, b: seq<Command>, key: string)
    ensures LastPut(a + b, key) == if LastPut(b, key).Some? then LastPut(b, key) else LastPut(a, key)
    decreases |b|
  {
    if b != [] {
      var n := |b| - 1;
      assert (a + b)[..|a + b| - 1] == a + b[..n];
      LastPutAppend(a, b[..n], key);
    } else {
      assert a + b == a;
    }
  }

  lemma AddedAppend(a: seq<Command>, b: seq<Command>, key: string)
    ensures Added(a + b, key) == Added(a, key) + Added(b, key)
    decreases |b|
  {
    if b != [] {
      var n := |b| - 1;
      assert (a + b)[..|a + b| - 1] == a + b[..n];
      AddedAppend(a, b[..n], key);
    } else {
      assert a + b == a;
    }
  }

  // ---------------------------------------------------------------------------
  // writeTags
  // ---------------------------------------------------------------------------

  /** `revalidatedAt ?? Date.now()` as it reaches Redis. */
  function StampValue(s: Stamp, now: int): Option<int> {
    match s
    case Undefined => Some(now)
    case NotANumber => None
    case Millis(v) => Some(v)
  }

  /** The three commands one record queues. */
  function RecordCommands(buildId: Option<string>, rec: TagRecord, now: int): seq<Command> {
    [SAdd(PathKey(buildId, rec.path), rec.tag),
     SAdd(TagKey(buildId, rec.tag), rec.path),
     Put(RevalidatedKey(buildId, rec.path), StampValue(rec.revalidatedAt, now))]
  }

  /** The whole pipeline `writeTags` queues for `records`. */
  function Pipeline(buildId: Option<string>, records: seq<TagRecord>, now: int): seq<Command>
    decreases |records|
  {
    if records == [] then []
    else Pipeline(buildId, records[..|records| - 1], now) + RecordCommands(buildId, records[|records| - 1], now)
  }

  /** The watermark the last record for `path` carries, if any record names it. */
  function LastStamp(records: seq<TagRecord>, path: string, now: int): Option<Option<int>>
    decreases |records|
  {
    if records == [] then None
    else if records[|records| - 1].path == path then Some(StampValue(records[|records| - 1].revalidatedAt, now))
    else LastStamp(records[..|records| - 1], path, now)
  }

  /** The last `SET` of a path's watermark key comes from the last record for
      that path. */
  lemma {:induction false} PipelineLastPut(buildId: Option<string>, records: seq<TagRecord>, path: string, now: int)
    ensures LastPut(Pipeline(buildId, records, now), RevalidatedKey(buildId, path)) == LastStamp(records, path, now)
    decreases |records|
  {
    if records != [] {
      var n := |records| - 1;
      var key := RevalidatedKey(buildId, path);
      PipelineLastPut(buildId, records[..n], path, now);
      var tail := RecordCommands(buildId, records[n], now);
      LastPutAppend(Pipeline(buildId, records[..n], now), tail, key);
      KeySpaces(buildId, records[n].path, path);
      KeySpaces(buildId, records[n].tag, path);
      assert tail[..2][..1] == tail[..1];
      assert tail[..1][..0] == [];
      assert LastPut(tail[..1], key) == None;
      assert LastPut(tail[..2], key) == None;
      assert LastPut(tail, key) == if records[n].path == path then Some(StampValue(records[n].revalidatedAt, now)) else None;
    }
  }

  /** What the two `SADD`s of one record add to `key`. */
  lemma RecordAdds(buildId: Option<string>, rec: TagRecord, now: int, key: string)
    ensures Added(RecordCommands(buildId, rec, now), key) ==
            (if PathKey(buildId, rec.path) == key then {rec.tag} else {}) +
            (if TagKey(buildId, rec.tag) == key then {rec.path} else {})
  {
    var tail := RecordCommands(buildId, rec, now);
    assert tail[..2][..1] == tail[..1];
    assert tail[..1][..0] == [];
    assert Added(tail[..1], key) == if PathKey(buildId, rec.path) == key then {rec.tag} else {};
    assert Added(tail[..2], key) == Added(tail[..1], key) + (if TagKey(buildId, rec.tag) == key then {rec.path} else {});
    assert Added(tail, key) == Added(tail[..2], key);
  }

  /** Tags of the records for `path`, split at the last record. */
  lemma TagsOfSnoc(records: seq<TagRecord>, path: string)
    requires records != []
    ensures var n := |records| - 1;
            (set i | 0 <= i < |records| && records[i].path == path :: records[i].tag) ==
            (set i | 0 <= i < n && records[..n][i].path == path :: records[..n][i].tag) +
            (if records[n].path == path then {records[n].tag} else {})
  {
    var n := |records| - 1;
    assert (set i | 0 <= i < n && records[..n][i].path == path :: records[..n][i].tag) ==
           (set i | 0 <= i < n && records[i].path == path :: records[i].tag);
  }

  /** Paths of the records for `tag`, split at the last record. */
  lemma PathsOfSnoc(records: seq<TagRecord>, tag: string)
    requires records != []
    ensures var n := |records| - 1;
            (set i | 0 <= i < |records| && records[i].tag == tag :: records[i].path) ==
            (set i | 0 <= i < n && records[..n][i].tag == tag :: records[..n][i].path) +
            (if records[n].tag == tag then {records[n].path} else {})
  {
    var n := |records| - 1;
    assert (set i | 0 <= i < n && records[..n][i].tag == tag :: records[..n][i].path) ==
           (set i | 0 <= i < n && records[i].tag == tag :: records[i].path);
  }

  /** The members a pipeline adds to a path's set are the tags of the records
      for that path. */
  lemma {:induction false} PipelineAddsToPath(buildId: Option<string>, records: seq<TagRecord>, path: string, now: int)
    ensures Added(Pipeline(buildId, records, now), PathKey(buildId, path)) ==
            set i | 0 <= i < |records| && records[i].path == path :: records[i].tag
    decreases |records|
  {
    if records != [] {
      var n := |records| - 1;
      var key := PathKey(buildId, path);
      PipelineAddsToPath(buildId, records[..n], path, now);
      AddedAppend(Pipeline(buildId, records[..n], now), RecordCommands(buildId, records[n], now), key);
      RecordAdds(buildId, records[n], now, key);
      KeySpaces(buildId, records[n].path, path);
      KeySpaces(buildId, path, records[n].tag);
      TagsOfSnoc(records, path);
    }
  }

  /** The members a pipeline adds to a tag's set are the paths of the records
      for that tag. */
  lemma {:induction false} PipelineAddsToTag(buildId: Option<string>, records: seq<TagRecord>, tag: string, now: int)
    ensures Added(Pipeline(buildId, records, now), TagKey(buildId, tag)) ==
            set i | 0 <= i < |records| && records[i].tag == tag :: records[i].path
    decreases |records|
  {
    if records != [] {
      var n := |records| - 1;
      var key := TagKey(buildId, tag);
      PipelineAddsToTag(buildId, records[..n], tag, now);
      AddedAppend(Pipeline(buildId, records[..n], now), RecordCommands(buildId, records[n], now), key);
      RecordAdds(buildId, records[n], now, key);
      KeySpaces(buildId, records[n].path, tag);
      KeySpaces(buildId, records[n].tag, tag);
      PathsOfSnoc(records, tag);
    }
  }

  /** Running the same pipeline twice leaves the store as running it once. */
  lemma ApplyAllIdempotent(st: Store, cmds: seq<Command>)
    ensures ApplyAll(ApplyAll(st, cmds), cmds) == ApplyAll(st, cmds)
  {
    var once := ApplyAll(st, cmds);
    var twice := ApplyAll(once, cmds);
    forall k | true
      ensures (k in twice.sets <==> k in once.sets) && Members(twice, k) == Members(once, k)
      ensures (k in twice.values <==> k in once.values) && (k in once.values ==> twice.values[k] == once.values[k])
    {
      ApplyAllEffect(st, cmds, k);
      ApplyAllEffect(once, cmds, k);
    }
    assert twice.sets == once.sets;
    assert twice.values == once.values;
  }

  // ---------------------------------------------------------------------------
  // The cache object
  // ---------------------------------------------------------------------------

  /** `tagCache` bound to its Redis database and the `NEXT_BUILD_ID` it was
      loaded with. */
  class Upstash {
    const buildId: Option<string>
    var sets: map<string, set<string>>
    var values: map<string, Option<int>>

    constructor (buildId: Option<string>, st: Store)
      ensures this.buildId == buildId && sets == st.sets && values == st.values
    {
      this.buildId := buildId;
      sets := st.sets;
      values := st.values;
    }

    function State(): Store
      reads this
    {
      Store(sets, values)
    }

    /** `getByPath`: the tags stored for `path`, each stripped of the build
        id; `{}` when Redis fails (`up` false). */
    function GetByPath(path: string, up: bool): (r: set<string>)
      reads this
      ensures !up ==> r == {}
      ensures up ==> forall m :: m in Members(State(), PathKey(buildId, path)) ==> Strip(buildId, m) in r
      ensures forall x :: x in r ==> exists m :: m in Members(State(), PathKey(buildId, path)) && x == Strip(buildId, m)
    {
      if !up then {} else set m | m in Members(State(), PathKey(buildId, path)) :: Strip(buildId, m)
    }

    /** `getByTag`: the paths stored for `tag`, each stripped of the build id;
        `{}` when Redis fails. */
    function GetByTag(tag: string, up: bool): (r: set<string>)
      reads this
      ensures !up ==> r == {}
      ensures up ==> forall m :: m in Members(State(), TagKey(buildId, tag)) ==> Strip(buildId, m) in r
      ensures forall x :: x in r ==> exists m :: m in Members(State(), TagKey(buildId, tag)) && x == Strip(buildId, m)
    {
      if !up then {} else set m | m in Members(State(), TagKey(buildId, tag)) :: Strip(buildId, m)
    }

    /** The stored watermark for `key` is truthy and later than
        `lastModified ?? 0`. */
    predicate ForcedStale(key: string, lastModified: Option<int>)
      reads this
    {
      var k := RevalidatedKey(buildId, key);
      k in values && values[k].Some? && values[k].value != 0 && values[k].value > lastModified.GetOr(0)
    }

    /** `getLastModified`: `-1` (stale) when the stored watermark is truthy and
        later than `lastModified ?? 0`, otherwise `lastModified ?? now`. */
    function GetLastModified(key: string, lastModified: Option<int>, now: int, up: bool): (r: int)
      reads this
      ensures r == -1 || r == lastModified.GetOr(now)
      ensures !up ==> r == lastModified.GetOr(now)
      ensures up && ForcedStale(key, lastModified) ==> r == -1
      ensures !(up && ForcedStale(key, lastModified)) ==> r == lastModified.GetOr(now)
    {
      var k := RevalidatedKey(buildId, key);
      var revalidatedAt := if up && k in values then values[k] else None;
      if revalidatedAt.Some? && revalidatedAt.value != 0 && revalidatedAt.value > lastModified.GetOr(0) then -1
      else lastModified.GetOr(now)
    }

    /** `writeTags`: queue three commands per record, then execute the
        pipeline once. When Redis fails the error is swallowed and the store
        is unchanged. */
    method WriteTags(records: seq<TagRecord>, now: int, up: bool)
      modifies this
      ensures up ==> State() == ApplyAll(old(State()), Pipeline(buildId, records, now))
      ensures !up ==> State() == old(State())
    {
      var pipeline: seq<Command> := [];
      var i := 0;
      while i < |records|
        invariant 0 <= i <= |records|
        invariant pipeline == Pipeline(buildId, records[..i], now)
      {
        assert records[..i + 1][..i] == records[..i];
        pipeline := pipeline + RecordCommands(buildId, records[i], now);
        i := i + 1;
      }
      assert records[..i] == records;
      if up {
        Exec(pipeline);
      }
    }

    /** `pipeline.exec()`: run the queued commands in order. */
    method Exec(cmds: seq<Command>)
      modifies this
      ensures State() == ApplyAll(old(State()), cmds)
    {
      ghost var start := State();
      var j := 0;
      while j < |cmds|
        invariant 0 <= j <= |cmds|
        invariant State() == ApplyAll(start, cmds[..j])
      {
        assert cmds[..j + 1][..j] == cmds[..j];
        match cmds[j] {
          case SAdd(k, m) =>
            sets := sets[k := (if k in sets then sets[k] else {}) + {m}];
          case Put(k, v) =>
            values := values[k := v];
        }
        j := j + 1;
      }
      assert cmds[..j] == cmds;
    }
  }

  // ---------------------------------------------------------------------------
  // What a write means for later reads
  // ---------------------------------------------------------------------------

  /** After a write, every record's tag is a member of its path's Redis set and
      its path is a member of its tag's set. */
  lemma WriteThenRead(buildId: Option<string>, st: Store, records: seq<TagRecord>, now: int, i: int)
    requires 0 <= i < |records|
    ensures var after := ApplyAll(st, Pipeline(buildId, records, now));
            records[i].tag in Members(after, PathKey(buildId, records[i].path)) &&
            records[i].path in Members(after, TagKey(buildId, records[i].tag))
  {
    var cmds := Pipeline(buildId, records, now);
    ApplyAllEffect(st, cmds, PathKey(buildId, records[i].path));
    ApplyAllEffect(st, cmds, TagKey(buildId, records[i].tag));
    PipelineAddsToPath(buildId, records, records[i].path, now);
    PipelineAddsToTag(buildId, records, records[i].tag, now);
  }

  /** `writeTags` and then `getByPath`/`getByTag`, with Redis up: the object
      holds the store `WriteTags` leaves, and each record's tag is returned for
      its path (its path for its tag) unless it contains `<build id>:`, the text
      the getters cut out. */
  lemma WriteThenGet(c: Upstash, st: Store, records: seq<TagRecord>, now: int, i: int)
    requires 0 <= i < |records|
    requires c.State() == ApplyAll(st, Pipeline(c.buildId, records, now))
    ensures !Occurs(records[i].tag, c.buildId.GetOr("undefined") + ":") ==>
              records[i].tag in c.GetByPath(records[i].path, true)
    ensures !Occurs(records[i].path, c.buildId.GetOr("undefined") + ":") ==>
              records[i].path in c.GetByTag(records[i].tag, true)
  {
    WriteThenRead(c.buildId, st, records, now, i);
    if !Occurs(records[i].tag, c.buildId.GetOr("undefined") + ":") {
      StripKeepsPlainMember(c.buildId, records[i].tag);
    }
    if !Occurs(records[i].path, c.buildId.GetOr("undefined") + ":") {
      StripKeepsPlainMember(c.buildId, records[i].path);
    }
  }

  /** A tag that starts with `<build id>:` does not come back as written: on
      build `b`, a fresh store given the tag `b:t` for `/p` returns `t`. */
  lemma TagWithBuildIdComesBackChanged(c: Upstash, now: int)
    requires c.buildId == Some("b")
    requires c.State() == ApplyAll(Store(map[], map[]), Pipeline(Some("b"), [TagRecord("/p", "b:t", Undefined)], now))
    ensures c.GetByPath("/p", true) == {"t"}
    ensures "b:t" !in c.GetByPath("/p", true)
  {
    var recs := [TagRecord("/p", "b:t", Undefined)];
    WriteSetsExactly(Some("b"), Store(map[], map[]), recs, now, "/p", "b:t");
    assert (set i | 0 <= i < |recs| && recs[i].path == "/p" :: recs[i].tag) == {"b:t"} by {
      assert recs[0].path == "/p";
    }
    assert Members(c.State(), PathKey(c.buildId, "/p")) == {"b:t"};
    assert Strip(Some("b"), "b:t") == "t" by {
      assert StartsWith("b:t", "b:");
    }
  }

  /** A path's tag set after a write is exactly what it held before plus the
      tags of the records for that path; likewise for a tag's path set. */
  lemma WriteSetsExactly(buildId: Option<string>, st: Store, records: seq<TagRecord>, now: int, path: string, tag: string)
    ensures var after := ApplyAll(st, Pipeline(buildId, records, now));
            Members(after, PathKey(buildId, path)) ==
              Members(st, PathKey(buildId, path)) + set i | 0 <= i < |records| && records[i].path == path :: records[i].tag
    ensures var after := ApplyAll(st, Pipeline(buildId, records, now));
            Members(after, TagKey(buildId, tag)) ==
              Members(st, TagKey(buildId, tag)) + set i | 0 <= i < |records| && records[i].tag == tag :: records[i].path
  {
    var cmds := Pipeline(buildId, records, now);
    ApplyAllEffect(st, cmds, PathKey(buildId, path));
    ApplyAllEffect(st, cmds, TagKey(buildId, tag));
    PipelineAddsToPath(buildId, records, path, now);
    PipelineAddsToTag(buildId, records, tag, now);
  }

  /** A path's watermark after a write is that of the last record for the path
      (a plain overwrite, which may lower it); without such a record it is
      untouched. */
  lemma WriteWatermark(buildId: Option<string>, st: Store, records: seq<TagRecord>, now: int, path: string)
    ensures var after := ApplyAll(st, Pipeline(buildId, records, now));
            var k := RevalidatedKey(buildId, path);
            (LastStamp(records, path, now).Some? ==> k in after.values && after.values[k] == LastStamp(records, path, now).value) &&
            (LastStamp(records, path, now).None? ==>
               (k in after.values <==> k in st.values) && (k in st.values ==> after.values[k] == st.values[k]))
  {
    var cmds := Pipeline(buildId, records, now);
    ApplyAllEffect(st, cmds, RevalidatedKey(buildId, path));
    PipelineLastPut(buildId, records, path, now);
  }

  /** A later record lowers the watermark: writing 5 and then 3 for one path
      leaves 3. */
  lemma WatermarkMayDecrease(buildId: Option<string>, st: Store, path: string, now: int)
    ensures var recs := [TagRecord(path, "a", Millis(5)), TagRecord(path, "b", Millis(3))];
            ApplyAll(st, Pipeline(buildId, recs, now)).values[RevalidatedKey(buildId, path)] == Some(3)
  {
    var recs := [TagRecord(path, "a", Millis(5)), TagRecord(path, "b", Millis(3))];
    WriteWatermark(buildId, st, recs, now, path);
  }

  /** Writing the same records twice leaves the store as writing them once. */
  lemma WriteTagsIdempotent(buildId: Option<string>, st: Store, records: seq<TagRecord>, now: int)
    ensures var p := Pipeline(buildId, records, now);
            ApplyAll(ApplyAll(st, p), p) == ApplyAll(st, p)
  {
    ApplyAllIdempotent(st, Pipeline(buildId, records, now));
  }

  /** A page whose last written watermark is a positive time later than the
      page's own `lastModified` is reported stale, and one whose watermark is
      not later is not. */
  lemma StaleAfterRevalidation(c: Upstash, path: string, v: int, lastModified: int, now: int)
    requires RevalidatedKey(c.buildId, path) in c.values
    requires c.values[RevalidatedKey(c.buildId, path)] == Some(v)
    ensures v != 0 && v > lastModified ==> c.GetLastModified(path, Some(lastModified), now, true) == -1
    ensures v <= lastModified ==> c.GetLastModified(path, Some(lastModified), now, true) == lastModified
  {
  }
}
