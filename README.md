# open-next: routing, cache bookkeeping and adapters, in Dafny

open-next packages a Next.js build so that it can run outside Vercel. A host
event (an API Gateway v2 event, a Fleek request) is converted into one
`InternalEvent`. The routing layer then decides whether that event is
rewritten, redirected, or turned into a 404. It also decides which configured
headers the event carries. Behind the server sit two caches:

- a tag index, which maps paths to tags and records when each path was last
  revalidated;
- an incremental cache, which keeps IPFS content ids under build-namespaced
  Redis keys.

The edge runtime gets its own pieces: polyfills of `async_hooks` and `fs`, a
handler that selects an edge route, and an adapter that calls the bundled
middleware. Around these sit smaller parts:

- the image-optimization adapter;
- the Prebundled-React switch;
- the DynamoDB tag seeding;
- the `open-next build` command line;
- two loggers.

This project models each of those pieces as one Dafny module:

| module | file | models |
|---|---|---|
| `Common` | common.dfy | shared helpers: `Option`/`Result`, prefix and suffix tests, ASCII lower-casing, split/join, decimal printing and `parseInt`, and last-write-wins map filling |
| `OpenNextTypes` | types.dfy | `InternalEvent`, `InternalResult`, query and header values, and JavaScript truthiness of optional strings |
| `Matcher` | matcher.dfy | `core/routing/matcher.ts` |
| `TagCache` | tagcache.dfy | `cache/tag/upstash.ts` |
| `IpfsCache` | ipfs.dfy | `cache/incremental/ipfs.ts` |
| `AsyncHooks` | asynchooks.dfy | `build/edge/polyfill/async_hooks.js` |
| `FsPolyfill` | fs.dfy | `build/edge/polyfill/fs.js` |
| `ApiGatewayV2` | apigw.dfy | `converters/aws-apigw-v2.ts` |
| `FleekConverter` | fleek.dfy | `converters/fleek.ts` |
| `EdgeAdapter` | edgeadapter.dfy | `adapters/edge-adapter.ts` |
| `EdgeFunctionHandler` | edgehandler.dfy | `core/edgeFunctionHandler.ts` |
| `PrebundledReact` | prebundled.dfy | `setNextjsPrebundledReact` in `core/util.ts` |
| `DynamoProvider` | dynamo.dfy | `adapters/dynamo-provider.ts` |
| `ImageOptimization` | image.dfy | `adapters/image-optimization-adapter.ts` |
| `Cli` | cli.dfy | `index.ts` |
| `BuildLogger` | logger.dfy | `logger.ts` |
| `AdapterLogger` | adapterlogger.dfy | `adapters/logger.ts` |

Some things the code calls are never interpreted here. Each becomes a field of
function type in a `Lib` or `Env` value that the operations receive as a
parameter:

- regular expressions;
- `path-to-regexp` `match` and `compile`;
- the routing helpers (`escapeRegex`, `getUrlParts`, `isExternal`,
  `convertToQueryString`);
- URL parsing, `path.normalize`, JSON parsing and `parseCookies`;
- the Next.js image optimizer;
- the bundled middleware and edge entries.

Redis and the IPFS gateway are maps. The clock (`Date.now()`) is an explicit
`now` argument.

Code that updates state step by step takes the imperative form, as a class or
a method with a loop. This covers:

- the Upstash client;
- the incremental cache;
- `AsyncLocalStorage`;
- the `fs` content cache;
- the header-filling loops of the converters and the edge adapter;
- the `parseArgs` reduce;
- `retry`;
- the shard fold;
- the build logger's level;
- `process.env`.

Each such method is proved against a specification function. The properties
the code promises are proved as lemmas about that function.

## Model

| member | source | states |
|---|---|---|
| `Matcher.ConditionOutcomes` | packages/open-next/src/core/routing/matcher.ts:21-59 | A `header` condition on an absent or empty header fails; with no `value` it tests the empty pattern against the header. A `cookie` condition on an absent or falsy cookie fails, and otherwise tests the cookie's value. A `host` condition fails on an empty host. An unknown condition kind never holds. |
| `Matcher.HasFoldIsConjunction` | packages/open-next/src/core/routing/matcher.ts:61-72 | The `reduce` in `checkHas` holds exactly when the seed holds and every condition matches, or every condition fails when the list is inverted (`missing`). |
| `Matcher.HasFoldStaysFalse` | packages/open-next/src/core/routing/matcher.ts:61-72 | Once the accumulator is false, no later condition can make the `reduce` true. |
| `Matcher.CheckHas` | packages/open-next/src/core/routing/matcher.ts:61-72 | An absent list is satisfied. Otherwise the result holds iff each condition matches, or, when inverted, each one fails. |
| `Matcher.ConvertMatch` | packages/open-next/src/core/routing/matcher.ts:74-90 | With no match, or a match with no parameters, the template is returned unchanged. |
| `Matcher.HeaderEntries` | packages/open-next/src/core/routing/matcher.ts:112-128 | One `(key, value)` entry per configured header, in order, each converted through the source match. |
| `Matcher.AddNextConfigHeaders` | packages/open-next/src/core/routing/matcher.ts:92-133 | The nested loops leave exactly the headers of the matching rules folded in order. With no configured headers the result is empty. |
| `Matcher.NonMatchingHeaderRuleAddsNothing` | packages/open-next/src/core/routing/matcher.ts:100-103 | A rule whose source, `has` or `missing` test fails adds no header. |
| `Matcher.LaterHeaderRuleWins` | packages/open-next/src/core/routing/matcher.ts:92-133 | A header set by a matching rule keeps that rule's value when no later matching rule sets the same key. |
| `Matcher.FindRule` | packages/open-next/src/core/routing/matcher.ts:140-144 | Returns the first rule whose source regex, `has` and `missing` all accept the event, or none when no rule does. |
| `Matcher.HandleRewrites` | packages/open-next/src/core/routing/matcher.ts:135-183 | Only the raw path and the URL change, and the URL is always the new raw path plus the query. The reported rule is the first applicable one. With no applicable rule the raw path is kept and no rule is reported. With one, the result is an error exactly when `compile` of the destination fails or the substitution of bound parameters fails. A rule whose source does not bind on the path keeps the raw path. `isExternalRewrite` is `isExternal` of the found rule's destination, or of nothing when no rule applies. |
| `Matcher.RewriteWithoutParams` | packages/open-next/src/core/routing/matcher.ts:160-172 | A parameterless match rewrites the raw path to the rule's destination as written. |
| `Matcher.RewriteIdempotentWhenNoRuleMatches` | packages/open-next/src/core/routing/matcher.ts:135-183 | When no rule applies and the URL already is path plus query, rewriting returns the event unchanged, with no rule and the external flag of `isExternal(undefined)`. |
| `Matcher.ExternalRewriteWithParams` | packages/open-next/src/core/routing/matcher.ts:152-166 | An external destination with parameters becomes the destination's protocol, `//`, its host name and the unescaped compiled path. |
| `Matcher.InternalRewriteWithParams` | packages/open-next/src/core/routing/matcher.ts:152-165 | An internal destination with parameters becomes the unescaped compiled path alone. |
| `Matcher.TrailingWordRun` | packages/open-next/src/core/routing/matcher.ts:201 | The length of the maximal run of word characters at the end of the path. |
| `Matcher.FileLikeMeansExtension` | packages/open-next/src/core/routing/matcher.ts:201 | The computed test agrees with `/[\w-]+\.[\w]+$/`. A path is file-like exactly when it has a `.` that is preceded by a word character or `-` and followed by one or more word characters up to its end. There is at most one such `.`. |
| `Matcher.DropTrailingSlash` | packages/open-next/src/core/routing/matcher.ts:216-232 | One trailing `/` is removed, and only when there is one. |
| `Matcher.TrailingSlashRedirect` | packages/open-next/src/core/routing/matcher.ts:185-234 | There is no redirect off `localhost`, when redirects are skipped, or for `/api/` paths. Otherwise there is a redirect exactly when `trailingSlash` is on and the path is not a data request, does not end in `/` and is not file-like, or when `trailingSlash` is off and the path ends in `/` and is not `/`. Any redirect is a 308 with an empty, not base64-encoded body and `Location` as its only header. |
| `Matcher.NoSlashAddedToFiles` | packages/open-next/src/core/routing/matcher.ts:197-202 | With `trailingSlash` on, a path ending in a file extension, a data request, or a path already ending in `/` is not redirected. |
| `Matcher.NoSlashStrippedWithoutOne` | packages/open-next/src/core/routing/matcher.ts:216-219 | With `trailingSlash` off, `/` and a path without a trailing `/` are not redirected. |
| `Matcher.TrailingSlashAppended` | packages/open-next/src/core/routing/matcher.ts:197-214 | With `trailingSlash` on, a non-file path without a slash is redirected to the path plus `/`, keeping its query. |
| `Matcher.TrailingSlashAppendedNoQuery` | packages/open-next/src/core/routing/matcher.ts:197-214 | The same without a query: the location is the URL plus `/`. |
| `Matcher.TrailingSlashStripped` | packages/open-next/src/core/routing/matcher.ts:216-232 | With `trailingSlash` off, a path ending in `/` (other than `/`) is redirected to the path without it, keeping its query. |
| `Matcher.TrailingSlashStrippedNoQuery` | packages/open-next/src/core/routing/matcher.ts:216-232 | The same without a query: the location is the URL without its final `/`. |
| `Matcher.NonInternal` | packages/open-next/src/core/routing/matcher.ts:244-246 | Exactly the rules not flagged internal. |
| `Matcher.HandleRedirects` | packages/open-next/src/core/routing/matcher.ts:236-257 | A trailing-slash redirect wins over every rule. Otherwise the result is an error exactly when rewriting with the non-internal rules fails. When it succeeds, there is a redirect exactly when some non-internal rule applies: the first such rule's `statusCode` or 308, `Location` set to the rewritten URL, an empty body. |
| `Matcher.RedirectUsesFirstNonInternalRule` | packages/open-next/src/core/routing/matcher.ts:244-256 | A rule redirect is produced by the first applicable rule among the non-internal ones. |
| `Matcher.DropJsonSuffix` | packages/open-next/src/core/routing/matcher.ts:271-275 | A trailing `.json` is removed, and only when present. |
| `Matcher.FixDataPage` | packages/open-next/src/core/routing/matcher.ts:259-291 | A `/_next/data` path for another build id answers a JSON 404. Paths outside `/_next/data`, and paths of this build that do not end in `.json`, are untouched. A path of this build ending in `.json` continues with a new raw path, `__nextDataReq=1` added to its query, and the URL recomputed; nothing else changes. |
| `Matcher.DataPagePath` | packages/open-next/src/core/routing/matcher.ts:270-289 | `/_next/data/<build>/<page>.json` becomes `<page>`, and `/index` becomes `/`, with `__nextDataReq` set to `1`. |
| `Matcher.HandleFallbackFalse` | packages/open-next/src/core/routing/matcher.ts:293-326 | The event is kept or rewritten to `/404`. A rewrite happens exactly when a dynamic fallback-false route matches and the (localized) path is not prerendered. |
| `Matcher.FallbackFalseIdempotent` | packages/open-next/src/core/routing/matcher.ts:293-326 | Applying the 404 rewrite twice gives the same event as applying it once. |
| `Matcher.LocalizedPathCases` | packages/open-next/src/core/routing/matcher.ts:305-312 | A path whose first segment is a configured locale is kept; otherwise the default locale is prefixed. |
| `TagCache.KeySpaces` | packages/open-next/src/cache/tag/upstash.ts:12-14 | The `path:`, `tag:` and `revalidated:` keys of one build never collide, and each is injective in its path or tag. |
| `TagCache.StripKeepsPlainMember` | packages/open-next/src/cache/tag/upstash.ts:22 | A member that does not contain `<build id>:` is returned unchanged. |
| `TagCache.ApplyAllEffect` | packages/open-next/src/cache/tag/upstash.ts:68 | After a pipeline is executed, a set is the old one plus everything added to it. A value is the last one put, or the old value when none was put. |
| `TagCache.LastPutAppend` | packages/open-next/src/cache/tag/upstash.ts:58-68 | The last value put by a concatenated pipeline comes from its second part when that part puts one. |
| `TagCache.AddedAppend` | packages/open-next/src/cache/tag/upstash.ts:58-68 | What a concatenated pipeline adds to a set is the union of what its parts add. |
| `TagCache.PipelineLastPut` | packages/open-next/src/cache/tag/upstash.ts:59-67 | The watermark `writeTags` leaves for a path is the stamp of that path's last record, with `now` standing in for a missing stamp. |
| `TagCache.RecordAdds` | packages/open-next/src/cache/tag/upstash.ts:64-65 | One record's two `sadd`s add its tag to its path's set and its path to its tag's set, and nothing else. |
| `TagCache.TagsOfSnoc` | packages/open-next/src/cache/tag/upstash.ts:59-67 | The tags of a path's records are those of all but the last record, plus the last record's tag when it names the path. |
| `TagCache.PathsOfSnoc` | packages/open-next/src/cache/tag/upstash.ts:59-67 | The same for the paths of a tag's records. |
| `TagCache.PipelineAddsToPath` | packages/open-next/src/cache/tag/upstash.ts:59-67 | The members added to a path's set are exactly the tags of the records for that path. |
| `TagCache.PipelineAddsToTag` | packages/open-next/src/cache/tag/upstash.ts:59-67 | The members added to a tag's set are exactly the paths of the records for that tag. |
| `TagCache.ApplyAllIdempotent` | packages/open-next/src/cache/tag/upstash.ts:54-72 | Executing the same pipeline twice leaves the store as executing it once. |
| `TagCache.Upstash.constructor` | packages/open-next/src/cache/tag/upstash.ts:5-10 | The client starts on the given build id and store. |
| `TagCache.Upstash.GetByPath` | packages/open-next/src/cache/tag/upstash.ts:17-27 | When Redis fails, the result is empty. Otherwise it is exactly the members of the path's set, with the build-id prefix stripped. |
| `TagCache.Upstash.GetByTag` | packages/open-next/src/cache/tag/upstash.ts:29-38 | The same for the tag's set of paths. |
| `TagCache.Upstash.GetLastModified` | packages/open-next/src/cache/tag/upstash.ts:40-52 | The result is `-1` exactly when Redis answers and the revalidation stamp is truthy and newer than `lastModified` (or 0). Otherwise it is `lastModified`, or `now` when that is absent. |
| `TagCache.Upstash.WriteTags` | packages/open-next/src/cache/tag/upstash.ts:54-72 | The store becomes the old store after the queued `sadd`/`sadd`/`set` pipeline. A failing Redis leaves it unchanged. |
| `TagCache.Upstash.Exec` | packages/open-next/src/cache/tag/upstash.ts:68 | The loop executes the commands in order. |
| `TagCache.WriteThenRead` | packages/open-next/src/cache/tag/upstash.ts:54-72 | After `writeTags`, each record's tag is a member of its path's Redis set and its path a member of its tag's Redis set. |
| `TagCache.WriteThenGet` | packages/open-next/src/cache/tag/upstash.ts:17-72 | After `writeTags` with Redis up, `getByPath` of a record's path returns its tag and `getByTag` of its tag returns its path, unless that text contains `<build id>:`. |
| `TagCache.TagWithBuildIdComesBackChanged` | packages/open-next/src/cache/tag/upstash.ts:22 | On build `b`, a tag written as `b:t` is returned by `getByPath` as `t`, not as written. |
| `TagCache.WriteSetsExactly` | packages/open-next/src/cache/tag/upstash.ts:59-67 | After `writeTags`, a path's set is its old set plus exactly the tags of its records, and likewise for a tag's set. |
| `TagCache.WriteWatermark` | packages/open-next/src/cache/tag/upstash.ts:62-66 | After `writeTags`, a path's watermark is its last record's stamp, or its old value when no record names it. |
| `TagCache.WatermarkMayDecrease` | packages/open-next/src/cache/tag/upstash.ts:66 | The watermark is overwritten rather than raised: stamps 5 then 3 leave 3. |
| `TagCache.WriteTagsIdempotent` | packages/open-next/src/cache/tag/upstash.ts:54-72 | Writing the same records twice with the same `now` leaves the store as writing them once. |
| `TagCache.StaleAfterRevalidation` | packages/open-next/src/cache/tag/upstash.ts:40-52 | A non-zero stamp newer than `lastModified` forces `-1`; a stamp at or below it keeps `lastModified`. |
| `DynamoProvider.ParseRecords` | packages/open-next/src/adapters/dynamo-provider.ts:56-60 | One record per item, in order, with tag, path and `parseInt` of the stamp. |
| `DynamoProvider.ParseRecordReadsPrintedNumber` | packages/open-next/src/adapters/dynamo-provider.ts:59 | A stamp printed as a decimal number is read back as that number. |
| `DynamoProvider.Remove` | packages/open-next/src/adapters/dynamo-provider.ts:71-78 | Answers `delete` with the physical resource id. |
| `DynamoProvider.Insert` | packages/open-next/src/adapters/dynamo-provider.ts:49-69 | The parsed records are written to the tag cache and the request type is echoed back. |
| `DynamoProvider.DefaultHandler` | packages/open-next/src/adapters/dynamo-provider.ts:36-47 | `delete` touches nothing. Every other request type, including unknown ones, seeds the tag cache. |
| `DynamoProvider.SeededItemsAreIndexed` | packages/open-next/src/adapters/dynamo-provider.ts:49-69 | After seeding, every item's tag is in its path's set and its path is in its tag's set. |
| `IpfsCache.HalvesAreDisjoint` | packages/open-next/src/cache/incremental/ipfs.ts:49-51 | The `cache` and `fetch` keys, and their `:lastModified` side keys, never collide. |
| `IpfsCache.GetFrom` | packages/open-next/src/cache/incremental/ipfs.ts:54-86 | Every error carries the `Failed to get cache:` prefix. A missing or empty CID fails with `Error: Not found`, a failed fetch with its error, a response that is not ok with `Error: Failed to fetch content: <status>`, and a parse failure with its error. Otherwise, and only then, it returns the parsed content with the stored timestamp, or `now` when there is none. |
| `IpfsCache.GetAfterSet` | packages/open-next/src/cache/incremental/ipfs.ts:88-103 | After `set` stores a CID whose content fetches and parses, `get` returns that content with the timestamp `set` wrote. |
| `IpfsCache.PartialSetKeepsOldTimestamp` | packages/open-next/src/cache/incremental/ipfs.ts:97-98 | When the second `redis.set` of `set` fails, `get` reads the new content with the timestamp of the earlier `set`, or the time of the read when there was none. |
| `IpfsCache.DeleteOnlyTouchesCacheHalf` | packages/open-next/src/cache/incremental/ipfs.ts:105-113 | `delete` removes the `cache` entry and its timestamp, and leaves the `fetch` entry for any key intact. |
| `IpfsCache.IncrementalCache.constructor` | packages/open-next/src/cache/incremental/ipfs.ts:44-47 | The cache starts on the given build id and Redis contents. |
| `IpfsCache.IncrementalCache.Get` | packages/open-next/src/cache/incremental/ipfs.ts:54-86 | `get` on the object's Redis data is `GetFrom` of it. |
| `IpfsCache.IncrementalCache.Set` | packages/open-next/src/cache/incremental/ipfs.ts:88-103 | A failed upload or a failed first `redis.set` reports `Failed to set cache:` and leaves Redis unchanged. A failed second `redis.set` reports it too, after storing the new CID beside the old timestamp. Otherwise the CID and the timestamp are stored under the entry's key. |
| `IpfsCache.IncrementalCache.Delete` | packages/open-next/src/cache/incremental/ipfs.ts:105-113 | A failed first `redis.del` reports `Failed to delete cache:` and leaves Redis unchanged. A failed second one reports it too, after removing the `cache` key only. Otherwise the `cache` key and its timestamp key are removed. |
| `IpfsCache.Retry` | packages/open-next/src/cache/incremental/ipfs.ts:279-304 | Returns the first successful attempt. Every earlier attempt failed. It gives up with the last error after exactly `tries` attempts. |
| `IpfsCache.Classify` | packages/open-next/src/cache/incremental/ipfs.ts:143-170 | An accepted status raises nothing. A 429 maps the error code to the two quota errors or `Unknown`, an unreadable body to `Unknown`, and a body with an empty `errors` list to a `TypeError`. Any other status is `StorageIpfsUploadFailedError`. |
| `IpfsCache.LastRoot` | packages/open-next/src/cache/incremental/ipfs.ts:256-260 | The root of the last shard that has one, or none when no shard has a root. |
| `IpfsCache.LastRootIgnoresRootlessTail` | packages/open-next/src/cache/incremental/ipfs.ts:256-260 | Shards without a root after the last rooted one do not change the CID. |
| `IpfsCache.TotalSizeAppend` | packages/open-next/src/cache/incremental/ipfs.ts:261 | The total size of concatenated shard lists is the sum of their sizes. |
| `IpfsCache.StreamCidAndTotalSize` | packages/open-next/src/cache/incremental/ipfs.ts:246-271 | The loop returns the last root and the summed size. With no (non-empty) root it fails with `StorageIpfsUploadFailedError`. |
| `AsyncHooks.ExecutionAsyncId` | packages/open-next/src/build/edge/polyfill/async_hooks.js:8 | Always 0. |
| `AsyncHooks.TriggerAsyncId` | packages/open-next/src/build/edge/polyfill/async_hooks.js:9 | Always 0. |
| `AsyncHooks.ExecutionAsyncResource` | packages/open-next/src/build/edge/polyfill/async_hooks.js:10 | Always `null`. |
| `AsyncHooks.ReadsSeeOnlyStoredValues` | packages/open-next/src/build/edge/polyfill/async_hooks.js:11-42 | Every `getStore` inside a script sees the initial store, a value the script stored, or `undefined`. |
| `AsyncHooks.ExitsRestoreStore` | packages/open-next/src/build/edge/polyfill/async_hooks.js:29-37 | A script of reads and `exit` calls leaves the store as it found it, even when a callback throws. |
| `AsyncHooks.RunSetsThenClears` | packages/open-next/src/build/edge/polyfill/async_hooks.js:20-27 | Inside `run(s, …)` the store reads `s`; afterwards it is `undefined`, not the previous store. |
| `AsyncHooks.NestedRunClearsOuterStore` | packages/open-next/src/build/edge/polyfill/async_hooks.js:20-27 | After a nested `run`, the outer callback reads `undefined` rather than its own store. |
| `AsyncHooks.ExitHidesThenRestores` | packages/open-next/src/build/edge/polyfill/async_hooks.js:29-37 | Inside `exit` the store reads `undefined`; afterwards the previous store is back. |
| `AsyncHooks.AsyncLocalStorage.constructor` | packages/open-next/src/build/edge/polyfill/async_hooks.js:12-14 | The store starts `undefined`. |
| `AsyncHooks.AsyncLocalStorage.EnterWith` | packages/open-next/src/build/edge/polyfill/async_hooks.js:39-41 | Sets the store. |
| `AsyncHooks.AsyncLocalStorage.Run` | packages/open-next/src/build/edge/polyfill/async_hooks.js:20-27 | The callback runs with the store set, and the store is `undefined` afterwards, whether or not the callback threw. What the callback returns is returned. |
| `AsyncHooks.AsyncLocalStorage.Exit` | packages/open-next/src/build/edge/polyfill/async_hooks.js:29-37 | The callback runs with no store, and the previous store is restored afterwards. What the callback returns is returned. |
| `AsyncHooks.AsyncLocalStorage.Perform` | packages/open-next/src/build/edge/polyfill/async_hooks.js:16-41 | Running a script of calls on the object gives the trace and the returned value of the reference semantics. |
| `FsPolyfill.Code` | packages/open-next/src/build/edge/polyfill/fs.js:71-74 | Only the not-found error carries the code `ENOENT`. |
| `FsPolyfill.GetCid` | packages/open-next/src/build/edge/polyfill/fs.js:6-14 | Without a CID map it throws. Otherwise it returns the CID of the normalised path, if any. |
| `FsPolyfill.ExistsSync` | packages/open-next/src/build/edge/polyfill/fs.js:119-121 | True exactly when the normalised path is in the CID map. |
| `FsPolyfill.Fetch` | packages/open-next/src/build/edge/polyfill/fs.js:16-52 | A cached CID is served from the cache. A successful fetch adds exactly that CID. A failure leaves the cache unchanged. Old entries never change. |
| `FsPolyfill.CachedContentIsStable` | packages/open-next/src/build/edge/polyfill/fs.js:16-52 | Once content is cached, every later fetch of that CID returns it, whatever was fetched in between. |
| `FsPolyfill.Encode` | packages/open-next/src/build/edge/polyfill/fs.js:81 | Text when an encoding is given, a buffer otherwise; the content is the same. |
| `FsPolyfill.Read` | packages/open-next/src/build/edge/polyfill/fs.js:60-117 | A missing CID map throws. A missing or empty CID is `ENOENT` for the syscall. Otherwise the content is fetched through the cache. |
| `FsPolyfill.EmptyCidExistsButIsMissing` | packages/open-next/src/build/edge/polyfill/fs.js:119-121 | A path mapped to an empty CID exists for `existsSync`, yet reading it fails with `ENOENT`. |
| `FsPolyfill.Utf16Length` | packages/open-next/src/build/edge/polyfill/fs.js:192-194 | `content.length` counts UTF-16 code units: one per character, two for a character beyond U+FFFF, so it lies between the character count and twice it. |
| `FsPolyfill.Utf16LengthAppend` | packages/open-next/src/build/edge/polyfill/fs.js:192-194 | The length of two joined texts is the sum of their lengths. |
| `FsPolyfill.AstralCharIsTwoUnits` | packages/open-next/src/build/edge/polyfill/fs.js:192-194 | An emoji such as U+1F600 has length 2. |
| `FsPolyfill.CreateStats` | packages/open-next/src/build/edge/polyfill/fs.js:176-204 | A regular file of mode 33188 whose size is the content's `length` in UTF-16 code units, in 4096-byte blocks rounded up, with all four times equal to `now`. |
| `FsPolyfill.CreateReadStream` | packages/open-next/src/build/edge/polyfill/fs.js:206-228 | Fails without a CID map or with `ENOENT` for an unmapped path. Otherwise it streams the non-empty CID's content. |
| `FsPolyfill.Fs.constructor` | packages/open-next/src/build/edge/polyfill/fs.js:4 | The content cache starts empty. |
| `FsPolyfill.Fs.FetchFromIpfsSync` | packages/open-next/src/build/edge/polyfill/fs.js:16-35 | Result and cache update as `Fetch`, through the synchronous request. |
| `FsPolyfill.Fs.FetchFromIpfs` | packages/open-next/src/build/edge/polyfill/fs.js:37-52 | Result and cache update as `Fetch`, through `fetch`. |
| `FsPolyfill.Fs.ReadFile` | packages/open-next/src/build/edge/polyfill/fs.js:60-85 | The callback gets `Read`'s content, encoded as the options ask; errors are the same as `Read`'s. |
| `FsPolyfill.Fs.ReadFileSync` | packages/open-next/src/build/edge/polyfill/fs.js:87-101 | Returns `Read`'s content, encoded, or throws its error. |
| `FsPolyfill.Fs.ReadFilePromise` | packages/open-next/src/build/edge/polyfill/fs.js:103-117 | The same through the asynchronous fetch. |
| `FsPolyfill.Fs.Stat` | packages/open-next/src/build/edge/polyfill/fs.js:123-142 | The callback gets `createStats` of the content; a missing path is `ENOENT` for `stat`. |
| `FsPolyfill.Fs.StatSync` | packages/open-next/src/build/edge/polyfill/fs.js:144-158 | Returns the stats, or throws as `stat`. |
| `FsPolyfill.Fs.StatPromise` | packages/open-next/src/build/edge/polyfill/fs.js:160-174 | The same through the asynchronous fetch. |
| `ApiGatewayV2.NormalizeBody` | packages/open-next/src/converters/aws-apigw-v2.ts:9-22 | A buffer is kept. A string is decoded as base64 or utf8 according to the flag. An object becomes its JSON. No body becomes the empty buffer. |
| `ApiGatewayV2.LowerNames` | packages/open-next/src/converters/aws-apigw-v2.ts:35-37 | Each header name lower-cased, its value and position kept. |
| `ApiGatewayV2.NormalizeHeaders` | packages/open-next/src/converters/aws-apigw-v2.ts:24-40 | The loop leaves the cookie header seeded from `cookies`, then the headers written in order under lower-cased names. |
| `ApiGatewayV2.HeaderPresence` | packages/open-next/src/converters/aws-apigw-v2.ts:24-40 | A name is present iff some header lower-cases to it, or it is `cookie` and cookies were sent. |
| `ApiGatewayV2.HeaderLastWins` | packages/open-next/src/converters/aws-apigw-v2.ts:35-37 | A header differing only in case from later ones is overridden; the last one's value is kept. |
| `ApiGatewayV2.CookieHeaderFromCookies` | packages/open-next/src/converters/aws-apigw-v2.ts:31-33 | Without a `Cookie` header, the cookie header is the cookies joined with `; `. |
| `ApiGatewayV2.Url` | packages/open-next/src/converters/aws-apigw-v2.ts:50 | The raw path, plus `?` and the query string when there is one. |
| `ApiGatewayV2.CookiePairDropsAfterSecondEquals` | packages/open-next/src/converters/aws-apigw-v2.ts:57 | `name=value=rest` is read as `name` and `value`: the text after a second `=` is lost. |
| `ApiGatewayV2.CookieWithoutEquals` | packages/open-next/src/converters/aws-apigw-v2.ts:57 | A cookie without `=` maps its whole text to `undefined`. |
| `ApiGatewayV2.CookiePairs` | packages/open-next/src/converters/aws-apigw-v2.ts:56-58 | One pair per cookie, in order. |
| `ApiGatewayV2.CookieMap` | packages/open-next/src/converters/aws-apigw-v2.ts:55-59 | No cookies give the empty map. |
| `ApiGatewayV2.CookieMapLastWins` | packages/open-next/src/converters/aws-apigw-v2.ts:55-59 | A cookie name is present iff some cookie has it; its value comes from the last cookie with that name. |
| `ApiGatewayV2.ConvertFrom` | packages/open-next/src/converters/aws-apigw-v2.ts:42-61 | A `core` event with the method, path, URL, source IP, normalised body, headers, query and cookie map described above. |
| `ApiGatewayV2.ResponseHeaders` | packages/open-next/src/converters/aws-apigw-v2.ts:66-75 | Every header except those spelled `set-cookie` in any case. `null` becomes `""`, a list is joined with `, `, a value is kept. |
| `ApiGatewayV2.ConvertTo` | packages/open-next/src/converters/aws-apigw-v2.ts:63-86 | Status, body and base64 flag are kept. Headers are as above. Cookies are parsed from the lower-case `set-cookie` entry only. |
| `ApiGatewayV2.MixedCaseSetCookieIsNotForwarded` | packages/open-next/src/converters/aws-apigw-v2.ts:67-80 | A `Set-Cookie` header is dropped from the headers. Without a lower-case entry, it is not turned into cookies either. |
| `FleekConverter.ConvertFrom` | packages/open-next/src/converters/fleek.ts:8-23 | A `core` event from the 0.0.0.0 address. The host header defaults to the resolved path. The URL is the host when truthy, else the resolved path. Other headers are kept, and a truthy body becomes a utf8 buffer. |
| `FleekConverter.CommaJoined` | packages/open-next/src/converters/fleek.ts:35-41 | A single value is kept; a list is joined with `,`. |
| `FleekConverter.ConvertHeaders` | packages/open-next/src/converters/fleek.ts:35-41 | Every header is kept under its name with its comma-joined value. |
| `FleekConverter.ConvertTo` | packages/open-next/src/converters/fleek.ts:25-33 | Status and body are kept; headers are converted as above. |
| `FleekConverter.CommaJoinedHasNoSpace` | packages/open-next/src/converters/fleek.ts:38 | Two values are joined as `a,b`, with no space. |
| `FleekConverter.Field` | packages/open-next/src/converters/fleek.ts:69 | Reading a property of `null` throws. A present property is returned. A missing one is `undefined`. |
| `FleekConverter.JsonText` | packages/open-next/src/converters/fleek.ts:48-89 | `JSON.parse(event.body)` parses the body's text, and the text `undefined` when there is no body. |
| `FleekConverter.ConvertFromRevalidate` | packages/open-next/src/converters/fleek.ts:43-62 | Fails exactly when the body does not parse; the records are the parsed body. |
| `FleekConverter.ConvertFromInitialization` | packages/open-next/src/converters/fleek.ts:64-84 | Fails when the body does not parse or is `null`. The resource id is `dynamodb-cache`, and the request type is read from the body. |
| `FleekConverter.ConvertFromWarmer` | packages/open-next/src/converters/fleek.ts:86-110 | Fails when the body does not parse or is `null`; the warmer fields are read from the body. |
| `FleekConverter.RevalidateResponse` | packages/open-next/src/converters/fleek.ts:52-61 | The fixed 200 response with `random-value-3` and `random response 3`. |
| `FleekConverter.InitializationResponse` | packages/open-next/src/converters/fleek.ts:74-83 | The fixed 200 response with `random-value-2` and `random response 2`. |
| `FleekConverter.WarmerResponse` | packages/open-next/src/converters/fleek.ts:100-109 | The fixed 200 response with `random-value` and `random response`. |
| `FleekConverter.ProxyUrl` | packages/open-next/src/converters/fleek.ts:115-125 | An external rewrite keeps the URL. Otherwise the origin's protocol, host and optional port are prefixed, or `https://` with the event's host when there is no origin. The URL always ends with the event's URL. |
| `FleekConverter.ForwardedRequest` | packages/open-next/src/converters/fleek.ts:127-134 | Same method and body. The headers gain `x-forwarded-host`: the host, or `undefined` as text when there is none. |
| `FleekConverter.CacheEverything` | packages/open-next/src/converters/fleek.ts:136-141 | Caching is requested iff the page is ISR or an `/_next/image` path, and the cache is not disabled by `"true"`. |
| `FleekConverter.AdaptAsWritten` | packages/open-next/src/converters/fleek.ts:176-190 | As written, `adapt` keeps the proxied response's status and text, and its headers are those `Object.entries` finds on a `Headers` object: none. |
| `FleekConverter.AdaptAsWrittenDropsHeaders` | packages/open-next/src/converters/fleek.ts:176-182 | As written, a proxied response's `content-type` is lost. |
| `FleekConverter.Adapt` | packages/open-next/src/converters/fleek.ts:184-190 | Corrected behaviour (see Findings): the proxied response's status, text and headers are carried over. |
| `FleekConverter.AnsweredHeaders` | packages/open-next/src/converters/fleek.ts:151-156 | A lower-cased name is set iff some header lower-cases to it, and it holds that header's value (`null` as text). |
| `FleekConverter.ReadAt` | packages/open-next/src/converters/fleek.ts:159-164 | `reader.read()` is done exactly when every chunk has been read. Until then it yields the next chunk, and once done it yields no value. |
| `FleekConverter.BodyReader.constructor` | packages/open-next/src/converters/fleek.ts:157 | `body.getReader()` starts before the first chunk of the stream. |
| `FleekConverter.BodyReader.Read` | packages/open-next/src/converters/fleek.ts:159-164 | Each `read()` yields the chunk at the reader's position and moves past it; a finished reader stays finished. |
| `FleekConverter.AsWrittenReadLoopNeverExits` | packages/open-next/src/converters/fleek.ts:160-165 | As written, `while (chunk)` never leaves the loop, whatever the stream holds, because every read result is a truthy object. |
| `FleekConverter.ReadToEnd` | packages/open-next/src/converters/fleek.ts:157-165 | Corrected behaviour (see Findings): the loop stops at `done`, and the text read is the chunks' texts in order. |
| `FleekConverter.ConvertFromMiddleware` | packages/open-next/src/converters/fleek.ts:112-174 | Uses the corrected `adapt` and the corrected read loop (see Findings). A forwarded request is proxied, and its response's status, headers and text are returned. An answered one returns the middleware's status, the chunks of its body in order, and its headers: a lower-cased name is present iff some header lower-cases to it, and holds that header's value as `Headers.set` stores it. |
| `EdgeAdapter.Base` | packages/open-next/src/adapters/edge-adapter.ts:31-33 | `https://` and the host when it is truthy, else `http://localhost:3000`. |
| `EdgeAdapter.MiddlewareMethod` | packages/open-next/src/adapters/edge-adapter.ts:44 | The event's method, or `GET` when it is empty. |
| `EdgeAdapter.Forwarded` | packages/open-next/src/adapters/edge-adapter.ts:45-49 | Only `basePath`, `i18n` and `trailingSlash` reach the middleware. |
| `EdgeAdapter.RequestFor` | packages/open-next/src/adapters/edge-adapter.ts:34-55 | The headers, method, forwarded config, URL and body stream handed to the middleware. |
| `EdgeAdapter.ValuesOf` | packages/open-next/src/adapters/edge-adapter.ts:56-65 | The values visited under one name, in order. |
| `EdgeAdapter.SetCookieValuesAreCollected` | packages/open-next/src/adapters/edge-adapter.ts:57-61 | A `set-cookie` name holds the list of all its values, in order. |
| `EdgeAdapter.OtherHeadersLastWins` | packages/open-next/src/adapters/edge-adapter.ts:62-64 | Any other name holds the last value visited. |
| `EdgeAdapter.CollectHeaders` | packages/open-next/src/adapters/edge-adapter.ts:56-65 | The `forEach` loop builds exactly the folded header map. |
| `EdgeAdapter.DefaultHandler` | packages/open-next/src/adapters/edge-adapter.ts:22-82 | A `core` result with the middleware's status, its folded headers and its body stream (or an empty stream), never base64-encoded. |
| `EdgeFunctionHandler.FindRoute` | packages/open-next/src/core/edgeFunctionHandler.ts:58-61 | The first route one of whose patterns matches the path. |
| `EdgeFunctionHandler.EntryKey` | packages/open-next/src/core/edgeFunctionHandler.ts:72 | `middleware_` followed by the route name. |
| `EdgeFunctionHandler.Handle` | packages/open-next/src/core/edgeFunctionHandler.ts:53-92 | No route throws `No route found for <url>`, and a missing entry throws a `TypeError`. Otherwise it returns the entry's response for the route's page and name. |
| `EdgeFunctionHandler.EarlierRouteWins` | packages/open-next/src/core/edgeFunctionHandler.ts:58-61 | Appending routes never changes a route that was already found. |
| `PrebundledReact.FindRoute` | packages/open-next/src/core/util.ts:72-74 | The first route whose regex matches the path. |
| `PrebundledReact.StaticRoutesFirst` | packages/open-next/src/core/util.ts:67-74 | A matching static route is chosen over every dynamic one. |
| `PrebundledReact.FindAppended` | packages/open-next/src/core/util.ts:67-74 | A route found in a list is still the one found after more routes are appended. |
| `PrebundledReact.AppValue` | packages/open-next/src/core/util.ts:81-84 | `experimental` with server actions, `next` without. |
| `PrebundledReact.EnvAsWritten` | packages/open-next/src/core/util.ts:80-89 | As written, the variable is set for App Router pages and holds the text `undefined` otherwise; no other variable changes. |
| `PrebundledReact.PagesRouteLeavesVariableSet` | packages/open-next/src/core/util.ts:89 | As written, a Pages Router request leaves the variable set to a truthy value. |
| `PrebundledReact.Env` | packages/open-next/src/core/util.ts:80-89 | Corrected behaviour (see Findings): the variable is set for App Router pages and removed otherwise; no other variable changes. |
| `PrebundledReact.PrebundledExactlyForAppRoutes` | packages/open-next/src/core/util.ts:76-89 | The variable is truthy exactly for App Router pages. |
| `PrebundledReact.ProcessEnv.constructor` | packages/open-next/src/core/util.ts:80-89 | The environment starts as the given variables. |
| `PrebundledReact.ProcessEnv.SetNextjsPrebundledReact` | packages/open-next/src/core/util.ts:64-90 | Corrected behaviour (see Findings): the environment becomes `Env` of the old one, for the page the path matches, so a Pages Router page removes the variable instead of storing `undefined`. |
| `ImageOptimization.ErrorOf` | packages/open-next/src/adapters/image-optimization-adapter.ts:94 | An `Error` carrying its message. |
| `ImageOptimization.EnsureBucketExists` | packages/open-next/src/adapters/image-optimization-adapter.ts:92-96 | Throws `Bucket name must be defined!` exactly when the bucket name is not truthy. |
| `ImageOptimization.SuccessResponse` | packages/open-next/src/adapters/image-optimization-adapter.ts:135-147 | A base64-encoded 200 with `Vary`, an immutable `Cache-Control` of the result's `maxAge`, and its content type. |
| `ImageOptimization.FailureBody` | packages/open-next/src/adapters/image-optimization-adapter.ts:157 | The error's message when non-empty, else its string form. |
| `ImageOptimization.FailureResponse` | packages/open-next/src/adapters/image-optimization-adapter.ts:149-163 | A 500 JSON response cached 60 seconds, with that body. |
| `ImageOptimization.DefaultHandler` | packages/open-next/src/adapters/image-optimization-adapter.ts:58-78 | A missing bucket, a validation error and an optimizer failure each become the failure response. Otherwise the optimized image is the success response. The status is 200 or 500. |
| `ImageOptimization.DropLeadingSlash` | packages/open-next/src/adapters/image-optimization-adapter.ts:176 | One leading `/` is removed, and only when present. |
| `ImageOptimization.TrimSlashes` | packages/open-next/src/adapters/image-optimization-adapter.ts:172 | One leading `/` and one trailing `/` are removed, each only when present: `/p/` gives `p`, `/p` gives `p`, `p/` gives `p`. |
| `ImageOptimization.S3Key` | packages/open-next/src/adapters/image-optimization-adapter.ts:171-177 | A non-empty trimmed prefix, `/`, and the key without its leading slash; without a prefix, the key alone. |
| `ImageOptimization.S3KeyJoinsBareNames` | packages/open-next/src/adapters/image-optimization-adapter.ts:171-177 | `/p/` with `/k` gives `p/k`, and a missing prefix gives `k`. |
| `ImageOptimization.S3KeyHasNoLeadingSlash` | packages/open-next/src/adapters/image-optimization-adapter.ts:171-177 | The key never starts with `/` unless the prefix or the key began with two. |
| `ImageOptimization.SetIfPresent` | packages/open-next/src/adapters/image-optimization-adapter.ts:234-239 | A header is set only when its value is present and non-empty. |
| `ImageOptimization.DownloadHandler` | packages/open-next/src/adapters/image-optimization-adapter.ts:190-245 | An `https:` URL is piped with no header set, and an `http:` one throws `ERR_INVALID_PROTOCOL` from `https.get`. A loader error is rethrown. An empty body throws `Empty response body from the S3 request.`. Otherwise the body is piped, and content type and cache control are set when present. |
| `Cli.ValueAfter` | packages/open-next/src/index.ts:22-28 | A flag's value is the next argument iff it exists, is non-empty and does not start with `-`. |
| `Cli.ParsedKeys` | packages/open-next/src/index.ts:19-32 | Exactly the arguments starting with `--` become keys. |
| `Cli.ParsedLastWins` | packages/open-next/src/index.ts:19-32 | A repeated flag keeps the value read at its last occurrence. |
| `Cli.ParseArgs` | packages/open-next/src/index.ts:19-32 | The `reduce` leaves exactly the parsed flag map. |
| `Cli.Run` | packages/open-next/src/index.ts:7-17 | Any command but `build`, or `--help`, prints the usage and exits with 1. Otherwise the build gets the config path and the two flags, each true only for the text `true`. |
| `Cli.SkipBuildNeedsExactTrue` | packages/open-next/src/index.ts:15 | `--skip-build yes` is read, yet does not skip the build. |
| `BuildLogger.Verbosity` | packages/open-next/src/logger.ts:3 | The four levels ranked from `error` (0) to `debug` (3). |
| `BuildLogger.Logger.constructor` | packages/open-next/src/logger.ts:5 | The level starts at `error`. |
| `BuildLogger.Logger.SetLevel` | packages/open-next/src/logger.ts:8 | Sets the level. |
| `BuildLogger.Logger.DebugLog` | packages/open-next/src/logger.ts:9-12 | Prints `DEBUG` and the arguments to stdout exactly at level `debug`. |
| `BuildLogger.Logger.InfoLog` | packages/open-next/src/logger.ts:13-16 | Prints the arguments to stdout exactly at `info` or `debug`. |
| `BuildLogger.Logger.WarnLog` | packages/open-next/src/logger.ts:17-20 | Prints `WARN` and the arguments to stderr at every level but `error`. |
| `BuildLogger.Logger.ErrorLog` | packages/open-next/src/logger.ts:21-23 | Always prints `ERROR` and the arguments to stderr. |
| `AdapterLogger.Debug` | packages/open-next/src/adapters/logger.ts:7-11 | Prints exactly when `openNextDebug` is set. |
| `AdapterLogger.Warn` | packages/open-next/src/adapters/logger.ts:13-15 | Always prints a warning. |
| `AdapterLogger.FirstInternal` | packages/open-next/src/adapters/logger.ts:19-23 | The position of the first `__openNextInternal` argument, none when every argument is a plain object, or a `TypeError` at a leading `null`/`undefined`. |
| `AdapterLogger.Error` | packages/open-next/src/adapters/logger.ts:17-37 | With no internal argument, `console.error`. Otherwise the first internal argument's `logLevel` decides: 0 goes to `debug`, 1 to `warn`, anything else to `console.error`. |
| `AdapterLogger.FirstInternalDecides` | packages/open-next/src/adapters/logger.ts:18-33 | After plain arguments, the first internal argument alone decides the channel, whatever follows it. |
| `AdapterLogger.FirstInternalAfterPlain` | packages/open-next/src/adapters/logger.ts:21-23 | `find` returns the first internal argument after plain ones. |
| `AdapterLogger.AwsLog` | packages/open-next/src/adapters/logger.ts:39-45 | `trace` and `debug` do nothing, `info` is `debug`, and `warn` and `error` are their namesakes. |

## Left out

- The `createHook` stub of the `async_hooks` polyfill returns an object with two empty functions. There is nothing to state about it.
- The asynchronous purpose of `AsyncLocalStorage`, which is keeping a store per async context, is not modelled. Only its sequential field updates are.
- Concurrency is not modelled: the `Parallel` and `ShardingStream` upload pipeline and the `Promise.all` fan-outs.
- The IPFS upload pipeline is not modelled: `uploadFile`, `uploadContent` and `checkPinDuplicity`. `set` receives the upload's outcome (a CID or an error) as a parameter.
- Redis, the IPFS gateway, S3 and `XMLHttpRequest` are not modelled. Stores are maps, and each call's outcome is a parameter. In the tag cache a Redis failure is one boolean per operation. In the incremental cache, `set` and `delete` take the outcome of each of their two Redis writes.
- IpfsCache.GetFrom: a failing `redis.get` is not modelled; the CID and the timestamp are read from the map.
- IpfsCache.IncrementalCache.Get: the same as `GetFrom`.
- Results come back as sets, so the order of Redis `smembers` replies is not modelled. Duplicate members appear once.
- Iteration order over header maps (`Object.entries`, `for … in`) is not modelled where the source visits a dictionary. Two keys that map to the same lower-cased name make the result one of their values: this affects `FleekConverter.AnsweredHeaders`. Ordered inputs, such as API Gateway headers and middleware headers, are sequences and keep their order.
- Stream plumbing is not modelled: `pipeRes` in the image adapter, `createReadStream`'s `Readable`, and `utils/stream.ts`. A stream is named by the content it carries.
- Buffer encodings are not decoded. A body is its text together with the encoding that names it.
- These foreign libraries are uninterpreted functions: regular expressions, `path-to-regexp`, the routing helpers, URL parsing, `path.normalize`, JSON, `parseCookies`, the image optimizer, and the middleware and `_ENTRIES` entries.
- `parseInt` is modelled on decimal digits; a stamp with no leading digit reads as `NaN`.
- Console output is not printed: each logger returns the channel or line it would write, and debug logging calls inside other operations are dropped.
- The edge adapter also sets the globals `isEdgeRuntime`, `AsyncLocalStorage` and `openNextDebug`. These globals are not modelled.
- The `NextServer` construction and the `require` hooks in `core/util.ts` are not part of this model. Of `https.get`, only its refusal of an `http:` URL is modelled; the request it sends is not.
- Wrappers, the generic and main handlers, the server adapter, the config, the edge bundle builder and the warmer, revalidation and queue functions forward calls. They are not part of this model.
- FleekConverter.ConvertHeaders: requires that no value is `null`, because the parameter's declared type admits none. `FleekConverter.ConvertTo` has the same requirement.
- IpfsCache.Retry: requires `tries >= 1`. With `tries` below 1, the source's counter never equals it, and failing calls retry forever.
- Matcher.ConditionOutcomes: a `host` condition with no host header tests the pattern against the text `undefined`, as `RegExp.test(undefined)` does. The lemma states only the empty-host case.
- Matcher.ConvertMatch: states only the parameterless case. With parameters, the result is `compile` of the template, an uninterpreted function.
- TagCache.Upstash.GetLastModified: reads the stored stamp as an integer. A stored value that is not a number is not modelled.
- AsyncHooks.AsyncLocalStorage.Run: the `...args` handed to the callback are not modelled; a callback is the script it runs on those arguments.
- AsyncHooks.AsyncLocalStorage.Exit: the same for its `...args`.
- Matcher.FindRule: `new RegExp(regex)` of an invalid pattern throws, and that throw is not modelled; the regex test is a total function. The same holds for the regex tests in `Matcher.AddNextConfigHeaders`, `Matcher.HandleRewrites` and `Matcher.HandleRedirects`, and for a `match` whose pattern does not parse. The failure of `compile` in `handleRewrites` is modelled.
- TagCache.Upstash.WriteTags: takes one `now` for the whole batch, whereas the source calls `Date.now()` once per record without a stamp. Records written in the same millisecond agree.
- FleekConverter.ConvertFromMiddleware: uses the corrected `Adapt` and `ReadToEnd`. As written, both branches return no headers, and the answered branch never returns because its read loop never ends (see Findings).
- FleekConverter.ReadToEnd: a chunk is its decoded text. `TextDecoder`'s streaming decode of a character split across two chunks is not modelled.
- PrebundledReact.ProcessEnv.SetNextjsPrebundledReact: applies the corrected `Env`. As written, a Pages Router page stores the text `undefined` (see Findings).
- Common.Lower: folds ASCII letters only. `toLowerCase` also folds other scripts, so `ImageOptimization.IsRemote` and `ApiGatewayV2.LowerNames` differ from the source on non-ASCII text.
- Matcher.FixDataPage: returns a new event with the new query. The source writes `__nextDataReq` into the caller's `query` object in place; other holders of that object are not modelled.
- The fs callbacks are modelled as the value passed to them. Whether they run synchronously or in a later tick is not modelled.

## Findings

| source | as written | input that shows it | evidently intended | confidence | as-written member | corrected member |
|---|---|---|---|---|---|---|
| packages/open-next/src/converters/fleek.ts:176-182 | `adaptHeaders` copies `Object.entries(headers)` of a `Headers` object. That object has no own enumerable properties, so no header is copied. | A proxied response with `content-type: text/html` comes back with no headers. | Copy every header of the proxied response. | medium, not executed | `FleekConverter.AdaptAsWrittenDropsHeaders` | `FleekConverter.Adapt` |
| packages/open-next/src/converters/fleek.ts:160-165 | `while (chunk)` tests the object `reader.read()` resolves to. That object is truthy even when `done` is set, so the loop never ends. | A middleware result answered with an empty body: the first read is done, yet the loop keeps reading. | Loop while `!chunk.done`, so the body is read to its end and the response returned. | high, not executed | `FleekConverter.AsWrittenReadLoopNeverExits` | `FleekConverter.ReadToEnd` |
| packages/open-next/src/core/util.ts:89 | Assigning `undefined` to a `process.env` entry stores the text `"undefined"`, which is truthy. | A Pages Router path after an App Router one leaves `__NEXT_PRIVATE_PREBUNDLED_REACT` set. | Remove the variable, so that the prebundled React is selected only for App Router pages. | medium, not executed | `PrebundledReact.PagesRouteLeavesVariableSet` | `PrebundledReact.PrebundledExactlyForAppRoutes` |
