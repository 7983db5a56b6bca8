/** The initialisation function that seeds the tag cache from the
    `dynamodb-cache.json` file written at build time. The file's contents
    arrive already parsed, as a sequence of items. */
module DynamoProvider {
  import opened Common
  import opened TagCache

  const ResourceId: string := "dynamodb-cache"

  /** The initialisation event; its `type` is always `initializationFunction`. */
  datatype InitEvent = InitEvent(requestType: string, resourceId: string)

  /** One item of the seed file: `{tag: {S}, path: {S}, revalidatedAt: {N}}`. */
  datatype DynamoItem = DynamoItem(tag: string, path: string, revalidatedAtN: string)

  /** One item as a tag record, its number read with `parseInt`. */
  function ParseRecord(item: DynamoItem): TagRecord {
    var n := ParseInt(item.revalidatedAtN);
    TagRecord(item.path, item.tag, if n.Some? then Millis(n.value) else NotANumber)
  }

  /** `data.map(...)`: one record per item, in the same order. */
  function ParseRecords(items: seq<DynamoItem>): (r: seq<TagRecord>)
    ensures |r| == |items|
    ensures forall i :: 0 <= i < |items| ==>
              r[i].tag == items[i].tag && r[i].path == items[i].path && r[i] == ParseRecord(items[i])
  {
    if items == [] then [] else [ParseRecord(items[0])] + ParseRecords(items[1..])
  }

  /** An item whose number was printed from a non-negative integer carries
      that integer as its watermark. */
  lemma ParseRecordReadsPrintedNumber(tag: string, path: string, n: nat)
    ensures ParseRecord(DynamoItem(tag, path, NatToString(n))) == TagRecord(path, tag, Millis(n))
  {
    ParseIntOfNatToString(n);
  }

  /** `remove`: nothing is deleted. */
  function Remove(): (r: InitEvent)
    ensures r.requestType == "delete" && r.resourceId == ResourceId
  {
    InitEvent("delete", ResourceId)
  }

  /** `insert`: every seed item is written in one `writeTags` call, and the
      request type is echoed. */
  method Insert(cache: Upstash, requestType: string, data: seq<DynamoItem>, now: int, up: bool) returns (r: InitEvent)
    modifies cache
    ensures r == InitEvent(requestType, ResourceId)
    ensures up ==> cache.State() == ApplyAll(old(cache.State()), Pipeline(cache.buildId, ParseRecords(data), now))
    ensures !up ==> cache.State() == old(cache.State())
  {
    cache.WriteTags(ParseRecords(data), now, up);
    r := InitEvent(requestType, ResourceId);
  }

  /** `defaultHandler`: `delete` goes to `remove`, every other request type
      to `insert`. */
  method DefaultHandler(cache: Upstash, ev: InitEvent, data: seq<DynamoItem>, now: int, up: bool) returns (r: InitEvent)
    modifies cache
    ensures ev.requestType == "delete" ==> r == Remove() && cache.State() == old(cache.State())
    ensures ev.requestType != "delete" ==> r == InitEvent(ev.requestType, ResourceId)
    ensures ev.requestType != "delete" && up ==>
              cache.State() == ApplyAll(old(cache.State()), Pipeline(cache.buildId, ParseRecords(data), now))
    ensures ev.requestType != "delete" && !up ==> cache.State() == old(cache.State())
  {
    if ev.requestType == "delete" {
      r := Remove();
    } else {
      r := Insert(cache, ev.requestType, data, now, up);
    }
  }

  /** After seeding, each item's tag is listed for its path and its path for
      its tag. */
  lemma SeededItemsAreIndexed(buildId: Option<string>, st: Store, data: seq<DynamoItem>, now: int, i: int)
    requires 0 <= i < |data|
    ensures var after := ApplyAll(st, Pipeline(buildId, ParseRecords(data), now));
            data[i].tag in Members(after, PathKey(buildId, data[i].path)) &&
            data[i].path in Members(after, TagKey(buildId, data[i].tag))
  {
    WriteThenRead(buildId, st, ParseRecords(data), now, i);
  }
}
