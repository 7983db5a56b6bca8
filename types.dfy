/** The request and response records every handler passes around: an
    `InternalEvent` built by a converter from a platform request, and an
    `InternalResult` built by a handler and turned back into a platform
    response by the same converter. */
module OpenNextTypes {
  import opened Common

  /** A query parameter holds one string or a list of them. */
  datatype QueryValue = Single(s: string) | Multi(items: seq<string>)

  type Query = map<string, QueryValue>

  /** A response header holds one string, an ordered list (`set-cookie`), or
      `null`. */
  datatype HeaderValue = HOne(s: string) | HMany(items: seq<string>) | HNull

  /** How a request body became a `Buffer`: the bytes themselves, or text
      decoded with an encoding. The encodings are not modelled further. */
  datatype Encoding = Utf8 | Base64
  datatype Buffer = RawBytes(bytes: seq<bv8>) | Decoded(text: string, encoding: Encoding)

  /** A response body: text, or a stream that is not modelled further. */
  datatype ResultBody = TextBody(text: string) | StreamBody(name: string) | EmptyStream

  datatype InternalEvent = InternalEvent(
    kind: string,
    httpMethod: string,
    rawPath: string,
    url: string,
    body: Option<Buffer>,
    headers: map<string, string>,
    query: Query,
    cookies: map<string, Option<string>>,
    remoteAddress: string)

  datatype InternalResult = InternalResult(
    kind: string,
    statusCode: int,
    headers: map<string, HeaderValue>,
    body: ResultBody,
    isBase64Encoded: bool)

  /** JavaScript truthiness of a possibly missing string. */
  predicate Truthy(s: Option<string>) {
    s.Some? && s.value != ""
  }

  /** The entry of a string record under `k`, `undefined` when absent. */
  function Lookup<V>(m: map<string, V>, k: string): Option<V> {
    if k in m then Some(m[k]) else None
  }
}
