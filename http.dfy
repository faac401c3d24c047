/**
 * What the network hands back. A request either throws (no connection, a refused
 * CORS request, a `requests` exception) or answers with a status code, the raw body
 * text and the body as parsed JSON, when it parses.
 */
module Http {
  import opened Wrappers

  datatype Body<+T> = Parsed(value: T) | NotJson(parseError: string)

  datatype Reply<+T> = Raised(message: string) | Answered(code: int, text: string, body: Body<T>)

  /** `response.ok` of the Fetch API: a status in the range 200-299. */
  predicate Ok(code: int) {
    200 <= code <= 299
  }

  /** A JSON object whose values are all strings, keyed by field name. */
  type Object = map<string, string>

  /** `obj.get(key, default)`. */
  function Get(obj: Object, key: string, default: string): string {
    if key in obj then obj[key] else default
  }

  /** The speech-to-text vendor's reply to an upload: `{"upload_url": ...}`. */
  datatype UploadJson = UploadJson(uploadUrl: Option<string>)

  /** Its reply to a transcription request: `{"id": ...}`. */
  datatype SubmitJson = SubmitJson(id: Option<string>)

  /** Its reply to a status request; absent fields are `None`. */
  datatype StatusJson = StatusJson(status: Option<string>, text: Option<string>, error: Option<string>, confidence: Option<real>)
}
