/**
 * The `request` helper and the failures of the script. The HTTP exchange
 * itself is not modelled: an answer is either a rejected `fetch`, or a
 * response given by its status, its status text, its body text, and the
 * outcome of `JSON.parse` on that text.
 */
module Api {
  import opened Wrappers
  import opened Json

  /** What a single request can fail with. */
  datatype RequestError =
    | ApiError(status: int, message: string)   // non-2xx response
    | InvalidJson                                // a 2xx body that is not JSON
    | NetworkError                               // `fetch` or reading the body rejects

  /** What the server does with one request. */
  datatype Answer =
    | Unreachable                                // no response: `fetch` or `response.text()` rejects
    | Response(status: int, statusText: string, body: string, parsed: Option<JsonValue>)

  /** `response.ok`: a status in the range 200 to 299. */
  predicate IsOk(status: int) {
    200 <= status <= 299
  }

  /** Everything that ends the script with exit code 1 after argument checking. */
  datatype Failure =
    | RequestFailed(cause: RequestError)
    | TimedOut                                   // no results within the poll budget
    | Malformed                                  // a payload shape on which the script throws
    | DateOutOfRange                             // an absolute bound `toISOString` rejects

  const Prefix: string := "Honeycomb API error: "

  /**
   * The message of the error thrown for a non-2xx response. `parsed` is
   * `JSON.parse(errorText)`, `None` when it throws. Reading `.error` of a
   * parsed `null` throws inside the same `try`, so it falls back like
   * unparsable text.
   */
  function ErrorMessage(statusText: string, errorText: string, parsed: Option<JsonValue>): (msg: string)
    ensures |msg| >= |Prefix| && msg[..|Prefix|] == Prefix
  {
    match parsed
    case Some(j) =>
      if j.JNull? then
        (if errorText != "" then Prefix + errorText else Prefix + statusText)
      else if Prop(j, "error").Some? && Truthy(Prop(j, "error").value) then
        Prefix + JsString(Prop(j, "error").value)
      else
        Prefix + statusText
    case None =>
      if errorText != "" then Prefix + errorText else Prefix + statusText
  }

  /**
   * `request`: the parsed body of a 2xx response; for any other status an
   * `ApiError` carrying that status code and the chosen message; a 2xx body
   * that is not JSON is `InvalidJson`.
   */
  function Request(a: Answer): (r: Result<JsonValue, RequestError>)
    ensures r.Ok? <==> a.Response? && IsOk(a.status) && a.parsed.Some?
    ensures r.Ok? ==> r.value == a.parsed.value
    ensures r.Err? && r.error.ApiError? <==> a.Response? && !IsOk(a.status)
    ensures r.Err? && r.error.ApiError? ==>
      r.error.status == a.status && r.error.message == ErrorMessage(a.statusText, a.body, a.parsed)
    ensures r == Err(NetworkError) <==> a.Unreachable?
  {
    match a
    case Unreachable => Err(NetworkError)
    case Response(status, statusText, body, parsed) =>
      if !IsOk(status) then Err(ApiError(status, ErrorMessage(statusText, body, parsed)))
      else if parsed.None? then Err(InvalidJson)
      else Ok(parsed.value)
  }

  /** The message names whichever of the three sources applies: `error` field, raw text, status text. */
  lemma ErrorMessageSource(statusText: string, errorText: string, parsed: Option<JsonValue>)
    ensures var detail := ErrorMessage(statusText, errorText, parsed)[|Prefix|..];
      var usable := parsed.Some? && !parsed.value.JNull?;
      && ((usable && Prop(parsed.value, "error").Some? && Truthy(Prop(parsed.value, "error").value))
          ==> detail == JsString(Prop(parsed.value, "error").value))
      && ((usable && !(Prop(parsed.value, "error").Some? && Truthy(Prop(parsed.value, "error").value)))
          ==> detail == statusText)
      && (!usable && errorText != "" ==> detail == errorText)
      && (!usable && errorText == "" ==> detail == statusText)
  {
  }

  /**
   * A body that parses but has no truthy `error` field reports the status
   * text, never the raw body, even when the body is not empty.
   */
  lemma ParsedWithoutErrorUsesStatusText(statusText: string, errorText: string, fields: map<string, JsonValue>)
    requires "error" !in fields
    ensures ErrorMessage(statusText, errorText, Some(JObject(fields))) == Prefix + statusText
  {
  }

  /** A body of `null` parses, yet is reported through the raw-text fallback. */
  lemma NullBodyUsesRawText(statusText: string)
    ensures ErrorMessage(statusText, "null", Some(JNull)) == Prefix + "null"
  {
  }
}
