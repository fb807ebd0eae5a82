/** Two small request and response helpers: `getResponseError`
    (app/utils/get-response-error.ts), the message shown for a failed API
    reply, and `getSearchParam` (app/utils/get-search-param.ts), the `q`
    parameter of a request URL. Parsing the body and the URL are inputs. */
module ResponseUtils {
  import opened Wrappers
  import opened Strings
  import opened Js
  import opened Messages

  /** `errorData?.details ?? errorData?.error ?? TRY_AGAIN`, with `json`
      the parsed body or `None` when `res.json()` throws. */
  function GetResponseError(json: Option<JsValue>): (r: JsValue)
    ensures json.None? ==> r == Str(TRY_AGAIN)
    ensures json.Some? && !IsNullish(OptGet(json.value, "details")) ==> r == OptGet(json.value, "details")
    ensures json.Some? && IsNullish(OptGet(json.value, "details")) && !IsNullish(OptGet(json.value, "error")) ==>
              r == OptGet(json.value, "error")
    ensures json.Some? && IsNullish(OptGet(json.value, "details")) && IsNullish(OptGet(json.value, "error")) ==>
              r == Str(TRY_AGAIN)
    ensures !IsNullish(r)
  {
    match json
    case None => Str(TRY_AGAIN)
    case Some(errorData) =>
      Coalesce(OptGet(errorData, "details"), Coalesce(OptGet(errorData, "error"), Str(TRY_AGAIN)))
  }

  /** A body that is not an object (an array, a string, a number, ...) carries
      no message. */
  lemma PrimitiveBodyTriesAgain(v: JsValue)
    requires !v.Obj?
    ensures GetResponseError(Some(v)) == Str(TRY_AGAIN)
  {
  }

  /** `getSearchParam`: the `q` parameter as given, or `null` when it is
      missing or only whitespace. */
  function GetSearchParam(q: Option<string>): (r: Option<string>)
    ensures r.None? <==> q.None? || Trim(q.value) == ""
    ensures r.Some? ==> r == q
  {
    if q.None? || Trim(q.value) == "" then None else q
  }

  /** A query the helper returns has a character other than whitespace,
      and only whitespace-only or missing queries are refused. */
  lemma SearchParamNotBlank(q: Option<string>)
    ensures GetSearchParam(q).Some? <==> q.Some? && exists i :: 0 <= i < |q.value| && !IsJsSpace(q.value[i])
  {
    if q.Some? {
      TrimEmptyIffBlank(q.value);
    }
  }
}
