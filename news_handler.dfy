/** The client side of a news search (app/components/chat/handlers/news-handler.ts):
    the request's outcome is an input, and what the handler does with it is a
    log of its calls to `appendMessage('assistant', …)` and `onNewsResults`. */
module NewsHandler {
  import opened Wrappers
  import opened Strings
  import opened Js
  import opened Messages

  const PARSE_FAILURE_TEXT := "Couldn't understand results. Try a different query."
  const INTERNAL_ERROR_TEXT := "An internal error occurred. Please try again later."
  const DEFAULT_LOCALITY := "the locality"

  /** One call the handler makes: an assistant message, or `onNewsResults(p)`
      with `p == None` standing for `null`. */
  datatype NewsEffect = Appended(text: string, error: Option<bool>) | NewsResults(previews: Option<JsValue>)

  /** The calls made, in order, and whether the handler ended by throwing. */
  datatype NewsRun = NewsRun(effects: seq<NewsEffect>, threw: bool)

  /** How many elements a value that `.slice` was applied to holds. */
  function Size(v: JsValue): nat {
    match v
    case Arr(items) => |items|
    case Str(s) => |s|
    case _ => 0
  }

  /** `v.slice(0, 3)`: arrays and strings keep their first three elements;
      any other value has no `slice` method and the call throws (`None`). */
  function Slice3(v: JsValue): (r: Option<JsValue>)
    ensures r.Some? <==> v.Arr? || v.Str?
    ensures v.Arr? ==> r == Some(Arr(v.items[..if |v.items| < 3 then |v.items| else 3]))
    ensures r.Some? ==> Size(r.value) <= 3 && Size(r.value) == (if Size(v) < 3 then Size(v) else 3)
  {
    match v
    case Arr(items) => Some(Arr(items[..if |items| < 3 then |items| else 3]))
    case Str(s) => Some(Str(s[..if |s| < 3 then |s| else 3]))
    case _ => None
  }

  /** `(data?.details && data.details.query) || 'the locality'`. */
  function Locality(data: JsValue): (r: JsValue)
    ensures Truthy(r)
    ensures Truthy(OptGet(data, "details")) && Truthy(OptGet(OptGet(data, "details"), "query")) ==>
              r == OptGet(OptGet(data, "details"), "query")
  {
    var details := OptGet(data, "details");
    if Truthy(details) && Truthy(OptGet(details, "query")) then OptGet(details, "query")
    else Str(DEFAULT_LOCALITY)
  }

  /** The error code of a failed response: `data?.error`. */
  function Code(data: JsValue): JsValue {
    OptGet(data, "error")
  }

  /** `data?.userMessage && typeof data.userMessage === 'string'`. */
  predicate HasUserMessage(data: JsValue) {
    IsNonEmptyStr(OptGet(data, "userMessage"))
  }

  /** The message for a non-ok response, by priority: a non-empty string
      `userMessage`; the no-verified-events text naming the locality; the
      texts for PARSE_FAILURE and INTERNAL_ERROR; any other string code as it
      is; TRY_AGAIN. (app/examples/search/news-search.tsx repeats this chain
      in its POST path.) */
  function ErrorText(data: JsValue): (r: string)
    ensures HasUserMessage(data) ==> r == OptGet(data, "userMessage").s
    ensures !HasUserMessage(data) && Code(data) == Str(NO_VERIFIED_EVENTS) ==>
              r == "No multi-source events found for " + ToJsString(Locality(data)) + "."
    ensures !HasUserMessage(data) && !Code(data).Str? ==> r == TRY_AGAIN
    ensures r == "" <==> !HasUserMessage(data) && Code(data) == Str("")
  {
    var code := Code(data);
    if HasUserMessage(data) then OptGet(data, "userMessage").s
    else if code == Str(NO_VERIFIED_EVENTS) then "No multi-source events found for " + ToJsString(Locality(data)) + "."
    else if code == Str(PARSE_FAILURE) then PARSE_FAILURE_TEXT
    else if code == Str(INTERNAL_ERROR) then INTERNAL_ERROR_TEXT
    else if code.Str? then code.s
    else TRY_AGAIN
  }

  /** `onNewsResults?.(arg)`: no call, and no evaluation of the argument, when
      there is no callback; `arg == None` is an argument that throws. */
  function Notify(hasCallback: bool, arg: Option<JsValue>): (r: Option<seq<NewsEffect>>)
    ensures !hasCallback ==> r == Some([])
    ensures hasCallback ==> (r.Some? <==> arg.Some?)
    ensures hasCallback && arg.Some? ==> r == Some([NewsResults(Some(arg.value))])
  {
    if !hasCallback then Some([])
    else if arg.None? then None
    else Some([NewsResults(Some(arg.value))])
  }

  /** `log` followed by whatever `Notify` adds, or by the throw it raises. */
  function Then(log: seq<NewsEffect>, n: Option<seq<NewsEffect>>): NewsRun {
    match n
    case Some(more) => NewsRun(log + more, false)
    case None => NewsRun(log, true)
  }

  /** The handler after `onNewsResults?.(null)` and the request. */
  function Handle(start: seq<NewsEffect>, reply: FetchReply, hasCallback: bool): NewsRun {
    match reply
    case FetchThrew => NewsRun(start, true)
    case Replied(ok, json) =>
      if json.None? then NewsRun(start, true)
      else
        var data := json.value;
        if !ok then
          var logged := start + [Appended(ErrorText(data), Some(true))];
          match Get(data, "previews")
          case None => NewsRun(logged, true)
          case Some(p) =>
            if p.Arr? && |p.items| > 0 then Then(logged, Notify(hasCallback, Slice3(p)))
            else NewsRun(logged, false)
        else
          match Get(data, "previews")
          case None => NewsRun(start, true)
          case Some(p) =>
            if Truthy(p) && p.Arr? then Then(start, Notify(hasCallback, Slice3(p)))
            else if Truthy(OptGet(data, "error")) then
              var logged := start + [Appended(if OptGet(data, "error") == Str(PARSE_FAILURE) then PARSE_FAILURE_TEXT
                                              else UNEXPECTED_RESPONSE, None)];
              if Truthy(p) then Then(logged, Notify(hasCallback, Slice3(p)))
              else NewsRun(logged, false)
            else NewsRun(start + [Appended(UNEXPECTED_RESPONSE, None)], false)
  }

  /** Every previews value forwarded holds at most three previews. */
  predicate AtMostThree(effects: seq<NewsEffect>) {
    forall i :: 0 <= i < |effects| && effects[i].NewsResults? && effects[i].previews.Some? ==>
      Size(effects[i].previews.value) <= 3
  }

  /** `handleNews(text, appendMessage, onNewsResults)`: previews are first
      cleared, then the reply decides what is shown. The first call clears
      the previews when there is a callback, and no call ever forwards more
      than three previews. */
  function HandleNews(reply: FetchReply, hasCallback: bool): (r: NewsRun)
    ensures hasCallback ==> |r.effects| > 0 && r.effects[0] == NewsResults(None)
    ensures !hasCallback ==> forall i :: 0 <= i < |r.effects| ==> !r.effects[i].NewsResults?
    ensures AtMostThree(r.effects)
  {
    Handle(if hasCallback then [NewsResults(None)] else [], reply, hasCallback)
  }

  /** The messages the run appended. */
  function AppendedTexts(effects: seq<NewsEffect>): seq<(string, Option<bool>)> {
    if effects == [] then []
    else AppendedTexts(effects[..|effects| - 1]) +
         (if effects[|effects| - 1].Appended? then [(effects[|effects| - 1].text, effects[|effects| - 1].error)] else [])
  }

  lemma {:induction false} AppendedTextsAppend(a: seq<NewsEffect>, b: seq<NewsEffect>)
    ensures AppendedTexts(a + b) == AppendedTexts(a) + AppendedTexts(b)
    decreases |b|
  {
    if b == [] {
      assert a + b == a;
    } else {
      var init := b[..|b| - 1];
      assert (a + b)[..|a + b| - 1] == a + init;
      AppendedTextsAppend(a, init);
    }
  }

  lemma NoneAppendedByNotify(x: Option<JsValue>)
    ensures AppendedTexts([NewsResults(x)]) == []
  {
    assert [NewsResults(x)][..0] == [];
  }

  lemma OneAppended(text: string, error: Option<bool>)
    ensures AppendedTexts([Appended(text, error)]) == [(text, error)]
  {
    assert [Appended(text, error)][..0] == [];
  }

  /** A non-ok reply with a JSON body appends exactly one message, the
      mapped error text flagged as an error; the previews it forwards are the
      first three of a non-empty top-level `previews` array. */
  lemma NonOkAppendsOneError(data: JsValue, hasCallback: bool)
    ensures var r := HandleNews(Replied(false, Some(data)), hasCallback);
            && AppendedTexts(r.effects) == [(ErrorText(data), Some(true))]
            && (r.threw <==> IsNullish(data))
            && (forall i :: 0 <= i < |r.effects| && r.effects[i].NewsResults? && r.effects[i].previews.Some? ==>
                  var p := OptGet(data, "previews");
                  p.Arr? && |p.items| > 0 && r.effects[i].previews.value.items == p.items[..Size(r.effects[i].previews.value)])
  {
    var start: seq<NewsEffect> := if hasCallback then [NewsResults(None)] else [];
    var logged := start + [Appended(ErrorText(data), Some(true))];
    var r := HandleNews(Replied(false, Some(data)), hasCallback);
    if hasCallback {
      NoneAppendedByNotify(None);
    }
    assert AppendedTexts(start) == [];
    AppendedTextsAppend(start, [Appended(ErrorText(data), Some(true))]);
    OneAppended(ErrorText(data), Some(true));
    assert AppendedTexts(logged) == [(ErrorText(data), Some(true))];
    if r.effects != logged {
      var p := OptGet(data, "previews");
      assert p.Arr? && |p.items| > 0 && hasCallback;
      var x := Slice3(p).value;
      assert r.effects == logged + [NewsResults(Some(x))];
      AppendedTextsAppend(logged, [NewsResults(Some(x))]);
      NoneAppendedByNotify(Some(x));
    }
  }

  /** An ok reply whose `previews` is an array forwards its first three and
      appends no message. */
  lemma OkPreviewsAppendNothing(data: JsValue, hasCallback: bool)
    requires OptGet(data, "previews").Arr? && !IsNullish(data)
    ensures var r := HandleNews(Replied(true, Some(data)), hasCallback);
            var p := OptGet(data, "previews");
            && !r.threw
            && AppendedTexts(r.effects) == []
            && r.effects == (if hasCallback then [NewsResults(None), NewsResults(Slice3(p))] else [])
  {
    if hasCallback {
      var p := OptGet(data, "previews");
      NoneAppendedByNotify(None);
      NoneAppendedByNotify(Slice3(p));
      AppendedTextsAppend([NewsResults(None)], [NewsResults(Slice3(p))]);
    }
  }

  /** An ok reply without a previews array appends one message, without the
      error flag: the PARSE_FAILURE text for that code, otherwise
      UNEXPECTED_RESPONSE. */
  lemma OkWithoutPreviewsAppendsOne(data: JsValue, hasCallback: bool)
    requires !IsNullish(data) && !OptGet(data, "previews").Arr?
    ensures var r := HandleNews(Replied(true, Some(data)), hasCallback);
            AppendedTexts(r.effects) ==
              [(if OptGet(data, "error") == Str(PARSE_FAILURE) then PARSE_FAILURE_TEXT else UNEXPECTED_RESPONSE, None)]
  {
    var start: seq<NewsEffect> := if hasCallback then [NewsResults(None)] else [];
    var text := if OptGet(data, "error") == Str(PARSE_FAILURE) then PARSE_FAILURE_TEXT else UNEXPECTED_RESPONSE;
    var logged := start + [Appended(text, None)];
    var r := HandleNews(Replied(true, Some(data)), hasCallback);
    if hasCallback {
      NoneAppendedByNotify(None);
    }
    assert AppendedTexts(start) == [];
    AppendedTextsAppend(start, [Appended(text, None)]);
    OneAppended(text, None);
    if r.effects != logged {
      var x := Slice3(OptGet(data, "previews")).value;
      assert r.effects == logged + [NewsResults(Some(x))];
      AppendedTextsAppend(logged, [NewsResults(Some(x))]);
      NoneAppendedByNotify(Some(x));
    }
  }
}
