/** The stand-alone news search page (app/examples/search/news-search.tsx): its
    message list, input, busy flag, shown previews and test mode are the
    fields of a class; the replies of the endpoints it calls are inputs. */
module NewsSearchView {
  import opened Wrappers
  import opened Js
  import opened Messages
  import opened ChatState
  import opened ChatView
  import opened NewsHandler
  import opened NewsFixtures

  const PREVIEWS_READY := "Top previews ready."
  const CONTENT_UNPARSED := "Could not parse structured previews from the model output. Please check server logs."
  /** The last fallback of the POST path, which has no final period. */
  const UNEXPECTED_BARE := "Unexpected response from server"

  /** Which endpoint a search goes to. */
  datatype TestMode = MockMode | ValidMode | InvalidMode
  datatype Endpoint = SearchPost | TestValid | TestInvalid

  /** The part of the page that replies change. */
  datatype Screen = Screen(messages: seq<DisplayMessage>, previews: Option<JsValue>)

  /** A screen after a reply was handled, and whether handling threw. */
  datatype Handled = Handled(screen: Screen, threw: bool)

  /** `appendMessage('assistant', text, error)`. */
  function Say(s: Screen, text: string, error: Option<bool>): (r: Screen)
    ensures r.messages == s.messages + [DisplayMessage(Assistant, text, error)] && r.previews == s.previews
  {
    s.(messages := s.messages + [DisplayMessage(Assistant, text, error)])
  }

  /** `setPreviews(v.slice(0, 3))`, or the throw when `v` has no `slice`. */
  function ShowSlice(s: Screen, v: JsValue): (r: Handled)
    ensures r.screen.messages == s.messages
    ensures r.threw <==> Slice3(v).None?
    ensures !r.threw ==> r.screen.previews == Slice3(v)
    ensures r.threw ==> r.screen == s
  {
    match Slice3(v)
    case Some(x) => Handled(s.(previews := Some(x)), false)
    case None => Handled(s, true)
  }

  /** The previews shown are those before, or at most three new ones. */
  predicate PreviewsBounded(before: Screen, after: Screen) {
    after.previews == before.previews || (after.previews.Some? && Size(after.previews.value) <= 3)
  }

  /** The shorter error mapping of `handleTestResponse`: a non-empty string
      `userMessage`, then the no-verified-events text, then TRY_AGAIN. It
      agrees with the full chain except on the other string codes, which it
      maps to TRY_AGAIN. */
  function TestErrorText(data: JsValue): (r: string)
    ensures !Code(data).Str? || Code(data) == Str(NO_VERIFIED_EVENTS) || HasUserMessage(data) ==> r == ErrorText(data)
    ensures Code(data).Str? && Code(data) != Str(NO_VERIFIED_EVENTS) && !HasUserMessage(data) ==> r == TRY_AGAIN
  {
    if HasUserMessage(data) then OptGet(data, "userMessage").s
    else if Code(data) == Str(NO_VERIFIED_EVENTS) then "No multi-source events found for " + ToJsString(Locality(data)) + "."
    else TRY_AGAIN
  }

  /** `handleTestResponse(resp)` for a reply whose body parsed to `json`
      (`None` when `resp.json()` throws). A failed reply shows the previews
      nested under `details`; a successful one those at the top level. The
      earlier messages stay, at most one is added, and at most three previews
      are shown. */
  function TestResponse(s: Screen, ok: bool, json: Option<JsValue>): (r: Handled)
    ensures PreviewsBounded(s, r.screen)
    ensures |s.messages| <= |r.screen.messages| <= |s.messages| + 1 && r.screen.messages[..|s.messages|] == s.messages
    ensures !ok && json.Some? && json.value.Obj? ==>
              var d := OptGet(json.value, "details");
              && |r.screen.messages| == |s.messages| + 1
              && r.screen.messages[|s.messages|] == DisplayMessage(Assistant, TestErrorText(json.value), Some(true))
              && (r.screen.previews == s.previews || r.screen.previews == Slice3(OptGet(d, "previews")))
  {
    if json.None? then Handled(s, true)
    else
      var data := json.value;
      if !ok then
        var said := Say(s, TestErrorText(data), Some(true));
        match Get(data, "details")
        case None => Handled(said, true)
        case Some(details) =>
          var p := OptGet(details, "previews");
          if p.Arr? && |p.items| > 0 then ShowSlice(said, p) else Handled(said, false)
      else
        match Get(data, "previews")
        case None => Handled(s, true)
        case Some(p) =>
          if Truthy(p) && p.Arr? then Handled(Say(ShowSlice(s, p).screen, PREVIEWS_READY, None), false)
          else Handled(s, false)
  }

  /** The `try` block of the POST path, before its `catch`. */
  function PostFlow(s: Screen, reply: FetchReply): Handled {
    match reply
    case FetchThrew => Handled(s, true)
    case Replied(ok, json) =>
      if json.None? then Handled(s, true)
      else
        var data := json.value;
        if !ok then
          var said := Say(s, ErrorText(data), Some(true));
          match Get(data, "previews")
          case None => Handled(said, true)
          case Some(p) =>
            if p.Arr? && |p.items| > 0 then ShowSlice(said, p) else Handled(said, false)
        else
          match Get(data, "previews")
          case None => Handled(s, true)
          case Some(p) =>
            if Truthy(p) && p.Arr? then Handled(Say(ShowSlice(s, p).screen, PREVIEWS_READY, None), false)
            else if Truthy(OptGet(data, "error")) then
              var said := Say(s, if OptGet(data, "error") == Str(PARSE_FAILURE) then PARSE_FAILURE_TEXT
                                 else UNEXPECTED_RESPONSE, None);
              if Truthy(p) then ShowSlice(said, p) else Handled(said, false)
            else if Truthy(OptGet(data, "content")) then Handled(Say(s, CONTENT_UNPARSED, None), false)
            else Handled(Say(s, UNEXPECTED_BARE, None), false)
  }

  /** The POST path with its `catch`: anything thrown adds the TRY_AGAIN
      error. A failed reply with a JSON object shows the mapped error text
      first, and the previews it shows come from the top-level `previews`,
      never from `details`. */
  function PostResponse(s: Screen, reply: FetchReply): (r: Screen)
    ensures reply.Replied? && !reply.ok && reply.json.Some? && reply.json.value.Obj? ==>
              && |r.messages| > |s.messages|
              && r.messages[|s.messages|] == DisplayMessage(Assistant, ErrorText(reply.json.value), Some(true))
              && (r.previews == s.previews || r.previews == Slice3(OptGet(reply.json.value, "previews")))
  {
    var h := PostFlow(s, reply);
    if h.threw then Say(h.screen, TRY_AGAIN, Some(true)) else h.screen
  }

  /** The endpoint a search in a mode calls. */
  function EndpointOf(mode: TestMode): Endpoint {
    match mode
    case MockMode => SearchPost
    case ValidMode => TestValid
    case InvalidMode => TestInvalid
  }

  /** The POST path keeps the earlier messages and adds one or two assistant
      messages (two only when handling threw after the first), and shows at
      most three previews. */
  lemma PostResponseBounded(s: Screen, reply: FetchReply)
    ensures var r := PostResponse(s, reply);
            && PreviewsBounded(s, r)
            && |s.messages| + 1 <= |r.messages| <= |s.messages| + 2 && r.messages[..|s.messages|] == s.messages
            && forall i :: |s.messages| <= i < |r.messages| ==> r.messages[i].role == Assistant
  {
    var h := PostFlow(s, reply);
    assert h.screen.messages[..|s.messages|] == s.messages;
    if h.threw {
      assert PostResponse(s, reply).messages[..|h.screen.messages|] == h.screen.messages;
    }
  }

  /** In `valid` test mode the fixture's two previews are shown and the ready
      message is added. */
  lemma ValidFixtureShown(s: Screen)
    ensures TestResponse(s, true, Some(FixtureBodyJs(TestValidGet())))
            == Handled(Screen(s.messages + [DisplayMessage(Assistant, PREVIEWS_READY, None)],
                              Some(Arr(FixturesJs(VALID_PREVIEWS)))), false)
  {
    var items := FixturesJs(VALID_PREVIEWS);
    assert |items| == 2;
    assert items[..2] == items;
  }

  /** In `invalid` test mode the fixture's own user message is shown as an
      error, and its one preview, read from `details`, is shown. */
  lemma InvalidFixtureShown(s: Screen)
    ensures TestResponse(s, false, Some(FixtureBodyJs(TestInvalidGet())))
            == Handled(Screen(s.messages + [DisplayMessage(Assistant, INVALID_MESSAGE, Some(true))],
                              Some(Arr(FixturesJs(INVALID_PREVIEWS)))), false)
  {
    var body := FixtureBodyJs(TestInvalidGet());
    var items := FixturesJs(INVALID_PREVIEWS);
    assert |items| == 1 && items[..1] == items;
    assert "error" != "userMessage" by { assert "error"[0] != "userMessage"[0]; }
    LookupAt(body.props, "userMessage", 1);
    assert "error" != "details" by { assert "error"[0] != "details"[0]; }
    assert "userMessage" != "details" by { assert "userMessage"[0] != "details"[0]; }
    LookupAt(body.props, "details", 2);
  }

  /** The page's state. */
  class NewsSearch {
    var messages: seq<DisplayMessage>
    var userInput: string
    var isProcessing: bool
    var previews: Option<JsValue>
    var testMode: TestMode

    constructor ()
      ensures messages == [] && userInput == "" && !isProcessing && previews.None? && testMode == MockMode
    {
      messages := [];
      userInput := "";
      isProcessing := false;
      previews := None;
      testMode := MockMode;
    }

    /** The test-mode selector. */
    method SetTestMode(mode: TestMode)
      modifies this
      ensures testMode == mode
      ensures messages == old(messages) && userInput == old(userInput)
      ensures isProcessing == old(isProcessing) && previews == old(previews)
    {
      testMode := mode;
    }

    /** The synchronous part of `handleSubmit`, the same guard as the chat's:
        nothing happens for blank input or while busy; otherwise the input is
        cleared and the trimmed text shown and returned for the search. */
    method Submit() returns (sent: Option<string>)
      modifies this
      ensures sent == SubmittedText(old(userInput), old(isProcessing))
      ensures sent.None? ==> unchanged(this)
      ensures sent.Some? ==>
                && userInput == "" && isProcessing
                && messages == old(messages) + [DisplayMessage(User, sent.value, None)]
                && previews == old(previews) && testMode == old(testMode)
    {
      sent := SubmittedText(userInput, isProcessing);
      if sent.None? {
        return;
      }
      var shown := messages + [DisplayMessage(User, sent.value, None)];
      userInput, isProcessing, messages := "", true, shown;
    }

    /** `sendMessage(text)` given the reply of the endpoint it calls: the two
        test modes go to their fixture endpoint only and let a throw escape;
        the default mode POSTs and catches. The busy flag ends cleared. */
    method SendMessage(reply: FetchReply) returns (endpoint: Endpoint, threw: bool)
      modifies this
      ensures endpoint == EndpointOf(old(testMode))
      ensures endpoint == SearchPost <==> old(testMode) == MockMode
      ensures var s := Screen(old(messages), old(previews));
              var r := if old(testMode) == MockMode then Handled(PostResponse(s, reply), false)
                       else if reply.FetchThrew? then Handled(s, true)
                       else TestResponse(s, reply.ok, reply.json);
              && Screen(messages, previews) == r.screen && threw == r.threw
      ensures !isProcessing && userInput == old(userInput) && testMode == old(testMode)
    {
      endpoint := EndpointOf(testMode);
      var s := Screen(messages, previews);
      var r: Handled;
      if testMode == MockMode {
        r := Handled(PostResponse(s, reply), false);
      } else if reply.FetchThrew? {
        r := Handled(s, true);
      } else {
        r := TestResponse(s, reply.ok, reply.json);
      }
      messages, previews := r.screen.messages, r.screen.previews;
      threw := r.threw;
      isProcessing := false;
    }

    /** The "Get Valid" and "Get Invalid" buttons: one fixture request,
        whatever the mode, with the busy flag set around it. */
    method PressTestButton(valid: bool, reply: FetchReply) returns (endpoint: Endpoint, threw: bool)
      modifies this
      ensures endpoint == (if valid then TestValid else TestInvalid)
      ensures var s := Screen(old(messages), old(previews));
              var r := if reply.FetchThrew? then Handled(s, true) else TestResponse(s, reply.ok, reply.json);
              && Screen(messages, previews) == r.screen && threw == r.threw
      ensures !isProcessing && userInput == old(userInput) && testMode == old(testMode)
    {
      endpoint := if valid then TestValid else TestInvalid;
      isProcessing := true;
      var s := Screen(messages, previews);
      var r := if reply.FetchThrew? then Handled(s, true) else TestResponse(s, reply.ok, reply.json);
      messages, previews := r.screen.messages, r.screen.previews;
      threw := r.threw;
      isProcessing := false;
    }
  }
}
