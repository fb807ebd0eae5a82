/** The chat component of app/components/chat/chat.tsx: it posts the
    conversation to /api/chat and streams the answer into one assistant
    message, reading newline-delimited JSON with a fallback for text that is
    not JSON. `JSON.parse` is the parameter `parse`; the optional
    `onWeatherUpdate` callback is recorded as the list of values passed to it. */
module ChatView {
  import opened Wrappers
  import opened Strings
  import opened Js
  import opened Messages
  import opened Ndjson
  import opened ChatState

  /** A displayed message: no id in this component. */
  datatype DisplayMessage = DisplayMessage(role: Role, text: string, error: Option<bool>)

  /** The text appended when reading the stream fails. */
  const PROCESSING_ERROR := "\nAn error occurred while processing the response.\n"

  /** `a || b` on optional flags. */
  function OrFlag(a: Option<bool>, b: Option<bool>): Option<bool> {
    if a == Some(true) then a else b
  }

  /** `appendToLastMessage(text, error)`: only the last message changes; its
      text gets `text` appended and it is an error if it was one or `error` is
      set. On an empty list the source throws, which the component never
      reaches: a placeholder is appended before any call. */
  function AppendToLast(msgs: seq<DisplayMessage>, text: string, error: Option<bool>): (r: seq<DisplayMessage>)
    requires msgs != []
    ensures |r| == |msgs| && r[..|r| - 1] == msgs[..|msgs| - 1]
    ensures r[|r| - 1].role == msgs[|msgs| - 1].role
    ensures r[|r| - 1].text == msgs[|msgs| - 1].text + text
    ensures r[|r| - 1].error == Some(true) <==> msgs[|msgs| - 1].error == Some(true) || error == Some(true)
  {
    var last := msgs[|msgs| - 1];
    msgs[..|msgs| - 1] + [last.(text := last.text + text, error := OrFlag(last.error, error))]
  }

  /** `b` is `a` with at most its last message's text and error flag changed. */
  predicate SameButLast(a: seq<DisplayMessage>, b: seq<DisplayMessage>) {
    && a != [] && |b| == |a|
    && b[..|b| - 1] == a[..|a| - 1]
    && b[|b| - 1].role == a[|a| - 1].role
  }

  /** What the stream has shown: the messages and the values passed to
      `onWeatherUpdate`, in order. */
  datatype View = View(msgs: seq<DisplayMessage>, weather: seq<JsValue>)

  /** The `switch (data.type)` on a parsed line; `None` when `data.type` throws
      (the line parsed to `null`). */
  function ApplyData(v: View, data: JsValue, hasCallback: bool): (r: Option<View>)
    requires v.msgs != []
    ensures r.None? <==> IsNullish(data)
    ensures r.Some? ==> SameButLast(v.msgs, r.value.msgs)
  {
    match Get(data, "type")
    case None => None
    case Some(kind) =>
      if kind == Str("weather_data") then
        var payload := OptGet(data, "data");
        if hasCallback && Truthy(payload) then
          var errorField := OptGet(data, "error");
          var msgs := if Truthy(errorField)
            then AppendToLast(v.msgs, "Error getting weather: " + ToJsString(errorField) + "\n", Some(true))
            else v.msgs;
          Some(View(msgs, v.weather + [payload]))
        else Some(v)
      else if kind == Str("content") then
        var content := OptGet(data, "content");
        if Truthy(content) then Some(v.(msgs := AppendToLast(v.msgs, ToJsString(content), None)))
        else Some(v)
      else Some(v)
  }

  /** One complete line (`!line.trim()` is `IsBlank(line)`, see
      `Strings.TrimEmptyIffBlank`): blank lines are skipped; a line that does not parse,
      or whose `type` cannot be read, is shown verbatim followed by '\n'. */
  function ApplyChatLine(v: View, line: string, parse: string -> Option<JsValue>, hasCallback: bool): (r: View)
    requires v.msgs != []
    ensures SameButLast(v.msgs, r.msgs)
  {
    if IsBlank(line) then v
    else
      var applied := match parse(line)
        case Some(data) => ApplyData(v, data, hasCallback)
        case None => None;
      match applied
      case Some(next) => next
      case None => v.(msgs := AppendToLast(v.msgs, line + "\n", None))
  }

  function ApplyChatLines(v: View, lines: seq<string>, parse: string -> Option<JsValue>, hasCallback: bool): (r: View)
    requires v.msgs != []
    ensures SameButLast(v.msgs, r.msgs)
  {
    if lines == [] then v
    else ApplyChatLine(ApplyChatLines(v, lines[..|lines| - 1], parse, hasCallback), lines[|lines| - 1], parse, hasCallback)
  }

  lemma ApplyChatLinesSnoc(v: View, ls: seq<string>, l: string, parse: string -> Option<JsValue>, hasCallback: bool)
    requires v.msgs != []
    ensures ApplyChatLines(v, ls + [l], parse, hasCallback) == ApplyChatLine(ApplyChatLines(v, ls, parse, hasCallback), l, parse, hasCallback)
  {
    assert (ls + [l])[..|ls|] == ls;
  }

  /** The view and the buffer between reads. */
  datatype Reading = Reading(view: View, buffer: string)

  /** What the buffer keeps after a read: the text after the last '\n', except
      that a non-blank remainder without '{' is shown at once and dropped. */
  function Flush(v: View, rest: string): (r: Reading)
    requires v.msgs != []
    ensures SameButLast(v.msgs, r.view.msgs)
  {
    if !IsBlank(rest) && '{' !in rest
    then Reading(v.(msgs := AppendToLast(v.msgs, rest, None)), "")
    else Reading(v, rest)
  }

  /** One read: append it to the buffer, apply its complete lines, flush. */
  function ReadStepSpec(rd: Reading, chunk: string, parse: string -> Option<JsValue>, hasCallback: bool): (r: Reading)
    requires rd.view.msgs != []
    ensures SameButLast(rd.view.msgs, r.view.msgs)
  {
    var text := rd.buffer + chunk;
    Flush(ApplyChatLines(rd.view, Lines(text), parse, hasCallback), Rest(text))
  }

  /** All reads, one after the other. */
  function Drain(rd: Reading, chunks: seq<string>, parse: string -> Option<JsValue>, hasCallback: bool): (r: Reading)
    requires rd.view.msgs != []
    ensures SameButLast(rd.view.msgs, r.view.msgs)
  {
    if chunks == [] then rd
    else ReadStepSpec(Drain(rd, chunks[..|chunks| - 1], parse, hasCallback), chunks[|chunks| - 1], parse, hasCallback)
  }

  /** The buffer left after a read holds no '\n', and holds a '{' unless it is blank. */
  predicate BufferShape(buffer: string) {
    '\n' !in buffer && (IsBlank(buffer) || '{' in buffer)
  }

  lemma FlushShape(v: View, rest: string)
    requires v.msgs != [] && '\n' !in rest
    ensures BufferShape(Flush(v, rest).buffer)
  {
  }

  /** After every read, whatever the reads were, the buffer has that shape. */
  lemma DrainShape(rd: Reading, chunks: seq<string>, parse: string -> Option<JsValue>, hasCallback: bool)
    requires rd.view.msgs != [] && chunks != []
    ensures BufferShape(Drain(rd, chunks, parse, hasCallback).buffer)
  {
    var prev := Drain(rd, chunks[..|chunks| - 1], parse, hasCallback);
    var text := prev.buffer + chunks[|chunks| - 1];
    FlushShape(ApplyChatLines(prev.view, Lines(text), parse, hasCallback), Rest(text));
  }

  /** The inner `while (buffer.includes('\n'))` loop of one read. */
  method DrainLines(v0: View, text: string, parse: string -> Option<JsValue>, hasCallback: bool) returns (v: View, buffer: string)
    requires v0.msgs != []
    ensures v == ApplyChatLines(v0, Lines(text), parse, hasCallback) && buffer == Rest(text)
  {
    v, buffer := v0, text;
    ghost var done: seq<string> := [];
    assert done + Lines(buffer) == Lines(text);
    while '\n' in buffer
      invariant Lines(text) == done + Lines(buffer) && Rest(text) == Rest(buffer)
      invariant v == ApplyChatLines(v0, done, parse, hasCallback)
      decreases |buffer|
    {
      var k := IndexOf(buffer, '\n');
      var line := buffer[..k];
      CutStep(text, done, buffer);
      ApplyChatLinesSnoc(v0, done, line, parse, hasCallback);
      v := ApplyChatLine(v, line, parse, hasCallback);
      done := done + [line];
      buffer := buffer[k + 1..];
    }
    CutDone(text, done, buffer);
  }

  /** `processStreamResponse` after its body check: append the placeholder,
      then read, cut and flush chunk by chunk; a failed read appends the
      processing error to the streamed message. */
  method ProcessChunks(msgs0: seq<DisplayMessage>, chunks: seq<string>, failed: bool, parse: string -> Option<JsValue>, hasCallback: bool)
    returns (v: View)
    ensures v == ProcessResult(msgs0, chunks, failed, parse, hasCallback)
  {
    var start := Reading(View(msgs0 + [DisplayMessage(Assistant, "", None)], []), "");
    v := start.view;
    var buffer := "";
    for r := 0 to |chunks|
      invariant v.msgs != []
      invariant Reading(v, buffer) == Drain(start, chunks[..r], parse, hasCallback)
    {
      assert chunks[..r + 1][..r] == chunks[..r];
      v, buffer := DrainLines(v, buffer + chunks[r], parse, hasCallback);
      if !IsBlank(buffer) && '{' !in buffer {
        v := v.(msgs := AppendToLast(v.msgs, buffer, None));
        buffer := "";
      }
    }
    assert chunks[..|chunks|] == chunks;
    if failed {
      v := v.(msgs := AppendToLast(v.msgs, PROCESSING_ERROR, Some(true)));
    }
  }

  /** The specification of `processStreamResponse` once the body exists: the
      earlier messages are kept and one assistant message is streamed into. */
  function ProcessResult(msgs0: seq<DisplayMessage>, chunks: seq<string>, failed: bool, parse: string -> Option<JsValue>, hasCallback: bool): (r: View)
    ensures |r.msgs| == |msgs0| + 1 && r.msgs[..|msgs0|] == msgs0 && r.msgs[|msgs0|].role == Assistant
    ensures failed ==> r.msgs[|msgs0|].error == Some(true)
  {
    var placed := msgs0 + [DisplayMessage(Assistant, "", None)];
    assert placed[..|placed| - 1] == msgs0;
    var v := Drain(Reading(View(placed, []), ""), chunks, parse, hasCallback).view;
    if failed then v.(msgs := AppendToLast(v.msgs, PROCESSING_ERROR, Some(true))) else v
  }

  /** What `fetch('/api/chat', ...)` gives: it throws, or a response with its
      `ok` flag and its body. */
  datatype ChatFetch = FetchFailed | Fetched(ok: bool, body: StreamBody)

  /** The outcome of `sendMessage`: whether `onWeatherRequest` was called, the
      messages and the weather updates. */
  datatype Sent = Sent(weatherRequested: bool, msgs: seq<DisplayMessage>, weather: seq<JsValue>)

  /** `text.toLowerCase().includes('weather')`. */
  predicate AsksForWeather(text: string) {
    Contains(ToLower(text), "weather")
  }

  /** The specification of `sendMessage`: a failed fetch, a non-ok status or a
      missing body append the TRY_AGAIN error message instead of a stream. */
  function SendResult(msgs0: seq<DisplayMessage>, text: string, fetched: ChatFetch, parse: string -> Option<JsValue>, hasCallback: bool): Sent {
    var asked := AsksForWeather(text);
    var failure := Sent(asked, msgs0 + [DisplayMessage(Assistant, TRY_AGAIN, Some(true))], []);
    match fetched
    case FetchFailed => failure
    case Fetched(ok, body) =>
      if !ok || body.NoBody? then failure
      else
        var v := ProcessResult(msgs0, body.chunks, body.failed, parse, hasCallback);
        Sent(asked, v.msgs, v.weather)
  }

  /** The text `handleSubmit` sends: none when the trimmed input is empty or a
      request is in progress, otherwise the trimmed input, which then has a
      non-whitespace character. */
  function SubmittedText(input: string, isProcessing: bool): (r: Option<string>)
    ensures r.None? <==> IsBlank(input) || isProcessing
    ensures r.Some? ==> r.value == Trim(input) && r.value != ""
  {
    TrimEmptyIffBlank(input);
    var trimmed := Trim(input);
    if trimmed == "" || isProcessing then None else Some(trimmed)
  }

  /** The component's state, as far as the submit flow uses it. */
  class Chat {
    var userInput: string
    var messages: seq<DisplayMessage>
    var isProcessing: bool
    var weatherUpdates: seq<JsValue>
    var weatherRequests: nat

    constructor ()
      ensures userInput == "" && messages == [] && !isProcessing
      ensures weatherUpdates == [] && weatherRequests == 0
    {
      userInput := "";
      messages := [];
      isProcessing := false;
      weatherUpdates := [];
      weatherRequests := 0;
    }

    /** The synchronous part of `handleSubmit`: nothing happens for blank input
        or while a request is in progress; otherwise the input is cleared, the
        trimmed text is shown as a user message and returned for sending. */
    method Submit() returns (sent: Option<string>)
      modifies this
      ensures sent == SubmittedText(old(userInput), old(isProcessing))
      ensures sent.None? ==> unchanged(this)
      ensures sent.Some? ==>
                && userInput == "" && isProcessing
                && messages == old(messages) + [DisplayMessage(User, sent.value, None)]
                && weatherUpdates == old(weatherUpdates) && weatherRequests == old(weatherRequests)
    {
      sent := SubmittedText(userInput, isProcessing);
      if sent.None? {
        return;
      }
      messages := messages + [DisplayMessage(User, sent.value, None)];
      userInput := "";
      isProcessing := true;
    }

    /** `sendMessage(text)` with the fetch outcome given, ending with the
        `finally` that clears `isProcessing`. */
    method Send(text: string, fetched: ChatFetch, parse: string -> Option<JsValue>, hasCallback: bool)
      modifies this
      ensures var s := SendResult(old(messages), text, fetched, parse, hasCallback);
              && messages == s.msgs
              && weatherUpdates == old(weatherUpdates) + s.weather
              && weatherRequests == old(weatherRequests) + (if AsksForWeather(text) then 1 else 0)
              && !isProcessing && userInput == old(userInput)
    {
      if AsksForWeather(text) {
        weatherRequests := weatherRequests + 1;
      }
      if fetched.FetchFailed? || !fetched.ok || fetched.body.NoBody? {
        messages := messages + [DisplayMessage(Assistant, TRY_AGAIN, Some(true))];
      } else {
        var v := ProcessChunks(messages, fetched.body.chunks, fetched.body.failed, parse, hasCallback);
        messages := v.msgs;
        weatherUpdates := weatherUpdates + v.weather;
      }
      isProcessing := false;
    }
  }

  /** Every send shows the earlier messages unchanged followed by one
      assistant message: the TRY_AGAIN error when no stream could be read, and
      an error-marked message when reading failed part way. */
  lemma SendKeepsEarlier(msgs0: seq<DisplayMessage>, text: string, fetched: ChatFetch, parse: string -> Option<JsValue>, hasCallback: bool)
    ensures var s := SendResult(msgs0, text, fetched, parse, hasCallback);
            && |s.msgs| == |msgs0| + 1 && s.msgs[..|msgs0|] == msgs0
            && s.msgs[|msgs0|].role == Assistant
            && (fetched.Fetched? && fetched.ok && fetched.body.Reads? && fetched.body.failed ==> s.msgs[|msgs0|].error == Some(true))
            && (fetched.FetchFailed? || !fetched.ok || fetched.body.NoBody? ==> s.msgs[|msgs0|] == DisplayMessage(Assistant, TRY_AGAIN, Some(true)))
  {
  }
}
