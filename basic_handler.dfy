/** The basic chat client, app/components/chat/handlers/basic-handler.ts: it
    posts the conversation, adds an empty assistant placeholder, and applies
    each newline-delimited JSON line of the streamed answer to that message.
    `JSON.parse` is the parameter `parse` (`None` when it throws); reads
    arrive as already-decoded strings. */
module BasicHandler {
  import opened Wrappers
  import opened Strings
  import opened Js
  import opened Messages
  import opened Ndjson
  import opened ChatState

  /** `messages.findIndex((m) => m.id === messageId)`, `None` for -1. */
  function FindIndex(msgs: seq<Message>, id: string): (r: Option<nat>)
    ensures r.None? <==> forall j :: 0 <= j < |msgs| ==> msgs[j].id != Some(id)
    ensures r.Some? ==> r.value < |msgs| && msgs[r.value].id == Some(id)
                        && forall j :: 0 <= j < r.value ==> msgs[j].id != Some(id)
  {
    if msgs == [] then None
    else if msgs[0].id == Some(id) then Some(0)
    else match FindIndex(msgs[1..], id)
      case Some(k) => Some(k + 1)
      case None => None
  }

  /** `updateMessageById(messages, id, {text, error})`: the first message with
      that id gets the new text and error flag; nothing else changes. */
  function UpdateMessageById(msgs: seq<Message>, id: string, text: string, error: bool): (r: seq<Message>)
    ensures |r| == |msgs|
    ensures FindIndex(msgs, id).None? ==> r == msgs
    ensures FindIndex(msgs, id).Some? ==>
              var k := FindIndex(msgs, id).value;
              && r[k] == msgs[k].(text := text, error := Some(error))
              && forall j :: 0 <= j < |msgs| && j != k ==> r[j] == msgs[j]
  {
    match FindIndex(msgs, id)
    case None => msgs
    case Some(k) => msgs[k := msgs[k].(text := text, error := Some(error))]
  }

  /** `appendToMessage(messages, id, content)`: the first message with that id
      has `content` appended to its text; nothing else changes. */
  function AppendToMessage(msgs: seq<Message>, id: string, content: string): (r: seq<Message>)
    ensures |r| == |msgs|
    ensures FindIndex(msgs, id).None? ==> r == msgs
    ensures FindIndex(msgs, id).Some? ==>
              var k := FindIndex(msgs, id).value;
              && r[k] == msgs[k].(text := msgs[k].text + content)
              && forall j :: 0 <= j < |msgs| && j != k ==> r[j] == msgs[j]
  {
    match FindIndex(msgs, id)
    case None => msgs
    case Some(k) => msgs[k := msgs[k].(text := msgs[k].text + content)]
  }

  /** `r` differs from `msgs` at most in the text and error flag of the first
      message with the id. */
  predicate OnlyTargetChanged(msgs: seq<Message>, r: seq<Message>, id: string) {
    && |r| == |msgs|
    && match FindIndex(msgs, id)
       case None => r == msgs
       case Some(k) =>
         && r[k].role == msgs[k].role && r[k].id == msgs[k].id
         && forall j :: 0 <= j < |msgs| && j != k ==> r[j] == msgs[j]
  }

  /** The first message with an id is the one at `k` when `k` holds it and no
      earlier one does. */
  lemma {:induction false} FindIndexAt(msgs: seq<Message>, id: string, k: nat)
    requires k < |msgs| && msgs[k].id == Some(id)
    requires forall j :: 0 <= j < k ==> msgs[j].id != Some(id)
    ensures FindIndex(msgs, id) == Some(k)
  {
    if k > 0 {
      assert forall j :: 0 <= j < k - 1 ==> msgs[1..][j] == msgs[j + 1];
      FindIndexAt(msgs[1..], id, k - 1);
    }
  }

  /** Changing only the target keeps it the target. */
  lemma OnlyTargetKeepsIndex(msgs: seq<Message>, r: seq<Message>, id: string)
    requires OnlyTargetChanged(msgs, r, id)
    ensures FindIndex(r, id) == FindIndex(msgs, id)
  {
    if FindIndex(msgs, id).Some? {
      var k := FindIndex(msgs, id).value;
      FindIndexAt(r, id, k);
    }
  }

  /** `updateMessagesFromStream`: a content event with string content appends
      it; an error event replaces the text with its content (or "Stream error")
      and marks the message as an error; anything else changes nothing. */
  function ApplyEvent(msgs: seq<Message>, id: string, parsed: JsValue): (r: seq<Message>)
    ensures OnlyTargetChanged(msgs, r, id)
  {
    var kind := OptGet(parsed, "type");
    var content := OptGet(parsed, "content");
    if kind == Str("content") && content.Str? then AppendToMessage(msgs, id, content.s)
    else if kind == Str("error") then
      UpdateMessageById(msgs, id, ToJsString(Or(content, Str(STREAM_ERROR))), true)
    else msgs
  }

  /** One line of the stream: trimmed; skipped when empty or unparsable. */
  function ApplyLine(msgs: seq<Message>, id: string, raw: string, parse: string -> Option<JsValue>): (r: seq<Message>)
    ensures OnlyTargetChanged(msgs, r, id)
  {
    var line := Trim(raw);
    if line == "" then msgs
    else match parse(line)
      case Some(v) => ApplyEvent(msgs, id, v)
      case None => msgs
  }

  /** A trimmed, non-empty line that parses is applied as its value. */
  lemma ParsedLineApplies(msgs: seq<Message>, id: string, raw: string, v: JsValue, parse: string -> Option<JsValue>)
    requires Trim(raw) == raw && raw != "" && parse(raw) == Some(v)
    ensures ApplyLine(msgs, id, raw, parse) == ApplyEvent(msgs, id, v)
  {
  }

  /** The lines applied one after the other, in order. */
  function ApplyLines(msgs: seq<Message>, id: string, lines: seq<string>, parse: string -> Option<JsValue>): seq<Message> {
    if lines == [] then msgs
    else ApplyLine(ApplyLines(msgs, id, lines[..|lines| - 1], parse), id, lines[|lines| - 1], parse)
  }

  lemma ApplyLinesSnoc(msgs: seq<Message>, id: string, ls: seq<string>, l: string, parse: string -> Option<JsValue>)
    ensures ApplyLines(msgs, id, ls + [l], parse) == ApplyLine(ApplyLines(msgs, id, ls, parse), id, l, parse)
  {
    assert (ls + [l])[..|ls|] == ls;
  }

  /** `processStream`: cut the growing buffer at each '\n' and apply each line;
      the text after the last '\n' is what is left in the buffer. */
  method ProcessStream(msgs0: seq<Message>, id: string, chunks: seq<string>, parse: string -> Option<JsValue>)
    returns (msgs: seq<Message>, buffer: string)
    ensures msgs == ApplyLines(msgs0, id, Lines(Concat(chunks)), parse)
    ensures buffer == Rest(Concat(chunks))
  {
    msgs, buffer := msgs0, "";
    NoNewline("");
    for r := 0 to |chunks|
      invariant msgs == ApplyLines(msgs0, id, Lines(Concat(chunks[..r])), parse)
      invariant buffer == Rest(Concat(chunks[..r]))
    {
      ReadStep(chunks, r);
      msgs, buffer := DrainBuffer(msgs0, id, msgs, buffer + chunks[r], parse,
                                  Concat(chunks[..r + 1]), Lines(Concat(chunks[..r])));
    }
    assert chunks[..|chunks|] == chunks;
  }

  /** The inner loop of `processStream`: apply every complete line of the
      buffer. `text` is everything read so far, whose lines `done` are those
      already applied to `msgs0` to give `current`. */
  method DrainBuffer(msgs0: seq<Message>, id: string, current: seq<Message>, buffer0: string,
                     parse: string -> Option<JsValue>, ghost text: string, ghost done0: seq<string>)
    returns (msgs: seq<Message>, buffer: string)
    requires Lines(text) == done0 + Lines(buffer0) && Rest(text) == Rest(buffer0)
    requires current == ApplyLines(msgs0, id, done0, parse)
    ensures msgs == ApplyLines(msgs0, id, Lines(text), parse)
    ensures buffer == Rest(text)
  {
    msgs, buffer := current, buffer0;
    ghost var done := done0;
    while '\n' in buffer
      invariant Lines(text) == done + Lines(buffer) && Rest(text) == Rest(buffer)
      invariant msgs == ApplyLines(msgs0, id, done, parse)
      decreases |buffer|
    {
      var k := IndexOf(buffer, '\n');
      var line := buffer[..k];
      CutStep(text, done, buffer);
      ApplyLinesSnoc(msgs0, id, done, line, parse);
      msgs := ApplyLine(msgs, id, line, parse);
      done := done + [line];
      buffer := buffer[k + 1..];
    }
    CutDone(text, done, buffer);
  }

  /** `handleStreamingResponse`: no body, or a failed read, makes the streamed
      message a TRY_AGAIN error; lines applied before a failure stay applied
      only to be overwritten by that error text. */
  function StreamResult(msgs0: seq<Message>, id: string, body: StreamBody, parse: string -> Option<JsValue>): seq<Message> {
    match body
    case NoBody => UpdateMessageById(msgs0, id, TRY_AGAIN, true)
    case Reads(chunks, failed) =>
      var msgs := ApplyLines(msgs0, id, Lines(Concat(chunks)), parse);
      if failed then UpdateMessageById(msgs, id, TRY_AGAIN, true) else msgs
  }

  method HandleStreamingResponse(msgs0: seq<Message>, id: string, body: StreamBody, parse: string -> Option<JsValue>)
    returns (msgs: seq<Message>)
    ensures msgs == StreamResult(msgs0, id, body, parse)
  {
    if body.NoBody? {
      return UpdateMessageById(msgs0, id, TRY_AGAIN, true);
    }
    var leftover;
    msgs, leftover := ProcessStream(msgs0, id, body.chunks, parse);
    if body.failed {
      msgs := UpdateMessageById(msgs, id, TRY_AGAIN, true);
    }
  }

  /** What `fetch('/api/basic-chat', ...)` gives: it throws, or a response
      with its `ok` flag, its JSON body (`None` when `response.json()` throws)
      and its stream. */
  datatype FetchResult = FetchThrew | Response(ok: bool, json: Option<JsValue>, body: StreamBody)

  /** The error text of a non-ok response: `errorData.error` when truthy,
      otherwise TRY_AGAIN. */
  function ErrorText(json: Option<JsValue>): string {
    match json
    case Some(data) =>
      var e := OptGet(data, "error");
      if Truthy(e) then ToJsString(e) else TRY_AGAIN
    case None => TRY_AGAIN
  }

  /** `handleBasic`, with `makeId()` giving `newId`. */
  function BasicResult(msgs0: seq<Message>, fetched: FetchResult, newId: string, parse: string -> Option<JsValue>): seq<Message> {
    match fetched
    case FetchThrew => AppendError(msgs0, TRY_AGAIN)
    case Response(ok, json, body) =>
      if !ok then AppendError(msgs0, ErrorText(json))
      else
        var placed := AppendMessage(msgs0, Assistant, "", Some(false), Some(newId));
        StreamResult(placed, newId, body, parse)
  }

  method HandleBasic(msgs0: seq<Message>, fetched: FetchResult, newId: string, parse: string -> Option<JsValue>)
    returns (msgs: seq<Message>)
    ensures msgs == BasicResult(msgs0, fetched, newId, parse)
  {
    if fetched.FetchThrew? {
      return AppendError(msgs0, TRY_AGAIN);
    }
    if !fetched.ok {
      var errorMsg := TRY_AGAIN;
      if fetched.json.Some? && Truthy(OptGet(fetched.json.value, "error")) {
        errorMsg := ToJsString(OptGet(fetched.json.value, "error"));
      }
      return AppendError(msgs0, errorMsg);
    }
    msgs := AppendMessage(msgs0, Assistant, "", Some(false), Some(newId));
    msgs := HandleStreamingResponse(msgs, newId, fetched.body, parse);
  }

  /** Applying lines never changes the number of messages, nor any message
      other than the first one with the stream's id, which stays first. */
  lemma {:induction false} ApplyLinesFrame(msgs: seq<Message>, id: string, lines: seq<string>, parse: string -> Option<JsValue>)
    ensures OnlyTargetChanged(msgs, ApplyLines(msgs, id, lines, parse), id)
  {
    if lines != [] {
      var init := lines[..|lines| - 1];
      ApplyLinesFrame(msgs, id, init, parse);
      var m := ApplyLines(msgs, id, init, parse);
      OnlyTargetKeepsIndex(msgs, m, id);
    }
  }

  /** Text after the last '\n' is never applied: a final read that no '\n'
      ends leaves the result as it was. */
  lemma TrailingTextIgnored(msgs0: seq<Message>, id: string, chunks: seq<string>, t: string, parse: string -> Option<JsValue>)
    requires '\n' !in t
    ensures StreamResult(msgs0, id, Reads(chunks + [t], false), parse) == StreamResult(msgs0, id, Reads(chunks, false), parse)
  {
    var cs := chunks + [t];
    assert cs[..|cs| - 1] == chunks;
    assert Concat(cs) == Concat(chunks) + t;
    UnterminatedIgnored(Concat(chunks), t);
  }

  /** A non-ok response appends one error message and no placeholder. */
  lemma NonOkAppendsError(msgs0: seq<Message>, json: Option<JsValue>, body: StreamBody, newId: string, parse: string -> Option<JsValue>)
    ensures var r := BasicResult(msgs0, Response(false, json, body), newId, parse);
            && |r| == |msgs0| + 1 && r[..|msgs0|] == msgs0
            && r[|msgs0|].role == Assistant && r[|msgs0|].error == Some(true) && r[|msgs0|].id.None?
            && (json.Some? && OptGet(json.value, "error").Str? && OptGet(json.value, "error").s != "" ==>
                  r[|msgs0|].text == OptGet(json.value, "error").s)
            && (json.None? ==> r[|msgs0|].text == TRY_AGAIN)
  {
  }

  /** Every failure of the streamed answer leaves the placeholder as a
      TRY_AGAIN error, provided its id is fresh; earlier messages never change. */
  lemma StreamFailureShowsTryAgain(msgs0: seq<Message>, body: StreamBody, newId: string, parse: string -> Option<JsValue>)
    requires forall j :: 0 <= j < |msgs0| ==> msgs0[j].id != Some(newId)
    requires body.NoBody? || body.failed
    ensures var r := BasicResult(msgs0, Response(true, None, body), newId, parse);
            && |r| == |msgs0| + 1 && r[..|msgs0|] == msgs0
            && r[|msgs0|] == Message(Assistant, TRY_AGAIN, Some(true), Some(newId))
  {
    var placed := AppendMessage(msgs0, Assistant, "", Some(false), Some(newId));
    FindIndexAt(placed, newId, |msgs0|);
    if body.Reads? {
      var m := ApplyLines(placed, newId, Lines(Concat(body.chunks)), parse);
      ApplyLinesFrame(placed, newId, Lines(Concat(body.chunks)), parse);
      OnlyTargetKeepsIndex(placed, m, newId);
    }
  }
}
