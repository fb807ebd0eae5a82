/** The basic chat route and the basic chat client together: whatever way the
    transport cuts the response into reads, the client applies exactly the
    events the route wrote, when `JSON.parse` inverts `JSON.stringify` on
    them. */
module ChatRoundTrip {
  import opened Wrappers
  import opened Strings
  import opened Js
  import opened Ndjson
  import opened Completion
  import opened ChatRoutes
  import opened ChatState
  import opened BasicHandler

  /** The events applied one after the other. */
  function ApplyValues(msgs: seq<Message>, id: string, vs: seq<JsValue>): seq<Message> {
    if vs == [] then msgs
    else ApplyEvent(ApplyValues(msgs, id, vs[..|vs| - 1]), id, vs[|vs| - 1])
  }

  /** `parse` reads each of `vs` back from its serialised text. */
  predicate ParsesBack(parse: string -> Option<JsValue>, vs: seq<JsValue>) {
    forall i :: 0 <= i < |vs| ==> parse(Stringify(vs[i])) == Some(vs[i])
  }

  /** A serialised object is a line the client applies as that object. */
  lemma ObjectLine(msgs: seq<Message>, id: string, v: JsValue, parse: string -> Option<JsValue>)
    requires v.Obj? && parse(Stringify(v)) == Some(v)
    ensures ApplyLine(msgs, id, Stringify(v), parse) == ApplyEvent(msgs, id, v)
  {
    StringifyObjectTrimmed(v.props);
    ParsedLineApplies(msgs, id, Stringify(v), v, parse);
  }

  /** Applying the serialised objects as lines is applying the objects. */
  lemma {:induction false} TextsApply(msgs: seq<Message>, id: string, vs: seq<JsValue>, parse: string -> Option<JsValue>)
    requires forall i :: 0 <= i < |vs| ==> vs[i].Obj?
    requires ParsesBack(parse, vs)
    ensures ApplyLines(msgs, id, Texts(vs), parse) == ApplyValues(msgs, id, vs)
  {
    if vs != [] {
      var init := vs[..|vs| - 1];
      assert Texts(vs)[..|vs| - 1] == Texts(init);
      TextsApply(msgs, id, init, parse);
      ObjectLine(ApplyValues(msgs, id, init), id, vs[|vs| - 1], parse);
    }
  }

  /** The contents of content events, concatenated in order. */
  function Joined(events: seq<StreamEvent>): string {
    if events == [] then ""
    else Joined(events[..|events| - 1]) + (if events[|events| - 1].ContentEvent? then events[|events| - 1].content else "")
  }

  function EventsJs(events: seq<StreamEvent>): seq<JsValue> {
    seq(|events|, i requires 0 <= i < |events| => EventJs(events[i]))
  }

  /** A content event appends its content to the target message. */
  lemma ContentEventApplies(msgs: seq<Message>, id: string, c: string)
    ensures ApplyEvent(msgs, id, EventJs(ContentEvent(c))) == AppendToMessage(msgs, id, c)
  {
    var v := EventJs(ContentEvent(c));
    assert OptGet(v, "type") == Str("content");
    LookupAt(v.props, "content", 1);
  }

  /** Appending twice is appending the concatenation. */
  lemma AppendTwice(msgs: seq<Message>, id: string, a: string, b: string)
    ensures AppendToMessage(AppendToMessage(msgs, id, a), id, b) == AppendToMessage(msgs, id, a + b)
  {
    var m := AppendToMessage(msgs, id, a);
    if FindIndex(msgs, id).Some? {
      var k := FindIndex(msgs, id).value;
      FindIndexAt(m, id, k);
      assert m[k].text + b == msgs[k].text + (a + b);
    }
  }

  /** Content events append their contents, in order, to the target message. */
  lemma {:induction false} ContentEventsApply(msgs: seq<Message>, id: string, events: seq<StreamEvent>)
    requires AllContent(events)
    ensures ApplyValues(msgs, id, EventsJs(events)) == AppendToMessage(msgs, id, Joined(events))
  {
    if events == [] {
      if FindIndex(msgs, id).Some? {
        var k := FindIndex(msgs, id).value;
        assert msgs[k].text + "" == msgs[k].text;
        assert msgs[k := msgs[k]] == msgs;
      }
    } else {
      var init := events[..|events| - 1];
      var e := events[|events| - 1];
      assert EventsJs(events)[..|events| - 1] == EventsJs(init);
      ContentEventsApply(msgs, id, init);
      ContentEventApplies(ApplyValues(msgs, id, EventsJs(init)), id, e.content);
      AppendTwice(msgs, id, Joined(init), e.content);
    }
  }

  /** The error line puts the route's failure text on the target message. */
  lemma ErrorEventApplies(msgs: seq<Message>, id: string, failure: string)
    requires failure != ""
    ensures ApplyEvent(msgs, id, ErrorJs(failure)) == UpdateMessageById(msgs, id, failure, true)
  {
    var v := ErrorJs(failure);
    assert OptGet(v, "type") == Str("error");
    LookupAt(v.props, "content", 1);
  }

  /** Any route body, however cut into reads, is applied as its payloads. */
  lemma ReceivedApply(o: Outcome, failure: string, received: seq<string>, parse: string -> Option<JsValue>, msgs0: seq<Message>, id: string)
    requires Concat(received) == Concat(Body(o, failure))
    requires ParsesBack(parse, Payloads(o, failure))
    ensures StreamResult(msgs0, id, Reads(received, false), parse) == ApplyValues(msgs0, id, Payloads(o, failure))
  {
    var vs := Payloads(o, failure);
    BodyReadsBack(o, failure);
    forall i | 0 <= i < |vs| ensures vs[i].Obj? {
      if i < |o.events| {
        assert vs[i] == EventJs(o.events[i]);
      }
    }
    TextsApply(msgs0, id, vs, parse);
  }

  /** End to end for app/api/basic-chat/route.ts read by basic-handler.ts: the
      streamed message gets the concatenated content of the upstream chunks,
      or the route's failure text as an error when the model request failed,
      however the response was cut into reads. */
  lemma BasicChatRoundTrip(up: Upstream, received: seq<string>, parse: string -> Option<JsValue>, msgs0: seq<Message>, id: string)
    requires Concat(received) == Concat(Body(BasicOutcome(up), BASIC_FAILURE))
    requires ParsesBack(parse, Payloads(BasicOutcome(up), BASIC_FAILURE))
    ensures StreamResult(msgs0, id, Reads(received, false), parse) ==
              if up.RequestFailed? then UpdateMessageById(msgs0, id, BASIC_FAILURE, true)
              else AppendToMessage(msgs0, id, Joined(BasicContentEvents(up.chunks)))
  {
    ReceivedApply(BasicOutcome(up), BASIC_FAILURE, received, parse, msgs0, id);
    if up.RequestFailed? {
      FailedRequestApplies(up, msgs0, id);
    } else {
      StreamedChunksApply(up, msgs0, id);
    }
  }

  /** A failed model request sends one error event, which marks the message. */
  lemma FailedRequestApplies(up: Upstream, msgs0: seq<Message>, id: string)
    requires up.RequestFailed?
    ensures var vs := Payloads(BasicOutcome(up), BASIC_FAILURE);
            ApplyValues(msgs0, id, vs) == UpdateMessageById(msgs0, id, BASIC_FAILURE, true)
  {
    var vs := Payloads(BasicOutcome(up), BASIC_FAILURE);
    assert vs == [ErrorJs(BASIC_FAILURE)];
    assert vs[..0] == [];
    ErrorEventApplies(msgs0, id, BASIC_FAILURE);
  }

  /** A streamed reply sends one content event per chunk, which append in turn. */
  lemma StreamedChunksApply(up: Upstream, msgs0: seq<Message>, id: string)
    requires up.Streamed?
    ensures var vs := Payloads(BasicOutcome(up), BASIC_FAILURE);
            ApplyValues(msgs0, id, vs) == AppendToMessage(msgs0, id, Joined(BasicContentEvents(up.chunks)))
  {
    var o := BasicOutcome(up);
    BasicEventsMatchChunks(up.chunks);
    assert Payloads(o, BASIC_FAILURE) == EventsJs(o.events);
    ContentEventsApply(msgs0, id, o.events);
  }
}
