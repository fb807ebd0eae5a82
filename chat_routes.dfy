/** The two streaming chat routes, app/api/basic-chat/route.ts and
    app/api/chat/route.ts: each turns the events of its generator into
    newline-delimited JSON written to a `ReadableStream` controller, writes one
    error line when the generator throws, and closes the stream. */
module ChatRoutes {
  import opened Js
  import opened Completion
  import opened Ndjson

  /** The error line text of app/api/basic-chat/route.ts. */
  const BASIC_FAILURE := "Sorry, I could not process your request due to a technical issue."

  /** The error line text of app/api/chat/route.ts. */
  const CHAT_FAILURE := BASIC_FAILURE + " Please check your input or try again in a moment."

  /** The object a route serialises for one generator event. */
  function EventJs(e: StreamEvent): JsValue {
    match e
    case ContentEvent(c) => Obj([("type", Str("content")), ("content", Str(c))])
    case FunctionCallEvent(n, a) =>
      Obj([("type", Str("function_call")),
           ("function", Obj([("name", Str(n)), ("arguments", Str(a))]))])
  }

  /** The object a route serialises when its generator throws. */
  function ErrorJs(message: string): JsValue {
    Obj([("type", Str("error")), ("content", Str(message))])
  }

  /** The objects a route writes for what its generator did, in order. */
  function Payloads(o: Outcome, failure: string): seq<JsValue> {
    seq(|o.events|, i requires 0 <= i < |o.events| => EventJs(o.events[i]))
      + (if o.threw then [ErrorJs(failure)] else [])
  }

  /** The serialised text of each payload. */
  function Texts(vs: seq<JsValue>): seq<string> {
    seq(|vs|, i requires 0 <= i < |vs| => Stringify(vs[i]))
  }

  /** The chunks a route enqueues: one frame per payload. */
  function Body(o: Outcome, failure: string): seq<string> {
    var ts := Texts(Payloads(o, failure));
    seq(|ts|, i requires 0 <= i < |ts| => Frame(ts[i]))
  }

  /** The `ReadableStream` controller: what was enqueued so far and whether
      the stream was closed. */
  class StreamController {
    var chunks: seq<string>
    var closed: bool

    constructor ()
      ensures chunks == [] && !closed
    {
      chunks := [];
      closed := false;
    }

    method Enqueue(chunk: string)
      requires !closed
      modifies this
      ensures chunks == old(chunks) + [chunk] && !closed
    {
      chunks := chunks + [chunk];
    }

    method Close()
      modifies this
      ensures closed && chunks == old(chunks)
    {
      closed := true;
    }
  }

  /** The chunk enqueued for one event. */
  function EventFrame(e: StreamEvent): string {
    Frame(Stringify(EventJs(e)))
  }

  /** The chunk enqueued when the generator throws. */
  function ErrorFrame(failure: string): string {
    Frame(Stringify(ErrorJs(failure)))
  }

  /** The body is the event frames, in order, then the error frame when the
      generator threw. */
  lemma BodyFrames(events: seq<StreamEvent>, threw: bool, failure: string, chunks: seq<string>)
    requires |chunks| == |events| && forall k :: 0 <= k < |events| ==> chunks[k] == EventFrame(events[k])
    ensures Body(Outcome(events, threw), failure) == chunks + (if threw then [ErrorFrame(failure)] else [])
  {
    var ps := Payloads(Outcome(events, threw), failure);
    assert |ps| == |events| + (if threw then 1 else 0);
    var ts := Texts(ps);
    var body := Body(Outcome(events, threw), failure);
    forall k | 0 <= k < |events| ensures body[k] == chunks[k] {
      assert ps[k] == EventJs(events[k]);
    }
    if threw {
      assert ps[|events|] == ErrorJs(failure);
      assert body[|events|] == ErrorFrame(failure);
    }
  }

  /** The `start` callback shared by both routes: enqueue each event's frame,
      then the error frame if the generator threw, then close. */
  method Pump(events: seq<StreamEvent>, threw: bool, failure: string, controller: StreamController)
    requires controller.chunks == [] && !controller.closed
    modifies controller
    ensures controller.chunks == Body(Outcome(events, threw), failure)
    ensures controller.closed
  {
    for i := 0 to |events|
      invariant !controller.closed && |controller.chunks| == i
      invariant forall k :: 0 <= k < i ==> controller.chunks[k] == EventFrame(events[k])
    {
      controller.Enqueue(EventFrame(events[i]));
    }
    BodyFrames(events, threw, failure, controller.chunks);
    if threw {
      controller.Enqueue(ErrorFrame(failure));
    }
    controller.Close();
  }

  /** `POST` of app/api/basic-chat/route.ts. */
  method BasicChatPost(up: Upstream, controller: StreamController)
    requires controller.chunks == [] && !controller.closed
    modifies controller
    ensures controller.chunks == Body(BasicOutcome(up), BASIC_FAILURE) && controller.closed
  {
    var events, threw := BasicChatCompletion(up);
    Pump(events, threw, BASIC_FAILURE, controller);
  }

  /** `POST` of app/api/chat/route.ts, with functions enabled. */
  method ChatPost(up: Upstream, controller: StreamController)
    requires controller.chunks == [] && !controller.closed
    modifies controller
    ensures controller.chunks == Body(OpenAiOutcome(up), CHAT_FAILURE) && controller.closed
  {
    var events, threw := CreateChatCompletion(up);
    Pump(events, threw, CHAT_FAILURE, controller);
  }

  /** The enqueued frames, read back as one text, are the framed payloads. */
  lemma {:induction false} ConcatFrames(ts: seq<string>)
    ensures Concat(seq(|ts|, i requires 0 <= i < |ts| => Frame(ts[i]))) == FrameAll(ts)
  {
    if ts != [] {
      var init := ts[..|ts| - 1];
      var fs := seq(|ts|, i requires 0 <= i < |ts| => Frame(ts[i]));
      assert fs[..|fs| - 1] == seq(|init|, i requires 0 <= i < |init| => Frame(init[i]));
      ConcatFrames(init);
    }
  }

  /** Whatever the generator did, a reader of the whole response sees exactly
      the serialised payloads as complete lines, with nothing left over. */
  lemma BodyReadsBack(o: Outcome, failure: string)
    ensures Lines(Concat(Body(o, failure))) == Texts(Payloads(o, failure))
    ensures Rest(Concat(Body(o, failure))) == ""
  {
    var vs := Payloads(o, failure);
    ConcatFrames(Texts(vs));
    StringifiedFramesRoundTrip(vs);
  }

  /** An object is an error line when its `type` is "error". */
  predicate IsErrorLine(v: JsValue) {
    v.Obj? && Lookup(v.props, "type") == Str("error")
  }

  /** There is exactly one error line, and it is the last one, when the
      generator threw, and none otherwise. */
  lemma ErrorLineIffThrew(o: Outcome, failure: string)
    ensures var vs := Payloads(o, failure);
            && (forall i :: 0 <= i < |o.events| ==> !IsErrorLine(vs[i]))
            && |vs| == |o.events| + (if o.threw then 1 else 0)
            && (o.threw ==> vs[|vs| - 1] == ErrorJs(failure))
  {
    var vs := Payloads(o, failure);
    forall i | 0 <= i < |o.events| ensures !IsErrorLine(vs[i]) {
      assert vs[i] == EventJs(o.events[i]);
    }
  }

  /** The basic chat route writes an error line only when the model request
      itself fails; a failure while streaming just ends the response. */
  lemma BasicChatErrorLine(up: Upstream)
    ensures var vs := Payloads(BasicOutcome(up), BASIC_FAILURE);
            (vs != [] && IsErrorLine(vs[|vs| - 1])) <==> up.RequestFailed?
  {
    var o := BasicOutcome(up);
    ErrorLineIffThrew(o, BASIC_FAILURE);
    var vs := Payloads(o, BASIC_FAILURE);
    if up.RequestFailed? {
      assert vs == [ErrorJs(BASIC_FAILURE)];
    } else if vs != [] {
      assert vs[|vs| - 1] == EventJs(o.events[|o.events| - 1]);
    }
  }

  /** The chat route writes its error line when the request or the stream
      fails, and then never a function-call line: the call is only written at
      the end of a stream that finished. */
  lemma ChatErrorLine(up: Upstream)
    ensures var vs := Payloads(OpenAiOutcome(up), CHAT_FAILURE);
            && ((vs != [] && IsErrorLine(vs[|vs| - 1])) <==> (up.RequestFailed? || up.failed))
            && ((up.RequestFailed? || up.failed) ==>
                  forall i :: 0 <= i < |vs| ==> Lookup(vs[i].props, "type") != Str("function_call"))
  {
    var o := OpenAiOutcome(up);
    ErrorLineIffThrew(o, CHAT_FAILURE);
    OpenAiEventOrder(up);
    var vs := Payloads(o, CHAT_FAILURE);
    if up.Streamed? {
      ContentEventsAreContent(up.chunks);
    }
    if up.RequestFailed? || up.failed {
      forall i | 0 <= i < |vs| ensures Lookup(vs[i].props, "type") != Str("function_call") {
        if i < |o.events| {
          assert o.events[i].ContentEvent?;
        }
      }
    } else if vs != [] {
      assert vs[|vs| - 1] == EventJs(o.events[|o.events| - 1]);
    }
  }
}
