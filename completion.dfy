/** The streaming chat-completion generators: `createChatCompletion` of
    app/openai.ts, which folds function-call fragments into one event, and the
    simpler generator of app/api/basic-chat/route.ts, which only forwards
    content. The upstream model stream is an input: the chunks it delivers and
    whether it fails while being read, or whether the request itself fails. */
module Completion {
  import opened Wrappers

  /** `delta.function_call`: optional name and arguments fragments. */
  datatype CallDelta = CallDelta(name: Option<string>, arguments: Option<string>)

  /** `chunk.choices[0]?.delta`, when there is one. */
  datatype Delta = Delta(content: Option<string>, functionCall: Option<CallDelta>)

  /** What the upstream call does: it fails before streaming, or it streams
      chunks and then ends or fails. */
  datatype Upstream = RequestFailed | Streamed(chunks: seq<Option<Delta>>, failed: bool)

  /** The events the generators yield. */
  datatype StreamEvent = ContentEvent(content: string) | FunctionCallEvent(name: string, arguments: string)

  /** What a generator yields before it returns (`threw` false) or throws. */
  datatype Outcome = Outcome(events: seq<StreamEvent>, threw: bool)

  /** The name of the one function app/openai.ts offers the model. */
  const WEATHER_FUNCTION := "get_weather"

  /** The parameters of `openai.chat.completions.create`, as far as they vary. */
  datatype CompletionRequest = CompletionRequest(model: string, stream: bool, functions: seq<string>, functionCall: Option<string>)

  /** The request app/openai.ts sends: the weather function and automatic
      function calling only when `enableFunctions` is set. */
  function RequestOf(enableFunctions: bool): (r: CompletionRequest)
    ensures r.model == "gpt-4.1" && r.stream
    ensures r.functions != [] <==> enableFunctions
    ensures r.functionCall.Some? <==> enableFunctions
    ensures enableFunctions ==> r.functions == [WEATHER_FUNCTION] && r.functionCall == Some("auto")
  {
    if enableFunctions then CompletionRequest("gpt-4.1", true, [WEATHER_FUNCTION], Some("auto"))
    else CompletionRequest("gpt-4.1", true, [], None)
  }

  /** The text a truthy string contributes: `if (x) acc += x`. */
  function Fragment(x: Option<string>): string {
    match x
    case Some(s) => s
    case None => ""
  }

  predicate IsCall(d: Option<Delta>) {
    d.Some? && d.value.functionCall.Some?
  }

  /** The content a delta yields: only a delta without `function_call` and with
      non-empty content yields its content. */
  function ContentOf(d: Option<Delta>): Option<string> {
    if d.None? || IsCall(d) then None
    else match d.value.content
      case Some(c) => if c != "" then Some(c) else None
      case None => None
  }

  /** The content events of a stream prefix, in order. */
  function ContentEvents(chunks: seq<Option<Delta>>): seq<StreamEvent> {
    if chunks == [] then []
    else
      var init := ContentEvents(chunks[..|chunks| - 1]);
      match ContentOf(chunks[|chunks| - 1])
      case Some(c) => init + [ContentEvent(c)]
      case None => init
  }

  /** The accumulated `functionCall` after a stream prefix: `None` until the first
      `function_call` delta, then the name and arguments fragments appended. */
  function Accumulated(chunks: seq<Option<Delta>>): Option<(string, string)> {
    if chunks == [] then None
    else
      var acc := Accumulated(chunks[..|chunks| - 1]);
      var d := chunks[|chunks| - 1];
      if !IsCall(d) then acc
      else
        var prev := acc.GetOr(("", ""));
        Some((prev.0 + Fragment(d.value.functionCall.value.name), prev.1 + Fragment(d.value.functionCall.value.arguments)))
  }

  /** The specification of app/openai.ts `createChatCompletion`: content events
      in order, then one function-call event when the stream ends normally and
      some delta was a function call; a failure rethrows after the content
      events. */
  function OpenAiOutcome(up: Upstream): Outcome {
    match up
    case RequestFailed => Outcome([], true)
    case Streamed(chunks, failed) =>
      if failed then Outcome(ContentEvents(chunks), true)
      else match Accumulated(chunks)
        case Some((n, a)) => Outcome(ContentEvents(chunks) + [FunctionCallEvent(n, a)], false)
        case None => Outcome(ContentEvents(chunks), false)
  }

  /** The loop of app/openai.ts `createChatCompletion`, with the `functionCall`
      accumulator's fields updated chunk by chunk. */
  method CreateChatCompletion(up: Upstream) returns (events: seq<StreamEvent>, threw: bool)
    ensures Outcome(events, threw) == OpenAiOutcome(up)
  {
    if up.RequestFailed? {
      return [], true;
    }
    var chunks := up.chunks;
    events := [];
    var hasCall := false;
    var name, arguments := "", "";
    for i := 0 to |chunks|
      invariant events == ContentEvents(chunks[..i])
      invariant hasCall <==> Accumulated(chunks[..i]).Some?
      invariant hasCall ==> Accumulated(chunks[..i]) == Some((name, arguments))
    {
      assert chunks[..i + 1][..i] == chunks[..i];
      var d := chunks[i];
      assert chunks[..i + 1][i] == d;
      if d.Some? && d.value.functionCall.Some? {
        if !hasCall {
          hasCall := true;
          name, arguments := "", "";
        }
        var call := d.value.functionCall.value;
        if call.name.Some? && call.name.value != "" {
          name := name + call.name.value;
        } else {
          assert name + Fragment(call.name) == name;
        }
        if call.arguments.Some? && call.arguments.value != "" {
          arguments := arguments + call.arguments.value;
        } else {
          assert arguments + Fragment(call.arguments) == arguments;
        }
      } else if d.Some? && d.value.content.Some? && d.value.content.value != "" {
        events := events + [ContentEvent(d.value.content.value)];
      }
    }
    assert chunks[..|chunks|] == chunks;
    if up.failed {
      return events, true;
    }
    if hasCall {
      events := events + [FunctionCallEvent(name, arguments)];
    }
    threw := false;
  }

  /** Content events only. */
  predicate AllContent(es: seq<StreamEvent>) {
    forall i :: 0 <= i < |es| ==> es[i].ContentEvent?
  }

  lemma {:induction false} ContentEventsAreContent(chunks: seq<Option<Delta>>)
    ensures AllContent(ContentEvents(chunks))
    ensures |ContentEvents(chunks)| <= |chunks|
  {
    if chunks != [] {
      ContentEventsAreContent(chunks[..|chunks| - 1]);
    }
  }

  /** At most one function-call event is yielded, and only as the last event
      of a stream that ended normally after some `function_call` delta. */
  lemma OpenAiEventOrder(up: Upstream)
    ensures var o := OpenAiOutcome(up);
            && (forall i :: 0 <= i < |o.events| - 1 ==> o.events[i].ContentEvent?)
            && (o.events != [] && o.events[|o.events| - 1].FunctionCallEvent? <==>
                  up.Streamed? && !up.failed && Accumulated(up.chunks).Some?)
  {
    if up.Streamed? {
      ContentEventsAreContent(up.chunks);
    }
  }

  /** The name and arguments texts of all `function_call` fragments, in arrival order. */
  function CallTexts(chunks: seq<Option<Delta>>): (string, string) {
    if chunks == [] then ("", "")
    else
      var rest := CallTexts(chunks[1..]);
      if IsCall(chunks[0]) then
        var call := chunks[0].value.functionCall.value;
        (Fragment(call.name) + rest.0, Fragment(call.arguments) + rest.1)
      else rest
  }

  /** One more chunk adds its fragments at the end of the texts. */
  lemma {:induction false} CallTextsSnoc(chunks: seq<Option<Delta>>, d: Option<Delta>)
    ensures var texts := CallTexts(chunks);
            CallTexts(chunks + [d]) ==
              if IsCall(d) then (texts.0 + Fragment(d.value.functionCall.value.name),
                                 texts.1 + Fragment(d.value.functionCall.value.arguments))
              else texts
  {
    if chunks == [] {
      assert [d][1..] == [];
      if IsCall(d) {
        var call := d.value.functionCall.value;
        assert Fragment(call.name) + "" == "" + Fragment(call.name);
        assert Fragment(call.arguments) + "" == "" + Fragment(call.arguments);
      }
    } else {
      CallTextsSnoc(chunks[1..], d);
      assert (chunks + [d])[1..] == chunks[1..] + [d];
      assert (chunks + [d])[0] == chunks[0];
      var rest := CallTexts(chunks[1..]);
      if IsCall(chunks[0]) && IsCall(d) {
        var c, call := chunks[0].value.functionCall.value, d.value.functionCall.value;
        assert Fragment(c.name) + (rest.0 + Fragment(call.name)) == (Fragment(c.name) + rest.0) + Fragment(call.name);
        assert Fragment(c.arguments) + (rest.1 + Fragment(call.arguments)) == (Fragment(c.arguments) + rest.1) + Fragment(call.arguments);
      }
    }
  }

  /** The accumulator exists exactly when some delta was a function call, and
      then holds every fragment concatenated in arrival order, empty fragments
      included. */
  lemma {:induction false} AccumulatedIsConcatenation(chunks: seq<Option<Delta>>)
    ensures Accumulated(chunks).Some? <==> exists i :: 0 <= i < |chunks| && IsCall(chunks[i])
    ensures Accumulated(chunks).Some? ==> Accumulated(chunks) == Some(CallTexts(chunks))
    ensures Accumulated(chunks).None? ==> CallTexts(chunks) == ("", "")
  {
    if chunks != [] {
      var init, d := chunks[..|chunks| - 1], chunks[|chunks| - 1];
      AccumulatedIsConcatenation(init);
      CallTextsSnoc(init, d);
      assert chunks == init + [d];
      if exists i :: 0 <= i < |init| && IsCall(init[i]) {
        var i :| 0 <= i < |init| && IsCall(init[i]);
        assert chunks[i] == init[i];
      }
      if exists i :: 0 <= i < |chunks| && IsCall(chunks[i]) {
        var i :| 0 <= i < |chunks| && IsCall(chunks[i]);
        if i < |init| {
          assert init[i] == chunks[i];
        }
      }
    }
  }

  /** A delta carrying `function_call` yields no content, even if it has some. */
  lemma CallYieldsNoContent(chunks: seq<Option<Delta>>, d: Option<Delta>)
    requires IsCall(d)
    ensures ContentEvents(chunks + [d]) == ContentEvents(chunks)
  {
    assert (chunks + [d])[..|chunks|] == chunks;
  }

  /** The content a delta yields in app/api/basic-chat/route.ts: any non-empty
      content, whether or not the delta also carries a function call. */
  function BasicContentOf(d: Option<Delta>): Option<string> {
    if d.None? then None
    else match d.value.content
      case Some(c) => if c != "" then Some(c) else None
      case None => None
  }

  function BasicContentEvents(chunks: seq<Option<Delta>>): seq<StreamEvent> {
    if chunks == [] then []
    else
      var init := BasicContentEvents(chunks[..|chunks| - 1]);
      match BasicContentOf(chunks[|chunks| - 1])
      case Some(c) => init + [ContentEvent(c)]
      case None => init
  }

  /** The specification of the basic-chat generator: a failing request
      propagates; a failure while streaming is swallowed and the stream just
      ends. */
  function BasicOutcome(up: Upstream): Outcome {
    match up
    case RequestFailed => Outcome([], true)
    case Streamed(chunks, _) => Outcome(BasicContentEvents(chunks), false)
  }

  /** The loop of app/api/basic-chat/route.ts `createChatCompletion`. */
  method BasicChatCompletion(up: Upstream) returns (events: seq<StreamEvent>, threw: bool)
    ensures Outcome(events, threw) == BasicOutcome(up)
  {
    if up.RequestFailed? {
      return [], true;
    }
    var chunks := up.chunks;
    events := [];
    for i := 0 to |chunks|
      invariant events == BasicContentEvents(chunks[..i])
    {
      assert chunks[..i + 1][..i] == chunks[..i];
      var d := chunks[i];
      if d.Some? && d.value.content.Some? && d.value.content.value != "" {
        events := events + [ContentEvent(d.value.content.value)];
      }
    }
    assert chunks[..|chunks|] == chunks;
    threw := false;
  }

  /** The non-empty contents of the chunks, in upstream order. */
  function BasicContents(chunks: seq<Option<Delta>>): seq<string> {
    Somes(seq(|chunks|, i requires 0 <= i < |chunks| => BasicContentOf(chunks[i])))
  }

  /** The basic generator yields one content event per chunk with non-empty
      content, in upstream order, and nothing else: event `k` carries the
      `k`-th non-empty content. */
  lemma {:induction false} BasicEventsMatchChunks(chunks: seq<Option<Delta>>)
    ensures AllContent(BasicContentEvents(chunks))
    ensures var cs := BasicContents(chunks);
            && |BasicContentEvents(chunks)| == |cs|
            && forall k :: 0 <= k < |cs| ==> BasicContentEvents(chunks)[k] == ContentEvent(cs[k]) && cs[k] != ""
  {
    if chunks != [] {
      var init := chunks[..|chunks| - 1];
      BasicEventsMatchChunks(init);
      var xs := seq(|chunks|, i requires 0 <= i < |chunks| => BasicContentOf(chunks[i]));
      var ys := seq(|init|, i requires 0 <= i < |init| => BasicContentOf(init[i]));
      assert xs == ys + [BasicContentOf(chunks[|chunks| - 1])];
      SomesSnoc(ys, BasicContentOf(chunks[|chunks| - 1]));
    }
  }

  /** The present values of a sequence of options, in order. */
  function Somes<T>(xs: seq<Option<T>>): seq<T> {
    if xs == [] then []
    else
      var init := Somes(xs[..|xs| - 1]);
      match xs[|xs| - 1]
      case Some(x) => init + [x]
      case None => init
  }

  lemma SomesSnoc<T>(xs: seq<Option<T>>, x: Option<T>)
    ensures Somes(xs + [x]) == Somes(xs) + (match x case Some(v) => [v] case None => [])
  {
    assert (xs + [x])[..|xs|] == xs;
  }
}
