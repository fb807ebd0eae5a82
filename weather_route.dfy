/** The weather route (app/api/weather/route.ts): `GET /api/weather?q=…`
    checks the query, asks the model for a `get_weather` call, runs that call
    on the first output item, and turns every failure into a 500 reply. The
    model call, `JSON.parse`, the weather lookup and the clock are inputs. */
module WeatherRoute {
  import opened Wrappers
  import opened Strings
  import opened Js
  import opened Messages

  const QUERY_ERROR := "Query parameter \"q\" must be a non-empty string."
  const TEXT_OUTPUT_ERROR := "Model returned text output instead of function call."
  const CITY_HINT := "Please ask about a specific city."
  const ASSISTANT_ERROR := "Weather assistant error"

  /** A thrown value and what `String(value)` gives for it (an `Error`'s
      string form is its name and message, which the value model does not hold). */
  datatype Failure = Failure(error: JsValue, text: string)

  /** A step that returns a value or throws. */
  datatype Attempt = Done(value: JsValue) | Fails(failure: Failure)

  /** `openai.responses.create(…)`: the `output` of the response, or a throw. */
  datatype ModelCall = Responded(output: JsValue) | CallFailed(failure: Failure)

  /** What the route does not compute itself: `JSON.parse`, the weather lookup
      of app/utils/weather (`getWeather(location)`), the TypeError of
      destructuring `undefined` or `null` arguments, and the clock's
      `localtime` string. */
  datatype Tools = Tools(parse: string -> Attempt, getWeather: JsValue -> Attempt, nullArgsError: Failure, localtime: string)

  /** `NextResponse.json(body, { status })`. */
  datatype Reply = Reply(status: nat, body: JsValue)

  /** `{ error, details }`. */
  function ErrorBody(error: string, details: JsValue): (r: JsValue)
    ensures OptGet(r, "error") == Str(error) && OptGet(r, "details") == details
  {
    var ps := [("error", Str(error)), ("details", details)];
    assert ps[0].0[0] != "details"[0];
    LookupAt(ps, "details", 1);
    Obj(ps)
  }

  /** `isFunctionCallOutput(item)`: a non-null object whose `type` is
      'function_call', whose `name` is 'get_weather' and whose `arguments`
      is a string, each key checked with `in` first. */
  predicate IsFunctionCallOutput(item: JsValue) {
    && IsObjectType(item) && !item.Null?
    && Has(item, "type") && OptGet(item, "type") == Str("function_call")
    && Has(item, "name") && OptGet(item, "name") == Str("get_weather")
    && Has(item, "arguments") && OptGet(item, "arguments").Str?
  }

  /** The `in` checks add nothing: the guard holds exactly for objects with
      those three values. */
  lemma FunctionCallOutputIff(item: JsValue)
    ensures IsFunctionCallOutput(item) <==>
              && item.Obj? && OptGet(item, "type") == Str("function_call")
              && OptGet(item, "name") == Str("get_weather") && OptGet(item, "arguments").Str?
  {
    if item.Obj? {
      LookupHas(item.props, "type");
      LookupHas(item.props, "name");
      LookupHas(item.props, "arguments");
    }
  }

  /** `isTextOutput(item)`: a non-null object with a string `text`. */
  predicate IsTextOutput(item: JsValue) {
    IsObjectType(item) && !item.Null? && Has(item, "text") && OptGet(item, "text").Str?
  }

  lemma TextOutputIff(item: JsValue)
    ensures IsTextOutput(item) <==> item.Obj? && OptGet(item, "text").Str?
  {
    if item.Obj? {
      LookupHas(item.props, "text");
    }
  }

  /** The own properties `{...v}` copies: an object's bindings, the indexed
      elements of an array or a string, nothing for any other value. */
  function Spread(v: JsValue): seq<(string, JsValue)> {
    match v
    case Obj(ps) => ps
    case Arr(items) => seq(|items|, i requires 0 <= i < |items| => (NatToString(i), items[i]))
    case Str(s) => seq(|s|, i requires 0 <= i < |s| => (NatToString(i), Str([s[i]])))
    case _ => []
  }

  /** Every binding of `key` with its value replaced by `v`. */
  function Rebind(ps: seq<(string, JsValue)>, key: string, v: JsValue): (r: seq<(string, JsValue)>)
    ensures |r| == |ps|
  {
    seq(|ps|, i requires 0 <= i < |ps| => if ps[i].0 == key then (key, v) else ps[i])
  }

  /** An object literal's `key: v` after a spread: an existing binding of
      `key` keeps its place and gets the new value, otherwise the binding is
      added at the end. */
  function SetProp(ps: seq<(string, JsValue)>, key: string, v: JsValue): seq<(string, JsValue)> {
    if exists i :: 0 <= i < |ps| && ps[i].0 == key then Rebind(ps, key, v) else ps + [(key, v)]
  }

  lemma {:induction false} RebindLookup(ps: seq<(string, JsValue)>, key: string, v: JsValue, other: string)
    requires other != key
    ensures Lookup(Rebind(ps, key, v), other) == Lookup(ps, other)
    ensures (exists i :: 0 <= i < |ps| && ps[i].0 == key) ==> Lookup(Rebind(ps, key, v), key) == v
  {
    if ps != [] {
      assert Rebind(ps, key, v)[1..] == Rebind(ps[1..], key, v);
      RebindLookup(ps[1..], key, v, other);
      if ps[0].0 != key && exists i :: 0 <= i < |ps| && ps[i].0 == key {
        var i :| 0 <= i < |ps| && ps[i].0 == key;
        assert ps[1..][i - 1].0 == key;
      }
    }
  }

  lemma {:induction false} AppendLookup(ps: seq<(string, JsValue)>, key: string, v: JsValue, other: string)
    requires forall i :: 0 <= i < |ps| ==> ps[i].0 != key
    ensures Lookup(ps + [(key, v)], key) == v
    ensures other != key ==> Lookup(ps + [(key, v)], other) == Lookup(ps, other)
  {
    if ps != [] {
      assert (ps + [(key, v)])[1..] == ps[1..] + [(key, v)];
      AppendLookup(ps[1..], key, v, other);
    }
  }

  /** After `{...w, key: v}`, `key` reads `v` and every other key reads what
      it read in `w`. */
  lemma SetPropLookup(ps: seq<(string, JsValue)>, key: string, v: JsValue, other: string)
    requires other != key
    ensures Lookup(SetProp(ps, key, v), key) == v
    ensures Lookup(SetProp(ps, key, v), other) == Lookup(ps, other)
  {
    RebindLookup(ps, key, v, other);
    if !exists i :: 0 <= i < |ps| && ps[i].0 == key {
      AppendLookup(ps, key, v, other);
    }
  }

  /** `get_weather(args)`: destructuring `{ location }` throws on nullish
      arguments; otherwise the weather lookup's result, spread, with the
      clock's `localtime` added. */
  function GetWeatherCall(args: JsValue, tools: Tools): (r: Attempt)
    ensures IsNullish(args) ==> r == Fails(tools.nullArgsError)
    ensures r.Done? ==> tools.getWeather(OptGet(args, "location")).Done? && r.value.Obj?
  {
    match Get(args, "location")
    case None => Fails(tools.nullArgsError)
    case Some(location) =>
      match tools.getWeather(location)
      case Fails(f) => Fails(f)
      case Done(w) => Done(Obj(SetProp(Spread(w), "localtime", Str(tools.localtime))))
  }

  /** The inner `try`: parse the arguments, call `get_weather`, reply with its
      result; any throw gives the 500 parse-failure reply carrying `String(err)`. */
  function FunctionCallReply(arguments: string, tools: Tools): Reply {
    var parsed := tools.parse(arguments);
    var result := if parsed.Fails? then parsed else GetWeatherCall(parsed.value, tools);
    match result
    case Done(w) => Reply(200, w)
    case Fails(f) => Reply(500, ErrorBody(FUNCTION_PARSE_ERROR, Str(f.text)))
  }

  /** The 500 reply when no output item is usable. */
  const FALLBACK := Reply(500, ErrorBody(UNRECOGNIZED_REQUEST, Str(CITY_HINT)))

  /** `response.output` is a non-empty array; its first item is the one used. */
  predicate HasFirst(output: JsValue) {
    output.Arr? && |output.items| > 0
  }

  /** The dispatch on `response.output`: only the first item of a non-empty
      array is looked at, and the function-call check comes first; a text
      item is reported with its text, anything else gets the fallback. */
  function OutputReply(output: JsValue, tools: Tools): (r: Reply)
    ensures r.status == 200 || (r.status == 500 && OptGet(r.body, "error").Str?)
    ensures r.status == 200 ==>
              && HasFirst(output) && IsFunctionCallOutput(output.items[0])
              && r.body.Obj? && Lookup(r.body.props, "localtime") == Str(tools.localtime)
    ensures HasFirst(output) && IsFunctionCallOutput(output.items[0]) ==>
              r.status == 200 || OptGet(r.body, "error") == Str(FUNCTION_PARSE_ERROR)
    ensures HasFirst(output) && !IsFunctionCallOutput(output.items[0]) && IsTextOutput(output.items[0]) ==>
              r == Reply(500, ErrorBody(TEXT_OUTPUT_ERROR, OptGet(output.items[0], "text")))
    ensures !HasFirst(output) || (!IsFunctionCallOutput(output.items[0]) && !IsTextOutput(output.items[0])) ==>
              r == FALLBACK
  {
    if HasFirst(output) then
      var first := output.items[0];
      if IsFunctionCallOutput(first) then
        var r := FunctionCallReply(OptGet(first, "arguments").s, tools);
        if r.status == 200 then
          var args := tools.parse(OptGet(first, "arguments").s).value;
          var w := tools.getWeather(OptGet(args, "location")).value;
          SetPropLookup(Spread(w), "localtime", Str(tools.localtime), "");
          r
        else r
      else if IsTextOutput(first) then Reply(500, ErrorBody(TEXT_OUTPUT_ERROR, OptGet(first, "text")))
      else FALLBACK
    else FALLBACK
  }

  /** The outer `catch`: an error with a `response` object holding `data`
      passes that data on as the details; any other error its string form. */
  predicate HasResponseData(error: JsValue) {
    var response := OptGet(error, "response");
    && IsObjectType(error) && !error.Null? && Has(error, "response")
    && IsObjectType(response) && Truthy(response) && Has(response, "data")
  }

  function CatchReply(f: Failure): (r: Reply)
    ensures r.status == 500 && OptGet(r.body, "error") == Str(ASSISTANT_ERROR)
    ensures HasResponseData(f.error) ==> OptGet(r.body, "details") == OptGet(OptGet(f.error, "response"), "data")
    ensures !HasResponseData(f.error) ==> OptGet(r.body, "details") == Str(f.text)
  {
    if HasResponseData(f.error) then Reply(500, ErrorBody(ASSISTANT_ERROR, OptGet(OptGet(f.error, "response"), "data")))
    else Reply(500, ErrorBody(ASSISTANT_ERROR, Str(f.text)))
  }

  /** The query check: `q` absent, or nothing but whitespace. */
  predicate BadQuery(q: Option<string>) {
    q.None? || IsBlank(q.value)
  }

  /** `GET(request)` with `q` the query parameter (`None` when absent). A
      bad query is refused with 400 before the model is called; a thrown
      model call goes to the outer `catch`, and otherwise the output
      decides; every reply but a success has a string `error`. */
  function WeatherGet(q: Option<string>, call: ModelCall, tools: Tools): (r: Reply)
    ensures r.status == 200 || r.status == 400 || r.status == 500
    ensures r.status == 400 <==> BadQuery(q)
    ensures BadQuery(q) ==> r.body == Obj([("error", Str(QUERY_ERROR))])
    ensures r.status != 200 ==> OptGet(r.body, "error").Str?
    ensures !BadQuery(q) && call.Responded? ==> r == OutputReply(call.output, tools)
    ensures !BadQuery(q) && call.CallFailed? ==> r == CatchReply(call.failure)
  {
    if q.None? then Reply(400, Obj([("error", Str(QUERY_ERROR))]))
    else if |Trim(q.value)| == 0 then
      TrimEmptyIffBlank(q.value);
      Reply(400, Obj([("error", Str(QUERY_ERROR))]))
    else
      TrimEmptyIffBlank(q.value);
      match call
      case CallFailed(f) => CatchReply(f)
      case Responded(output) => OutputReply(output, tools)
  }

  /** A successful reply is the weather lookup's result for the parsed
      arguments' `location`, every key but `localtime` as the lookup gave it. */
  lemma WeatherGetSucceeds(q: Option<string>, call: ModelCall, tools: Tools)
    requires WeatherGet(q, call, tools).status == 200
    ensures var r := WeatherGet(q, call, tools);
            var parsed := tools.parse(OptGet(call.output.items[0], "arguments").s);
            && parsed.Done? && !IsNullish(parsed.value)
            && var w := tools.getWeather(OptGet(parsed.value, "location"));
            && w.Done?
            && forall key :: key != "localtime" ==> Lookup(r.body.props, key) == Lookup(Spread(w.value), key)
  {
    var r := WeatherGet(q, call, tools);
    var parsed := tools.parse(OptGet(call.output.items[0], "arguments").s);
    var w := tools.getWeather(OptGet(parsed.value, "location"));
    forall key | key != "localtime"
      ensures Lookup(r.body.props, key) == Lookup(Spread(w.value), key)
    {
      SetPropLookup(Spread(w.value), "localtime", Str(tools.localtime), key);
    }
  }

  /** Only the first output item matters: outputs that agree on it get the
      same reply. */
  lemma FirstItemDecides(q: Option<string>, a: seq<JsValue>, b: seq<JsValue>, tools: Tools)
    requires |a| > 0 && |b| > 0 && a[0] == b[0]
    ensures WeatherGet(q, Responded(Arr(a)), tools) == WeatherGet(q, Responded(Arr(b)), tools)
  {
  }
}
