/** The client side of a weather request
    (app/components/chat/handlers/weather-handler.ts): the reply to
    `GET /api/weather` is an input, and what the handler does with it is a log
    of its calls to `appendMessage('assistant', …)` and `onWeatherUpdate`. */
module WeatherHandler {
  import opened Wrappers
  import opened Strings
  import opened Js
  import opened Messages

  const RECEIVED := "Weather data received and displayed in the widget."

  /** One call the handler makes: an assistant message (`error` is `None`
      when the argument is left out), or `onWeatherUpdate(update)`. */
  datatype WeatherEffect = Said(text: string, error: Option<bool>) | Updated(update: Widget)

  /** The calls made, in order, and whether the handler ended by throwing. */
  datatype WeatherRun = WeatherRun(effects: seq<WeatherEffect>, threw: bool)

  /** The message of a non-ok reply: `errorData.error` when the body parses
      and both it and its `error` are truthy, TRY_AGAIN otherwise. */
  function NotOkText(json: Option<JsValue>): (r: string)
    ensures json.None? || !Truthy(json.value) || !Truthy(OptGet(json.value, "error")) ==> r == TRY_AGAIN
    ensures json.Some? && Truthy(json.value) && Truthy(OptGet(json.value, "error")) ==> r == ToJsString(OptGet(json.value, "error"))
  {
    if json.Some? && Truthy(json.value) && Truthy(OptGet(json.value, "error")) then ToJsString(OptGet(json.value, "error"))
    else TRY_AGAIN
  }

  /** `data.location?.includes(',')`: `undefined` for a nullish location,
      whether a string holds a comma or an array holds the string ','; `None`
      is the TypeError of a value without an `includes` method. */
  function DetectedRegion(location: JsValue): (r: Option<JsValue>)
    ensures r.None? <==> !IsNullish(location) && !location.Str? && !location.Arr?
    ensures IsNullish(location) ==> r == Some(Undefined)
    ensures location.Str? ==> r == Some(Bool(Contains(location.s, ",")))
  {
    match location
    case Undefined => Some(Undefined)
    case Null => Some(Undefined)
    case Str(s) => Some(Bool(Contains(s, ",")))
    case Arr(items) => Some(Bool(exists i :: 0 <= i < |items| && items[i] == Str(",")))
    case _ => None
  }

  /** `data.resolvedName && !detectedRegion ? ' (Resolved to …)' : ''`. */
  function ResolvedSuffix(resolvedName: JsValue, detectedRegion: JsValue): (r: string)
    ensures r != "" <==> Truthy(resolvedName) && !Truthy(detectedRegion)
    ensures r != "" ==> r == " (Resolved to " + ToJsString(resolvedName) + ")"
  {
    if Truthy(resolvedName) && !Truthy(detectedRegion) then " (Resolved to " + ToJsString(resolvedName) + ")" else ""
  }

  /** The suffix, told from the location string: it is there exactly when
      `resolvedName` is truthy and the location holds no comma. */
  lemma SuffixIffNoComma(data: JsValue)
    requires OptGet(data, "location").Str?
    ensures var region := DetectedRegion(OptGet(data, "location")).value;
            var suffix := ResolvedSuffix(OptGet(data, "resolvedName"), region);
            suffix != "" <==> Truthy(OptGet(data, "resolvedName")) && !Contains(OptGet(data, "location").s, ",")
  {
  }

  /** The `Partial<WeatherData>` passed to `onWeatherUpdate`. */
  datatype Widget = Widget(location: JsValue, resolvedName: JsValue, temperature: JsValue, windspeed: JsValue,
                           weathercode: JsValue, error: JsValue, conditions: string, unit: string,
                           timezone: JsValue, localHour: JsValue)

  /** `handleWeather(text, appendMessage, onWeatherUpdate)`. `localHourOf`
      gives the hour of the reply's truthy `timezone` on the clock (a number,
      or `undefined` when formatting throws or does not give a number). */
  function HandleWeather(reply: FetchReply, hasCallback: bool, localHourOf: JsValue -> JsValue): (r: WeatherRun)
    ensures reply.FetchThrew? ==> r == WeatherRun([], true)
    ensures reply.Replied? && !reply.ok ==> r == WeatherRun([Said(NotOkText(reply.json), Some(true))], false)
    ensures reply.Replied? && reply.ok && (reply.json.None? || IsNullish(reply.json.value)) ==> r == WeatherRun([], true)
    ensures reply.Replied? && reply.ok && reply.json.Some? && !IsNullish(reply.json.value) && Truthy(OptGet(reply.json.value, "error")) ==>
              r == WeatherRun([Said(ToJsString(OptGet(reply.json.value, "error")), Some(true))], false)
    ensures forall i :: 0 <= i < |r.effects| && r.effects[i].Said? && r.effects[i].error.None? ==>
              StartsWith(r.effects[i].text, RECEIVED)
    ensures !hasCallback ==> forall i :: 0 <= i < |r.effects| ==> r.effects[i].Said?
  {
    match reply
    case FetchThrew => WeatherRun([], true)
    case Replied(ok, json) =>
      if !ok then WeatherRun([Said(NotOkText(json), Some(true))], false)
      else if json.None? || IsNullish(json.value) then WeatherRun([], true)
      else
        var data := json.value;
        if Truthy(OptGet(data, "error")) then WeatherRun([Said(ToJsString(OptGet(data, "error")), Some(true))], false)
        else match DetectedRegion(OptGet(data, "location"))
          case None => WeatherRun([], true)
          case Some(region) =>
            var text := RECEIVED + ResolvedSuffix(OptGet(data, "resolvedName"), region);
            assert text[..|RECEIVED|] == RECEIVED;
            var said := [Said(text, None)];
            if !hasCallback then WeatherRun(said, false)
            else
              var timezone := OptGet(data, "timezone");
              var localHour := if Truthy(timezone) then localHourOf(timezone) else Undefined;
              WeatherRun(said + [Updated(Widget(OptGet(data, "location"), OptGet(data, "resolvedName"),
                                                OptGet(data, "temperature"), OptGet(data, "windspeed"),
                                                OptGet(data, "weathercode"), OptGet(data, "error"), "", "C",
                                                timezone, localHour))], false)
  }

  /** A usable reply is announced with the fixed sentence and its suffix,
      and the widget gets the reply's fields exactly when there is a callback. */
  lemma WeatherShown(data: JsValue, hasCallback: bool, localHourOf: JsValue -> JsValue)
    requires !IsNullish(data) && !Truthy(OptGet(data, "error"))
    requires DetectedRegion(OptGet(data, "location")).Some?
    ensures var r := HandleWeather(Replied(true, Some(data)), hasCallback, localHourOf);
            var region := DetectedRegion(OptGet(data, "location")).value;
            && !r.threw && |r.effects| == (if hasCallback then 2 else 1)
            && r.effects[0] == Said(RECEIVED + ResolvedSuffix(OptGet(data, "resolvedName"), region), None)
            && (hasCallback ==>
                  && r.effects[1].Updated?
                  && var u := r.effects[1].update;
                  && u.location == OptGet(data, "location") && u.resolvedName == OptGet(data, "resolvedName")
                  && u.temperature == OptGet(data, "temperature") && u.windspeed == OptGet(data, "windspeed")
                  && u.weathercode == OptGet(data, "weathercode") && u.error == OptGet(data, "error") && !Truthy(u.error)
                  && u.timezone == OptGet(data, "timezone") && u.conditions == "" && u.unit == "C"
                  && (!Truthy(u.timezone) ==> u.localHour == Undefined))
  {
  }
}
