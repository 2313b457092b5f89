/** The submit listener and the ok/not-ok branch of `getWeatherData`, with the
    HTTP round trip abstracted into a `Response` value. */
module Submit {
  import JsString
  import opened Display

  const EmptyCityMessage: string := "Please, enter a city!"
  const NotOkMessage: string := "Could not fetch weather data"

  /** How `await fetch(apiUrl)` settles: either with a response, seen as its
      `ok` flag and what `response.json()` would produce if it were called,
      or by throwing because no response arrived. */
  datatype Response =
    | Answered(ok: bool, json: Outcome)
    | FetchRejected(detail: string)

  /** The settled value of `await getWeatherData(...)`: a payload, or the
      value it threw. */
  datatype Outcome = Ok(payload: Payload) | Err(error: Error)

  /** `getWeatherData` once `fetch` has settled: a rejected fetch passes its
      exception on, a not-ok response throws the component's own error
      without reading the body, and an ok one yields the parsed body. */
  function GetWeatherData(response: Response): (r: Outcome)
    ensures response.FetchRejected? ==> r == Err(NetworkError(response.detail))
    ensures response.Answered? && !response.ok ==> r == Err(FetchError(NotOkMessage))
    ensures response.Answered? && response.ok ==> r == response.json
  {
    match response
    case FetchRejected(detail) => Err(NetworkError(detail))
    case Answered(ok, json) => if !ok then Err(FetchError(NotOkMessage)) else json
  }

  /** A not-ok response is judged on its status alone: whatever its body
      holds, the outcome is the same. */
  lemma NotOkIgnoresBody(json1: Outcome, json2: Outcome)
    ensures GetWeatherData(Answered(false, json1)) == GetWeatherData(Answered(false, json2))
    ensures GetWeatherData(Answered(false, json1)).Err?
  {
  }

  /** The synchronous part of the listener, up to the `await`. */
  datatype Submission =
    | Rejected(display: Screen)
    | Pending(display: Screen, query: string)

  /** The listener body before the `await`: validates the trimmed input,
      shows the card, and either reports the empty city or issues the request
      with the raw, untrimmed input. */
  function Submit(d: Screen, raw: string): (r: Submission)
    ensures r.display.card
    ensures r.Rejected? <==> JsString.AllSpace(raw)
    ensures r.Rejected? ==>
      && ResultHidden(r.display)
      && r.display.error == Field(true, Plain(EmptyCityMessage))
      && ResultTexts(r.display) == ResultTexts(d)
    ensures r.Pending? ==> r.query == raw && r.display == d.(card := true)
  {
    if JsString.Trim(raw) != [] then
      Pending(d.(card := true), raw)
    else
      Rejected(DisplayError(d.(card := true), Plain(EmptyCityMessage)))
  }

  /** The continuation after the `await`, inside the `try`/`catch`: a payload
      goes to `displayWeatherInfo`, and anything thrown, by the fetch or by
      `displayWeatherInfo` itself, goes to `displayError`. */
  function Resolve(d: Screen, outcome: Outcome): (r: Screen)
    ensures r.card == d.card
    ensures Exclusive(r)
    ensures r.error.visible <==> outcome.Err? || |outcome.payload.weather| == 0
    ensures outcome.Err? ==> r == DisplayError(d, Thrown(outcome.error))
    ensures outcome.Ok? && |outcome.payload.weather| == 0 ==>
              r == DisplayError(d, Thrown(MissingCondition))
    ensures outcome.Ok? && |outcome.payload.weather| > 0 ==>
              r == DisplayWeatherInfo(d, outcome.payload).display
  {
    match outcome
    case Err(e) => DisplayError(d, Thrown(e))
    case Ok(p) =>
      match DisplayWeatherInfo(d, p)
      case Shown(d') => d'
      case Threw(d', e) => DisplayError(d', Thrown(e))
  }

  /** One run of the listener to completion. */
  datatype Handled = Handled(display: Screen, request: Request)

  /** Whether the listener asked the network, and with which query. */
  datatype Request = NoRequest | Requested(query: string)

  /** The whole listener with the network as a function from query to
      response. */
  function HandleSubmit(d: Screen, raw: string, network: string -> Response): (r: Handled)
    ensures r.display.card
    ensures Exclusive(r.display)
    ensures r.request == NoRequest <==> JsString.AllSpace(raw)
    ensures r.request.Requested? ==> r.request.query == raw
    ensures JsString.AllSpace(raw) ==> r.display.error == Field(true, Plain(EmptyCityMessage))
    ensures !JsString.AllSpace(raw) ==>
              r.display == Resolve(d.(card := true), GetWeatherData(network(raw)))
    ensures !JsString.AllSpace(raw) && network(raw).FetchRejected? ==>
              r.display.error == Field(true, Thrown(NetworkError(network(raw).detail)))
    ensures !JsString.AllSpace(raw) && network(raw).Answered? && !network(raw).ok ==>
              r.display.error == Field(true, Thrown(FetchError(NotOkMessage)))
    ensures !JsString.AllSpace(raw) && network(raw).Answered? && network(raw).ok
            && network(raw).json.Err? ==>
              r.display.error == Field(true, Thrown(network(raw).json.error))
    ensures !JsString.AllSpace(raw) && network(raw).Answered? && network(raw).ok
            && network(raw).json.Ok? && |network(raw).json.payload.weather| == 0 ==>
              r.display.error == Field(true, Thrown(MissingCondition))
    ensures !JsString.AllSpace(raw) && network(raw).Answered? && network(raw).ok
            && network(raw).json.Ok? && |network(raw).json.payload.weather| > 0 ==>
              r.display == DisplayWeatherInfo(d.(card := true), network(raw).json.payload).display
  {
    match Submit(d, raw)
    case Rejected(d') => Handled(d', NoRequest)
    case Pending(d', q) => Handled(Resolve(d', GetWeatherData(network(q))), Requested(q))
  }

  /** What the view shows after a submission does not depend on what was on
      screen before it: a new submission replaces the previous result. */
  lemma SubmitForgetsPast(d1: Screen, d2: Screen, raw: string, network: string -> Response)
    ensures View(HandleSubmit(d1, raw, network).display) == View(HandleSubmit(d2, raw, network).display)
  {
    var p := GetWeatherData(network(raw));
    if !JsString.AllSpace(raw) && p.Ok? && |p.payload.weather| > 0 {
      WeatherViewForgetsPast(d1.(card := true), d2.(card := true), p.payload);
    }
  }

  /** Events the listener reacts to. Overlapping submissions are allowed: a
      response may settle after later submissions, in any order. */
  datatype Event = Submitted(raw: string) | Settled(response: Response)

  function Step(d: Screen, e: Event): Screen {
    match e
    case Submitted(raw) => Submit(d, raw).display
    case Settled(response) => Resolve(d, GetWeatherData(response))
  }

  /** The display after a sequence of events, applied in order. */
  function Run(d: Screen, events: seq<Event>): Screen
    decreases |events|
  {
    if events == [] then d else Run(Step(d, events[0]), events[1..])
  }

  /** The result group moves as one and is never on screen together with the
      error field. The starting display has this shape, and so does every
      display the listener ever produces. */
  predicate Coherent(d: Screen) {
    (ResultShown(d) || ResultHidden(d)) && !(ResultShown(d) && d.error.visible)
  }

  /** Every event keeps the display coherent. */
  lemma StepKeepsCoherent(d: Screen, e: Event)
    requires Coherent(d)
    ensures Coherent(Step(d, e))
  {
  }

  /** However submissions and responses interleave, the display stays
      coherent. */
  lemma {:induction false} RunKeepsCoherent(d: Screen, events: seq<Event>)
    requires Coherent(d)
    ensures Coherent(Run(d, events))
    decreases |events|
  {
    if events != [] {
      StepKeepsCoherent(d, events[0]);
      RunKeepsCoherent(Step(d, events[0]), events[1..]);
    }
  }

  /** Every display reachable from the starting markup is coherent. */
  lemma ReachableCoherent(events: seq<Event>)
    ensures Coherent(Run(Initial, events))
  {
    RunKeepsCoherent(Initial, events);
  }

  /** Once a submission has happened the card stays visible. */
  lemma {:induction false} RunKeepsCard(d: Screen, events: seq<Event>)
    requires d.card || (events != [] && events[0].Submitted?)
    ensures Run(d, events).card
    decreases |events|
  {
    if events != [] {
      RunKeepsCard(Step(d, events[0]), events[1..]);
    }
  }

  /** A single listener run is the event `Submitted(raw)`, followed, when a
      request was issued, by that request's response settling. */
  lemma HandleSubmitIsRun(d: Screen, raw: string, network: string -> Response)
    ensures var events := if JsString.AllSpace(raw) then [Submitted(raw)]
                          else [Submitted(raw), Settled(network(raw))];
            HandleSubmit(d, raw, network).display == Run(d, events)
  {
    if JsString.AllSpace(raw) {
      assert Run(d, [Submitted(raw)]) == Run(Step(d, Submitted(raw)), []);
    } else {
      var d' := Step(d, Submitted(raw));
      assert Run(d, [Submitted(raw), Settled(network(raw))]) == Run(d', [Settled(network(raw))]);
      assert Run(d', [Settled(network(raw))]) == Run(Step(d', Settled(network(raw))), []);
    }
  }

  /** Worked cases: a Paris payload, a not-ok response, a rejected fetch,
      and a blank input. */
  lemma Examples()
    ensures var paris := Payload("Paris", 290.5, 60, [Condition("clear sky", 800)]);
            var r := HandleSubmit(Initial, "Paris", (q: string) => Answered(true, Ok(paris))).display;
            && r.city == Field(true, Plain("Paris"))
            && r.temp == Field(true, Celsius(17.35))
            && r.humidity == Field(true, Plain("Humidity: 60"))
            && r.desc == Field(true, Plain("clear sky"))
            && r.emoji == Field(true, Plain("\U{2600}"))
            && !r.error.visible
    ensures var r := HandleSubmit(Initial, "Atlantis", (q: string) => Answered(false, Err(ParseError("")))).display;
            ResultHidden(r) && r.error == Field(true, Thrown(FetchError("Could not fetch weather data")))
    ensures var r := HandleSubmit(Initial, "Paris", (q: string) => FetchRejected("offline")).display;
            ResultHidden(r) && r.error == Field(true, Thrown(NetworkError("offline")))
    ensures var r := HandleSubmit(Initial, " \t ", (q: string) => Answered(false, Err(ParseError("")))).display;
            ResultHidden(r) && r.error == Field(true, Plain("Please, enter a city!"))
  {
    assert JsString.NatToString(60) == "60";
    assert !JsString.AllSpace("Paris") by { assert !JsString.IsSpace("Paris"[0]); }
    assert !JsString.AllSpace("Atlantis") by { assert !JsString.IsSpace("Atlantis"[0]); }
  }
}
