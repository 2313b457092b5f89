/** The weather card: six display fields plus the card itself, each with a
    visibility flag and a text, and the two presenters that rewrite them,
    `displayWeatherInfo` and `displayError`. */
module Display {
  import Emoji
  import JsString

  /** A thrown JavaScript value that can reach the error field. Only the one
      this component throws itself has a message fixed by the code; the rest
      come from the runtime and are kept opaque. */
  datatype Error =
    | FetchError(message: string)  // `new Error(...)` on a not-ok response
    | ParseError(detail: string)   // a failure of `response.json()`
    | MissingCondition             // destructuring a payload whose `weather` list is empty
    | NetworkError(detail: string) // a rejected `fetch` (network, DNS or CORS failure)

  /** What a field's `textContent` was set to. Plain strings are kept
      verbatim; a Celsius value and a thrown error are shown through
      JavaScript formatting and stringification, which this model keeps
      symbolic. */
  datatype Text =
    | Plain(s: string)
    | Celsius(degrees: real)
    | Thrown(error: Error)

  datatype Field = Field(visible: bool, text: Text)

  /** The card and its six fields. */
  datatype Screen = Screen(
    card: bool,
    city: Field,
    temp: Field,
    humidity: Field,
    desc: Field,
    emoji: Field,
    error: Field)

  /** The first entry of the payload's `weather` list. */
  datatype Condition = Condition(description: string, id: int)

  /** The parts of the provider's answer the card reads. */
  datatype Payload = Payload(
    name: string,
    temp: real,          // Kelvin
    humidity: nat,       // percent
    weather: seq<Condition>)

  /** The markup's starting point: card and every field hidden and empty. */
  const Initial: Screen :=
    Screen(false, Field(false, Plain("")), Field(false, Plain("")), Field(false, Plain("")),
            Field(false, Plain("")), Field(false, Plain("")), Field(false, Plain("")))

  const HumidityLabel: string := "Humidity: "

  /** All five result fields are visible. */
  predicate ResultShown(d: Screen) {
    d.city.visible && d.temp.visible && d.humidity.visible && d.desc.visible && d.emoji.visible
  }

  /** All five result fields are hidden. */
  predicate ResultHidden(d: Screen) {
    !d.city.visible && !d.temp.visible && !d.humidity.visible && !d.desc.visible && !d.emoji.visible
  }

  /** Exactly one of the result group and the error field is visible. */
  predicate Exclusive(d: Screen) {
    (ResultShown(d) && !d.error.visible) || (ResultHidden(d) && d.error.visible)
  }

  /** The five result texts, in display order. */
  function ResultTexts(d: Screen): seq<Text> {
    [d.city.text, d.temp.text, d.humidity.text, d.desc.text, d.emoji.text]
  }

  /** Outcome of `displayWeatherInfo`: it either completes or throws part way,
      after the visibility flags were set and before any text was written. */
  datatype Presented =
    | Shown(display: Screen)
    | Threw(display: Screen, error: Error)

  /** `displayWeatherInfo(data)`. */
  function DisplayWeatherInfo(d: Screen, data: Payload): (r: Presented)
    ensures r.display.card == d.card
    ensures ResultShown(r.display) && !r.display.error.visible
    ensures r.display.error.text == d.error.text
    ensures r.Shown? <==> |data.weather| > 0
    ensures r.Threw? ==> r.error == MissingCondition && ResultTexts(r.display) == ResultTexts(d)
    ensures r.Shown? ==>
      && r.display.city.text == Plain(data.name)
      && r.display.temp.text == Celsius(data.temp - 273.15)
      && r.display.desc.text == Plain(data.weather[0].description)
      && r.display.emoji.text == Plain(Emoji.Render(Emoji.GetEmoji(data.weather[0].id)))
    ensures r.Shown? ==>
      && r.display.humidity.text.Plain?
      && var h := r.display.humidity.text.s;
         && |HumidityLabel| < |h| && h[..|HumidityLabel|] == HumidityLabel
         && (forall i :: |HumidityLabel| <= i < |h| ==> JsString.IsDigit(h[i]))
         && (|h| > |HumidityLabel| + 1 ==> h[|HumidityLabel|] != '0')
         && JsString.ParseDigits(h[|HumidityLabel|..]) == data.humidity
  {
    var flipped := d.(
      city := d.city.(visible := true),
      temp := d.temp.(visible := true),
      humidity := d.humidity.(visible := true),
      desc := d.desc.(visible := true),
      emoji := d.emoji.(visible := true),
      error := d.error.(visible := false));
    if |data.weather| == 0 then
      Threw(flipped, MissingCondition)
    else
      var c := data.weather[0];
      var digits := JsString.NatToString(data.humidity);
      JsString.NatToStringRoundTrip(data.humidity);
      assert (HumidityLabel + digits)[|HumidityLabel|..] == digits;
      assert (HumidityLabel + digits)[|HumidityLabel|] == digits[0];
      Shown(flipped.(
        city := Field(true, Plain(data.name)),
        temp := Field(true, Celsius(data.temp - 273.15)),
        humidity := Field(true, Plain(HumidityLabel + digits)),
        desc := Field(true, Plain(c.description)),
        emoji := Field(true, Plain(Emoji.Render(Emoji.GetEmoji(c.id))))))
  }

  /** `displayError(message)`. */
  function DisplayError(d: Screen, message: Text): (r: Screen)
    ensures r.card == d.card
    ensures ResultHidden(r)
    ensures r.error == Field(true, message)
    ensures ResultTexts(r) == ResultTexts(d)
  {
    d.(
      city := d.city.(visible := false),
      temp := d.temp.(visible := false),
      humidity := d.humidity.(visible := false),
      desc := d.desc.(visible := false),
      emoji := d.emoji.(visible := false),
      error := Field(true, message))
  }

  /** After either presenter, exactly one of the result group and the error
      field is visible. */
  lemma PresentersExclusive(d: Screen, data: Payload, message: Text)
    ensures Exclusive(DisplayWeatherInfo(d, data).display)
    ensures Exclusive(DisplayError(d, message))
    ensures !Exclusive(Initial)
  {
  }

  /** Each presenter is idempotent. */
  lemma PresentersIdempotent(d: Screen, data: Payload, message: Text)
    ensures DisplayError(DisplayError(d, message), message) == DisplayError(d, message)
    ensures DisplayWeatherInfo(DisplayWeatherInfo(d, data).display, data) == DisplayWeatherInfo(d, data)
  {
  }

  /** What a viewer sees in one slot. */
  datatype Slot = Blank | Showing(text: Text)

  function SlotOf(f: Field): Slot {
    if f.visible then Showing(f.text) else Blank
  }

  /** What a viewer sees: nothing while the card is hidden, otherwise the six
      slots in display order. */
  function View(d: Screen): seq<Slot> {
    if !d.card then []
    else [SlotOf(d.city), SlotOf(d.temp), SlotOf(d.humidity), SlotOf(d.desc), SlotOf(d.emoji), SlotOf(d.error)]
  }

  /** A completed `displayWeatherInfo` leaves nothing of the earlier display
      on screen but the card flag. */
  lemma WeatherViewForgetsPast(d1: Screen, d2: Screen, data: Payload)
    requires d1.card == d2.card && |data.weather| > 0
    ensures View(DisplayWeatherInfo(d1, data).display) == View(DisplayWeatherInfo(d2, data).display)
  {
  }

  /** `displayError` leaves nothing of the earlier display on screen but the
      card flag. */
  lemma ErrorViewForgetsPast(d1: Screen, d2: Screen, message: Text)
    requires d1.card == d2.card
    ensures View(DisplayError(d1, message)) == View(DisplayError(d2, message))
  {
  }

  /** The half-done flip of a throwing `displayWeatherInfo` is fully undone
      by the `displayError` that catches it. */
  lemma ErrorAfterThrowIsPlainError(d: Screen, data: Payload, message: Text)
    requires |data.weather| == 0
    ensures DisplayError(DisplayWeatherInfo(d, data).display, message) == DisplayError(d, message)
  {
  }
}
