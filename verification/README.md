# Weather card: a Dafny model

This project models the core of a single-page weather widget, the React component `Weather`. The user types a city and submits the form. The component trims the input, and an empty result shows the message "Please, enter a city!". Otherwise it shows the card and asks the OpenWeatherMap API for the city, using the untrimmed input. It then either fills in five result fields (city, temperature, humidity, description, condition glyph) or shows one error field.

The model has four modules:

- `Emoji`: `getEmoji`, the ordered decision list that maps a condition code to one of seven glyphs. It also holds the same rule as a data table with generic first-match evaluation, and a proof that the two agree on every code.
- `JsString`: the two JavaScript string operations the component uses. `Trim` is `String.prototype.trim`. `NatToString` is the decimal rendering of the humidity inside a template literal.
- `Display`: an immutable record, `Screen`, of the card and its six fields, each with a visibility flag and a text. It holds the two presenters `displayWeatherInfo` and `displayError`, the viewer's `View`, and the invariant that the result group and the error field are mutually exclusive.
- `Submit`: the submit listener and the ok/not-ok branch of `getWeatherData`. The network is abstracted into a `Response` value. It is either a rejected `fetch`, or an answer carrying the `ok` flag and what `response.json()` would produce. `Run` folds any sequence of submissions and settled responses over the display, so overlapping requests are covered as arbitrary interleavings.

Four behaviours of the code are easy to misstate, and the model follows the code in each:

- The component's error object reaches the error field as the value itself (src/Weather.jsx:73-75). The model therefore keeps it as `Thrown(error)` and does not fix the text it stringifies to.
- The result group and the error field are not always "exactly one visible". In the starting markup both are hidden, and they stay hidden while the first request is pending. The model proves the invariant that holds at every moment (`Coherent`: the five result fields move together and never show alongside the error). It also proves the stronger `Exclusive` after every presenter call.
- A payload whose `weather` list is empty makes the destructuring in `displayWeatherInfo` throw. This happens after the visibility flags were flipped and before any text was written. The surrounding `catch` then calls `displayError` with that exception. The model follows this path (`Presented.Threw`, `Submit.Resolve`) and proves that the half-done flip leaves no trace.
- The request is sent with the raw, untrimmed input (src/Weather.jsx:70), while validation uses the trimmed one (src/Weather.jsx:66). The model keeps this and states it in `Submit.Submit` and `Submit.HandleSubmit`.

## Model

| member | source | states |
|---|---|---|
| `Emoji.GetEmoji` | src/Weather.jsx:116-134 | For every integer code, exactly one glyph, with the preimage of each glyph given exactly. 200–299 gives thunderstorm. 300–399 and 500–599 give rain. 600–699 gives snow and 700–799 gives atmosphere. Exactly 800 gives clear and 801–809 gives clouds. Everything else, including below 200, 400–499 and from 810 up, gives the unknown glyph. |
| `Emoji.Render` | src/Weather.jsx:118-133 | Each glyph is shown as a single code point. |
| `Emoji.RenderInjective` | src/Weather.jsx:118-133 | Two glyphs are rendered the same only if they are the same glyph, so the seven outcomes can be told apart on screen. |
| `Emoji.ClassifyFirstMatch` | src/Weather.jsx:117-133 | In `switch (true)` semantics the first matching case decides: evaluating a rule table returns the glyph of the earliest rule that matches. |
| `Emoji.ClassifyNoMatch` | src/Weather.jsx:132-133 | When no case matches, the default glyph is returned. |
| `Emoji.GetEmojiFollowsTable` | src/Weather.jsx:116-134 | The decision list equals first-match evaluation of the table of half-open bands plus the exact 800 rule, on every code. |
| `Emoji.TableRowsDisjoint` | src/Weather.jsx:118-131 | No code matches two rows of the table, so the order of the cases does not affect the result. |
| `JsString.Trim` | src/Weather.jsx:66 | The trimmed input is empty exactly when the input is all whitespace. Otherwise it starts and ends with a non-space, and it is the slice of the input left after removing only leading and trailing whitespace. |
| `JsString.TrimIdempotent` | src/Weather.jsx:66 | Trimming an already trimmed string changes nothing. |
| `JsString.NatToString` | src/Weather.jsx:105 | The humidity is rendered as decimal digits with no leading zero, as JavaScript does for integers below 10^21. |
| `JsString.NatToStringRoundTrip` | src/Weather.jsx:105 | Reading the rendered digits back yields the humidity, so the text determines the number. |
| `Display.DisplayWeatherInfo` | src/Weather.jsx:90-108 | All five result fields become visible and the error field hidden, and the card and the error text are untouched. With a non-empty `weather` list, the city and description are the payload's verbatim and the temperature is the Kelvin value minus 273.15. The humidity text is "Humidity: " followed by digits, with no leading zero, that read back as the humidity, and the glyph is `getEmoji` of the first condition's id. With an empty list it throws after the flip, with every result text unchanged. |
| `Display.DisplayError` | src/Weather.jsx:142-150 | All five result fields are hidden and the error field is visible with the given message. The card and every result text are unchanged. |
| `Display.PresentersExclusive` | src/Weather.jsx:91-148 | After either presenter exactly one of the result group and the error field is visible. The starting markup does not have this property. |
| `Display.PresentersIdempotent` | src/Weather.jsx:90-150 | Running either presenter twice with the same argument is the same as running it once. |
| `Display.WeatherViewForgetsPast` | src/Weather.jsx:91-107 | After a completed `displayWeatherInfo` the visible screen depends only on the payload and the card flag, not on what was shown before. |
| `Display.ErrorViewForgetsPast` | src/Weather.jsx:143-149 | After `displayError` the visible screen depends only on the message and the card flag. |
| `Display.ErrorAfterThrowIsPlainError` | src/Weather.jsx:90-101 | When `displayWeatherInfo` throws on an empty `weather` list, the `displayError` that catches it leaves exactly the state `displayError` alone would have produced. |
| `Submit.GetWeatherData` | src/Weather.jsx:161-166 | A rejected `fetch` passes its exception on as a network error. A not-ok response throws the error with message "Could not fetch weather data" and the body is ignored. An ok response yields whatever parsing the body yields. |
| `Submit.NotOkIgnoresBody` | src/Weather.jsx:163-165 | A not-ok response always fails, with an outcome that does not depend on its body. |
| `Submit.Submit` | src/Weather.jsx:64-81 | The card becomes visible in both branches. The input is rejected exactly when it is empty or all whitespace. In that case the result fields are hidden, the error field shows "Please, enter a city!", and the result texts are kept. Otherwise a request is issued with the raw, untrimmed input and nothing but the card changes yet. |
| `Submit.Resolve` | src/Weather.jsx:69-76 | After the `await`, exactly one of the groups is visible and the card is unchanged. The error field is visible exactly when the fetch failed or the payload has no condition. A fetch failure shows the thrown value, a payload without a condition shows the destructuring failure, and otherwise the display is that of `displayWeatherInfo`. |
| `Submit.HandleSubmit` | src/Weather.jsx:64-82 | One full listener run leaves the card visible and exactly one group shown. The network is asked exactly when the trimmed input is non-empty, and then with the raw input. Blank input shows "Please, enter a city!". Otherwise the display is exactly what the `try`/`catch` continuation (`Submit.Resolve`) makes of the outcome, applied after the card was shown. Per path: a rejected fetch shows its network error, and a not-ok response shows the fetch error. An ok response whose body fails to parse shows that failure, and an ok payload with no condition shows the destructuring failure. An ok payload with a condition gives exactly the display of `displayWeatherInfo`. |
| `Submit.SubmitForgetsPast` | src/Weather.jsx:64-82 | What is on screen after a submission does not depend on what was on screen before it: a new submission replaces the previous result. |
| `Submit.RunKeepsCoherent` | src/Weather.jsx:64-82 | Under any interleaving of submissions and settled responses, the five result fields keep one shared visibility and never show together with the error field. |
| `Submit.ReachableCoherent` | src/Weather.jsx:173-179 | Every display reachable from the starting markup, where everything is hidden, has that shape. |
| `Submit.RunKeepsCard` | src/Weather.jsx:68-79 | Once a submission has happened the card stays visible whatever follows. |
| `Submit.HandleSubmitIsRun` | src/Weather.jsx:64-82 | A single listener run is the event sequence "submitted", followed by "its response settled" when a request was issued. |
| `Submit.Examples` | src/Weather.jsx:99-107 | The worked cases. A Paris payload at 290.5 K, 60 % humidity and code 800 shows "Paris", the temperature value Celsius(17.35) before the `toFixed(1)` formatting left out below, "Humidity: 60", "clear sky" and the clear glyph. A not-ok response shows the fetch error, a rejected fetch shows its network error, and blank input shows the empty-city message. |

## Left out

- The HTTP request, the URL built from the query and the API key, and `response.json()` (src/Weather.jsx:159-162, 166) are network I/O. They are abstracted into the `Response` value: a rejected `fetch` with an opaque detail, or an answer with its `ok` flag and the outcome of parsing its body.
- The API key read from the build environment (src/Weather.jsx:50) is configuration and appears only inside the abstracted URL.
- Display.DisplayWeatherInfo: the temperature text is kept as `Celsius(kelvin - 273.15)` in exact real arithmetic. The IEEE double subtraction, `toFixed(1)` and the `°C` suffix are not modelled, because they are floating-point formatting.
- Display.DisplayError: an error object placed in the error field is kept as the value `Thrown(e)`. Its stringification by the browser is not modelled.
- The React `useRef`/`useEffect` lifecycle, the one-time listener registration, `event.preventDefault()` and the JSX markup (src/Weather.jsx:8-44, 54-65, 169-183) are UI framework plumbing. Only the markup's starting state (`Display.Initial`) is kept.
- `console.log` and `console.error` (src/Weather.jsx:74, 162) only produce diagnostic output.
- Submit.Run: overlapping requests are modelled as any order of submission and settle events. The pairing of each response with the submission that issued it is not tracked, and neither are the browser's scheduling and timing.
- The payload is typed. A missing `name` or `main`, a non-integer or negative humidity, and a non-integer condition id are not modelled; only the empty `weather` list, the one shape failure the destructuring itself can hit with a typed payload, is. The humidity is a `nat` and the id an `int`.
- JsString.NatToString: it matches JavaScript's rendering only below 10^21. From there JavaScript uses exponent form ("1e+21"), and above 2^53 a JavaScript number cannot hold every integer exactly. Humidity is a percentage, so this range is not reached in practice.
- JsString.IsSpace lists the ECMAScript WhiteSpace and LineTerminator code points, with category Zs as in current Unicode. It does not follow later changes to the Unicode tables.
