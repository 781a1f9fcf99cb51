# Smart City app: validation and UI state, modelled in Dafny

A model of the decision logic of the Smart City application, a small Express
server with an AngularJS front end. Users register cities with coordinates,
see them as markers on a Google map, and look up their current weather.

- `server.js` is modelled as pure functions (module `Server`). They cover the
  `validateCity` middleware, the `POST /api/cities` route behind it, the
  weather proxy `GET /api/weather/:city` and the catch-all error handler. The
  outcome of each outbound call (the weather provider's answer, the store's
  `save()`) is an input to these functions.
- `public/app.js` is modelled as a class, `App.MainController`. It holds the
  scope fields that `initMap`, `addCity` and `showWeather` assign, grouped
  into three fields by panel: the map loader, the city form and list, and
  the weather panel. Each
  asynchronous event is a method of its own: an HTTP reply, the script's
  error event, the maps callback, a `$timeout` firing. An event that nothing
  is waiting for changes nothing.
- `JsValues` models the JavaScript values the validation code sees. It gives
  their `typeof`, their truthiness (`!x`), their conversion to a number
  (`isNaN(x)`, `x < -90`) and what survives a JSON round trip. `Decimal` holds
  the digit strings behind `${status}` and behind string-to-number conversion.
  `Http` holds JSON bodies and replies.
- `Agreement` compares the browser's checks with the server's. It also shows
  which message the form or panel displays for each server reply.

Files: `wrappers.dfy`, `decimal.dfy`, `js_values.dfy`, `http.dfy`,
`server.dfy`, `app.dfy`, `agreement.dfy`.

## Behaviour of the code worth knowing

- An exception in the weather route is answered by the route's own `catch`:
  500 "Failed to fetch weather data", not the generic handler's message.
- An OK upstream answer is relayed with status 200, whatever its 2xx code
  (`res.json(data)`).
- The server lets a NaN coordinate through, because `typeof NaN` is
  "number" and every comparison with NaN is false
  (`Server.NaNCoordinatesPass`). A JSON body cannot carry NaN, so this
  cannot happen over HTTP (`JsValues.Transmit`).
- The browser treats a numeric 0 latitude or longitude as missing, because
  0 is falsy. The server accepts 0 (`Agreement.ZeroLatitudeOnlyServerAccepts`).
  The browser accepts a coordinate typed as text, such as "45". The server
  refuses it (`Agreement.TextLatitudeOnlyClientAccepts`).
- The map loader's states are not terminal. A maps callback that arrives
  after the timeout fired still builds the map and adds the markers, but
  the timeout message stays (`App.CallbackAfterTimeout`).
- `addCity` never clears `addError`.
- `addMarker` is called inside the success handler of the POST, so if it
  throws, the `.catch` runs after the city was saved and listed, and it shows
  "Error adding city" instead of the success message
  (`App.AddWhenMarkerThrows`). The body of `addMarker` is not part of this
  model; it would throw if it used `google.maps` before the library loaded.
- The browser accepts an infinite number as a name, but JSON sends it as
  null and the server reports the name as missing
  (`Agreement.InfiniteNameOnlyClientAccepts`).
- The 3 s timers that clear the success message are never cancelled. A timer
  from an earlier addition can clear a later message early
  (`App.EarlySuccessClear`).
- Weather replies are not matched to the request that produced them
  (`App.StaleWeatherFailure`).

## Model

| member | source | states |
|---|---|---|
| `Decimal.NatToString` | server.js:31 | the rendering of a status in `${response.status}` is non-empty, all digits, and starts with '0' only for 0 |
| `Decimal.NatToStringValue` | server.js:31 | reading the digits of a rendered number back gives the number |
| `Decimal.NatToStringInjective` | server.js:31 | two numbers have the same rendering exactly when they are equal |
| `Decimal.FirstIndexOf` | public/app.js:80 | the first position holding one of the given characters, with none before it, or the length when there is none |
| `Decimal.ParseMantissa` | public/app.js:80 | a plain digit string reads as its integer value |
| `Decimal.ParseMantissaDefined` | public/app.js:80 | a mantissa is read exactly when the text is digits, or digits around a single point with at least one digit in all (`IsMantissa`). So "." and "1.2.3" are not read |
| `Decimal.ParseExponent` | public/app.js:80 | an exponent is read exactly when it is a non-empty digit string, with an optional sign before it. Its value is the digits' value, negated after a minus sign |
| `Decimal.ParseDecimal` | public/app.js:80 | a plain digit string is a decimal literal whose value is its digits' value |
| `Decimal.ParseDecimalDefined` | public/app.js:80 | a text is read exactly when it follows the literal grammar (`IsDecimalLiteral`): a mantissa, or a mantissa, an `e` or `E` and an exponent. Every other text is rejected |
| `Decimal.ParseDecimalAt` | public/app.js:80 | a text with one exponent mark after a mark-free prefix reads as that prefix's mantissa scaled by the exponent after the mark |
| `Decimal.ParseDecimalMarks` | public/app.js:80 | `E` and `e` mark the exponent alike: `m E x` reads as `m e x` for every exponent text x |
| `Decimal.ParseDecimalPlusSign` | public/app.js:80 | a plus sign before the exponent digits changes nothing: `m e+d` reads as `m e d` for every digit string d |
| `Decimal.ParseExponentPlus` | public/app.js:80 | the exponent `+d` has the value of `d` |
| `Decimal.TrailingLetterRejected` | public/app.js:80 | "45a" is not a literal |
| `Decimal.SecondPointRejected` | public/app.js:80 | "1.2.3" is not a literal |
| `Decimal.LonePointRejected` | public/app.js:80 | "." is not a literal |
| `Decimal.MissingExponentRejected` | public/app.js:80 | "1e" is not a literal |
| `Decimal.MissingMantissaRejected` | public/app.js:80 | "e5" is not a literal |
| `Decimal.SecondExponentRejected` | public/app.js:80 | "1e1e1" is not a literal |
| `Decimal.TimesPow10Value` | public/app.js:80 | moving the point k places right multiplies by 10^k |
| `Decimal.OverPow10Value` | public/app.js:80 | moving the point k places left divides by 10^k |
| `Decimal.DigitsValueAppend` | public/app.js:80 | the value of two digit strings written one after the other is the first shifted by the length of the second, plus the second |
| `Decimal.ParseMantissaFraction` | public/app.js:80 | a mantissa `w.f` reads as the digits of `w` and `f` together, divided by 10 to the number of fraction digits |
| `Decimal.ParseDecimalFraction` | public/app.js:80 | a literal `w.f` without exponent has that same value |
| `Decimal.ParseExponentOfDigits` | public/app.js:80 | the exponent text of k reads as k, and with a minus sign as -k |
| `Decimal.ParseDecimalScaledUp` | public/app.js:80 | a literal `m e k` is read exactly when its mantissa is, and its value is the mantissa with the point moved k places right |
| `Decimal.ParseDecimalScaledDown` | public/app.js:80 | a literal `m e-k` is read exactly when its mantissa is, and its value is the mantissa with the point moved k places left |
| `JsValues.Truthy` | server.js:47 | a value is truthy exactly when it is not one of the six falsy values (undefined, null, false, "", 0, NaN) |
| `JsValues.TypeOf` | server.js:51 | `typeof` is "number" exactly for numbers, NaN and the infinities included, and "string" exactly for strings |
| `JsValues.TrimStart` | public/app.js:80 | the string-to-number conversion drops exactly the leading white space: what is left is a suffix that does not start with white space |
| `JsValues.TrimEnd` | public/app.js:80 | likewise for trailing white space |
| `JsValues.Transmit` | public/app.js:100 | after `JSON.stringify` and `JSON.parse`, a finite number arrives unchanged, NaN and the infinities arrive as null, and whatever arrives as a number was sent as that number |
| `JsValues.ToNumberOfFalsy` | public/app.js:78-82 | a falsy value converts to 0 or NaN. For a number, truthiness means exactly that it is neither 0 nor NaN |
| `JsValues.StringToNumberOfLiteral` | public/app.js:80-82 | a literal with no white space at either end and no sign reads as an unsigned literal, and with "-" before it as the negated value |
| `JsValues.UnsignedToNumberNaN` | public/app.js:80-82 | an unsigned text converts to NaN exactly when it is neither "Infinity" nor a decimal literal |
| `JsValues.UnsignedIsNaN` | public/app.js:80-82 | a text with nothing to trim and no sign that the literal parser rejects converts to NaN, so `isNaN` is true for "45a", "1.2.3", ".", "1e", "e5" and "1e1e1" |
| `JsValues.StringToNumberOfBlank` | public/app.js:80-82 | a text of white space only, the empty text included, converts to 0 |
| `JsValues.StringToNumberOfDigitString` | public/app.js:80-82 | text made of digits converts to the number it spells, and with "-" before it to its negation, so `isNaN` is false for it and the range checks compare that number |
| `JsValues.StringToNumberOfDigits` | public/app.js:80-82 | the text of a natural number converts back to that number |
| `JsValues.StringToNumberOfNegatedDigits` | public/app.js:80-82 | "-" followed by the text of a natural number converts to the negated number |
| `JsValues.StringToNumberOfDecimal` | public/app.js:80-82 | a decimal fraction `w.f` typed into the form, with or without a minus sign, converts to its digits with the point moved left past the fraction digits, negated after the sign |
| `JsValues.StringToNumberOfExponent` | public/app.js:80-82 | a number typed with an exponent, `n e k`, converts to n with the point moved k places right |
| `Http.Lookup` | public/app.js:114 | reading `data.message` finds nothing exactly when no member has that key. Otherwise it yields the value of the last member with that key, as `JSON.parse` keeps the last duplicate |
| `Http.MessageOfMessageBody` | server.js:48 | the `{ message }` body of an error reply reads back as its message |
| `Server.ValidateCity` | server.js:44-64 | every body gets one outcome. It is a 400 whose message names the first violated category, tested in this order: name or country falsy, then a coordinate not of type number, then latitude outside [-90, 90], then longitude outside [-180, 180]. Otherwise it is `next()`, exactly when no category is violated |
| `Server.RequiredCheckWins` | server.js:47-49 | a missing name or country gives "City name and country are required" whatever the coordinates are |
| `Server.NumericStringRefused` | server.js:51-53 | a latitude sent as a numeric string is refused with "Latitude and longitude must be numbers" |
| `Server.BoundsInclusive` | server.js:55-61 | latitudes of exactly -90 and 90 and longitudes of exactly -180 and 180 are accepted |
| `Server.LongitudeIgnoredAfterLatitude` | server.js:55-61 | once the latitude is refused, no longitude changes the reply |
| `Server.NaNCoordinatesPass` | server.js:51-61 | NaN coordinates pass both the type check and the range checks |
| `Server.CreateCity` | server.js:68-76 | `save()` is called exactly when validation passes. A refused body gets the middleware's reply. A successful save gives 201 with the document built from the posted body and the identity the store assigned. A failed save gives 400 with the store's message. No other status occurs |
| `Server.OutOfRangeNeverStored` | server.js:55-76 | a coordinate out of range is answered with 400 and nothing is saved |
| `Server.CreatedEchoesBody` | server.js:68-72 | a body of two texts and two finite numbers is created exactly when the texts are non-empty and the numbers within bounds. The 201 reply is then the record of exactly the posted values under the assigned identity |
| `Server.LyonIsCreated` | server.js:68-72 | Lyon, France at (45.75, 4.85) is saved and echoed back with 201 and its identity |
| `Server.WeatherRoute` | server.js:13-41 | An empty name gives 400 "City name is required", and in that case no request is made. Otherwise the request carries the name, the key and metric units. Status 200 is returned exactly for an OK answer with a JSON payload, and the payload is relayed unchanged. A non-OK answer keeps its status: 404 gets "City not found in weather service", any other status gets "Weather service error: <status>". A thrown call or an unreadable OK body gives 500 "Failed to fetch weather data" |
| `Server.WeatherErrorMessageNamesStatus` | server.js:30-32 | the passthrough message is the fixed prefix followed by digits that read back as the provider's status |
| `Server.WeatherErrorMessageInjective` | server.js:30-32 | different provider statuses give different passthrough messages |
| `Server.ErrorHandler` | server.js:79-85 | every uncaught error gives 500 "An unexpected error occurred". The `error` field holds `err.message`, or `{}` when NODE_ENV is "production" |
| `Server.ProductionHidesDetail` | server.js:83 | in production the reply is the same for every error |
| `Server.DevelopmentShowsDetail` | server.js:83 | outside production two errors give the same reply exactly when their messages are equal |
| `App.ErrorsForStep` | public/app.js:70-92 | checking one more field adds that field's entry, if it has one, and leaves the entries of the other fields as they were |
| `App.CollectFormErrors` | public/app.js:67-92 | building the error map field by field, starting from an empty map, yields one entry per failing field |
| `App.FormErrorsEmptyIff` | public/app.js:69-97 | the error map is empty exactly when the name and country are truthy and both coordinates are truthy and convert to finite numbers within their bounds |
| `App.CoordinateMessage` | public/app.js:78-92 | a coordinate has an entry exactly when it is not accepted. The entry is "… is required" when the value is falsy and the range message otherwise. It never has both |
| `App.ZeroLatitudeIsRequired` | public/app.js:78-79 | a latitude of 0 gets "Latitude is required" |
| `App.EmptyFormErrors` | public/app.js:67-92 | the empty form gets all four "required" messages at once, so every field is checked |
| `App.ScriptUrlInjective` | public/app.js:15 | the script URL carries the key exactly: two keys give the same URL only when they are the same text. A missing key is spelled "undefined" |
| `App.FailureMessage` | public/app.js:114 | the failure message is the server's message when the reply carries a non-empty one, and otherwise the fallback |
| `App.MainController.constructor` | public/app.js:1-2 | the controller starts with the loaded cities, an empty form, and idle map and weather panels |
| `App.MainController.InitMap` | public/app.js:5-9 | `initMap` sets loading, clears the error and requests the configuration. It keeps the invariant that a pending request or timeout means loading without an error |
| `App.MainController.ConfigLoaded` | public/app.js:10-25 | the configuration reply injects the script with the key in its URL and starts the timeout. Nothing else changes |
| `App.MainController.ConfigFailed` | public/app.js:57-61 | a failed configuration request stops loading with "Error loading map configuration" |
| `App.MainController.ScriptFailed` | public/app.js:28-32 | the script error cancels the timeout and stops loading with "Failed to load Google Maps" |
| `App.MainController.MapsCallback` | public/app.js:35-53 | The callback cancels the timeout and stops loading. Then either the map is built and one marker is added per known city, in list order, or the constructor's message is reported after "Error initializing map: " |
| `App.MainController.MapTimeout` | public/app.js:20-25 | a timeout that was not cancelled reports "Map failed to load - timeout" and stops loading only when `google.maps` is absent. A cancelled timeout changes nothing |
| `App.MainController.EditForm` | public/app.js:69-92 | an input event standing for the template's `ng-model` binding, which the code at these lines reads as `newCity`: typing into the form changes `newCity` and nothing else |
| `App.MainController.AddCity` | public/app.js:65-100 | `formErrors` is rebuilt from nothing as the form's errors. Only a form without errors is POSTed. A form with errors leaves the list, the form and the requests as they were |
| `App.MainController.CityAdded` | public/app.js:101-114 | on success the returned record is appended to the list and the form is emptied. If `addMarker` returns, the marker is placed, the success message is set and a timer to clear it is started. If it throws, no marker is placed, no success message or timer is set, and `addError` becomes "Error adding city" |
| `App.MainController.AddFailed` | public/app.js:112-115 | on failure `addError` is the server's message or "Error adding city", and the list is unchanged |
| `App.MainController.SuccessTimeout` | public/app.js:108-110 | a 3 s timer clears the success message |
| `App.MainController.ShowWeather` | public/app.js:119-125 | the panel selects the city, sets loading, clears the data and the error, and requests that city's weather |
| `App.MainController.WeatherLoaded` | public/app.js:126-129 | success stores the data and stops loading |
| `App.MainController.WeatherFailed` | public/app.js:130-134 | failure stops loading and shows the server's message or "Failed to load weather data" |
| `App.CallbackBeatsTimeout` | public/app.js:20-37 | after the callback, a later timeout reports nothing: the map is ready with one marker per city and no error |
| `App.CallbackAfterTimeout` | public/app.js:20-53 | a callback after a fired timeout builds the map, but the timeout message stays |
| `App.StaleWeatherFailure` | public/app.js:119-134 | a late failure for an earlier city and data for the selected city end up shown together |
| `App.EarlySuccessClear` | public/app.js:100-110 | after two additions, the first timer clears the second success message |
| `App.AddWhenMarkerThrows` | public/app.js:101-114 | if `addMarker` throws after a successful POST, the city is listed without a marker, and the form shows "Error adding city" with no success message |
| `Agreement.AcceptedFormPassesServer` | server.js:44-64 | a form the browser accepts, with number coordinates and a name and country that JSON carries unchanged, is accepted by the server after the JSON round trip |
| `Agreement.InfiniteNameOnlyClientAccepts` | server.js:47-49 | an infinite number as the name passes the browser, but it arrives as null and the server reports the name as missing |
| `Agreement.ZeroLatitudeOnlyServerAccepts` | public/app.js:78-79 | a latitude of 0 is "required" in the browser but passes the server |
| `Agreement.TextLatitudeOnlyClientAccepts` | server.js:51-53 | a form the browser accepts with its latitude still text is refused by the server's type check |
| `Agreement.TextLatitudeAccepted` | public/app.js:78-83 | such forms exist: the text of any whole number from 1 to 90 is a latitude the browser accepts |
| `Agreement.ValidationMessageShown` | public/app.js:114 | a middleware rejection is shown in the form with the middleware's own message |
| `Agreement.SaveFailureShown` | server.js:73-75 | a store error is shown with its message, or with "Error adding city" when the message is empty |
| `Agreement.WeatherNotFoundShown` | server.js:27-29 | a city unknown to the provider is shown as "City not found in weather service" |
| `Agreement.WeatherExceptionShown` | server.js:37-40 | when the outbound call throws, the panel shows the server's "Failed to fetch weather data", not its own fallback |

## Left out

- Express routing, the `req`/`res` objects and the dynamic `node-fetch` import. The outbound weather call is the input `Server.Upstream`: it threw, or it answered with a status and a JSON or non-JSON body.
- `encodeURIComponent` of the city name (server.js:22, public/app.js:125). The requests carry the raw name.
- The `GET /api/config` route and its disclosure of environment keys (server.js:1-6). The key the browser receives is the input of `ConfigLoaded`.
- Mongoose `new City(...)` and `save()`. The save's result is the input `Server.SaveOutcome`: the identity the store assigned, or the error it threw. The City schema (models/City.js) is not part of this model. The 201 body is taken to hold the identity and the four posted fields as they were sent. Schema casting, extra fields of the body and Mongoose's own fields (`__v`) are not modelled.
- `Server.FieldJson`: an object sent as a field is written as an empty object. Its contents are not modelled.
- Which exceptions reach the catch-all handler (for example, a missing request body). `err.message` is taken to be a string.
- Upstream statuses that Node itself refuses to send (below 100 or above 999) are passed through like any other status.
- DOM script injection, `document.getElementById`, `google.maps.Map` and the body of `addMarker`. These are browser and library calls. A throwing map constructor is an input of `MapsCallback`. `addMarker` appears only as the list of records it was called with. Whether it throws when a city is added is an input of `CityAdded`. An `addMarker` that throws part way through the cities in `MapsCallback` is not modelled.
- In `initMap`, the `.catch` also catches an exception thrown inside the `.then` handler. Only a failed configuration request is modelled.
- `App.MainController.InitMap`: requires that no configuration request is pending and no script has been injected. The model covers one load sequence per page, while the code would set a second timer if called again.
- Wall-clock time of the 10 s and 3 s `$timeout`s. Timers firing are events, with no timing between them.
- `console.error` logging.
- Floating point: coordinates are exact reals. The string-to-number conversion does not round to double precision and never overflows to Infinity.
- `JsValues.StringToNumber`: hexadecimal, octal and binary literals ("0x1A") are read as NaN rather than their value.
- `JsValues.ToNumber`: every object or array converts to NaN, whereas JavaScript converts `[]` to 0 and `[5]` to 5 through their text. Its properties are stated by the lemmas beside it (`ToNumberOfFalsy` and the `StringToNumberOf…` lemmas), not by its own contract.
- `App.FailureMessage`: only a string `message` in the reply body is read. A truthy non-string message is treated as absent.
