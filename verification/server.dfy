/**
 The decision logic of the Express server: the `validateCity` middleware in
 front of `POST /api/cities`, the create route behind it, the weather proxy
 `GET /api/weather/:city` and the catch-all error handler. Each is a function
 from its inputs, the outcome of the outbound call included, to the reply.
 */
module Server {
  import opened Wrappers
  import opened JsValues
  import opened Http
  import Decimal

  // ---------------------------------------------------------------------
  // validateCity
  // ---------------------------------------------------------------------

  const CityRequired := "City name and country are required"
  const MustBeNumbers := "Latitude and longitude must be numbers"
  const LatitudeRange := "Latitude must be between -90 and 90"
  const LongitudeRange := "Longitude must be between -180 and 180"

  /** The four fields `validateCity` destructures from the parsed request body. */
  datatype CityBody = CityBody(name: JsValue, country: JsValue, latitude: JsValue, longitude: JsValue)

  /** `next()` hands the request on; otherwise the middleware has replied. */
  datatype Verdict = Next | Respond(reply: Reply)

  /** A number on the far side of [-bound, bound]. NaN is on neither side. */
  predicate OutsideBound(x: JsNumber, bound: real) {
    x.PosInfinity? || x.NegInfinity? || (x.Finite? && (x.r < -bound || x.r > bound))
  }

  // The four categories of violation, in the order the middleware tests them.
  predicate MissingNameOrCountry(b: CityBody) {
    b.name in FalsyValues || b.country in FalsyValues
  }

  predicate CoordinatesNotNumbers(b: CityBody) {
    !b.latitude.Num? || !b.longitude.Num?
  }

  predicate LatitudeOutside(b: CityBody) {
    b.latitude.Num? && OutsideBound(b.latitude.n, 90.0)
  }

  predicate LongitudeOutside(b: CityBody) {
    b.longitude.Num? && OutsideBound(b.longitude.n, 180.0)
  }

  /**
   The middleware: one 400 reply naming the first category violated, in the
   order name/country, type, latitude range, longitude range; `next()` when
   none is.
   */
  function ValidateCity(b: CityBody): (v: Verdict)
    ensures v.Respond? ==> v.reply.status == 400
    ensures v == Respond(MessageReply(400, CityRequired)) <==> MissingNameOrCountry(b)
    ensures v == Respond(MessageReply(400, MustBeNumbers))
            <==> !MissingNameOrCountry(b) && CoordinatesNotNumbers(b)
    ensures v == Respond(MessageReply(400, LatitudeRange))
            <==> !MissingNameOrCountry(b) && !CoordinatesNotNumbers(b) && LatitudeOutside(b)
    ensures v == Respond(MessageReply(400, LongitudeRange))
            <==> !MissingNameOrCountry(b) && !CoordinatesNotNumbers(b) && !LatitudeOutside(b)
                 && LongitudeOutside(b)
    ensures v.Next? <==> !MissingNameOrCountry(b) && !CoordinatesNotNumbers(b)
                         && !LatitudeOutside(b) && !LongitudeOutside(b)
  {
    if !Truthy(b.name) || !Truthy(b.country) then
      Respond(MessageReply(400, CityRequired))
    else if TypeOf(b.latitude) != "number" || TypeOf(b.longitude) != "number" then
      Respond(MessageReply(400, MustBeNumbers))
    else if LessThan(b.latitude.n, -90.0) || GreaterThan(b.latitude.n, 90.0) then
      Respond(MessageReply(400, LatitudeRange))
    else if LessThan(b.longitude.n, -180.0) || GreaterThan(b.longitude.n, 180.0) then
      Respond(MessageReply(400, LongitudeRange))
    else
      Next
  }

  /** A missing name or country decides the reply whatever the coordinates are. */
  lemma RequiredCheckWins(b: CityBody, latitude: JsValue, longitude: JsValue)
    requires !Truthy(b.name) || !Truthy(b.country)
    ensures ValidateCity(b) == ValidateCity(b.(latitude := latitude, longitude := longitude))
    ensures ValidateCity(b) == Respond(MessageReply(400, CityRequired))
  {
  }

  /** A numeric string is not a number: "45" is refused by the type check. */
  lemma NumericStringRefused(b: CityBody, n: nat)
    requires Truthy(b.name) && Truthy(b.country)
    requires b.latitude == Str(Decimal.NatToString(n))
    ensures ValidateCity(b) == Respond(MessageReply(400, MustBeNumbers))
  {
  }

  /** The range checks are inclusive: the poles and the antimeridian pass. */
  lemma BoundsInclusive(name: string, country: string, latitude: real, longitude: real)
    requires name != "" && country != ""
    requires latitude == -90.0 || latitude == 90.0
    requires longitude == -180.0 || longitude == 180.0
    ensures ValidateCity(CityBody(Str(name), Str(country), Num(Finite(latitude)), Num(Finite(longitude)))) == Next
  {
  }

  /** Once the latitude is out of range, the longitude no longer matters. */
  lemma LongitudeIgnoredAfterLatitude(b: CityBody, longitude: JsNumber)
    requires ValidateCity(b) == Respond(MessageReply(400, LatitudeRange))
    ensures ValidateCity(b.(longitude := Num(longitude))) == ValidateCity(b)
  {
  }

  /**
   NaN has type number and fails every comparison, so the middleware lets a
   NaN coordinate through (JSON cannot carry one, see Transmit).
   */
  lemma NaNCoordinatesPass(name: string, country: string)
    requires name != "" && country != ""
    ensures ValidateCity(CityBody(Str(name), Str(country), Num(NaN), Num(NaN))) == Next
  {
  }

  // ---------------------------------------------------------------------
  // POST /api/cities
  // ---------------------------------------------------------------------

  /** What the store's `save()` did: the identity it assigned, or the error it threw. */
  datatype SaveOutcome = Saved(id: string) | SaveFailed(message: string)

  /**
   A body field as `res.json` writes it. NaN and the infinities become null.
   An object's contents, and a field that is absent, are not modelled: the
   middleware lets neither reach the store as a name, country or coordinate
   that the model needs.
   */
  function FieldJson(v: JsValue): Json {
    match v
    case Str(s) => JStr(s)
    case Num(n) => if n.Finite? then JNum(n.r) else JNull
    case Bool(x) => JBool(x)
    case Obj => JObj([])
    case _ => JNull
  }

  /** `new City(req.body)` after `save()`: the identity the store assigned, then the four fields. */
  function DocumentJson(id: string, b: CityBody): Json {
    JObj([("_id", JStr(id)), ("name", FieldJson(b.name)), ("country", FieldJson(b.country)),
          ("latitude", FieldJson(b.latitude)), ("longitude", FieldJson(b.longitude))])
  }

  /** The reply, and whether the route got as far as calling `save()`. */
  datatype CreateHandled = CreateHandled(saveAttempted: bool, reply: Reply)

  /**
   `validateCity` then the create handler: a valid body is saved and answered
   with 201 and the document built from that body; a failed save is a 400
   with the store's message; an invalid body never reaches the store.
   */
  function CreateCity(b: CityBody, save: SaveOutcome): (h: CreateHandled)
    ensures h.saveAttempted <==> ValidateCity(b).Next?
    ensures !h.saveAttempted ==> h.reply == ValidateCity(b).reply
    ensures h.reply.status == 201 <==> h.saveAttempted && save.Saved?
    ensures h.reply.status == 201 ==> h.reply.body == DocumentJson(save.id, b)
    ensures h.reply.status != 201 ==> h.reply.status == 400
    ensures h.saveAttempted && save.SaveFailed? ==> h.reply == MessageReply(400, save.message)
  {
    match ValidateCity(b)
    case Respond(r) => CreateHandled(false, r)
    case Next =>
      match save
      case Saved(id) => CreateHandled(true, Reply(201, DocumentJson(id, b)))
      case SaveFailed(m) => CreateHandled(true, MessageReply(400, m))
  }

  /** A coordinate out of range is refused with 400 and nothing is stored. */
  lemma OutOfRangeNeverStored(b: CityBody, save: SaveOutcome)
    requires LatitudeOutside(b) || LongitudeOutside(b)
    ensures !CreateCity(b, save).saveAttempted
    ensures CreateCity(b, save).reply.status == 400
  {
  }

  /**
   A body of two texts and two finite numbers is created exactly when the
   texts are non-empty and the numbers in range, and the 201 reply is then
   the record holding what was posted under the identity the store assigned.
   */
  lemma CreatedEchoesBody(id: string, name: string, country: string, latitude: real, longitude: real)
    ensures CreateCity(CityBody(Str(name), Str(country), Num(Finite(latitude)), Num(Finite(longitude))), Saved(id)).reply.status == 201
            <==> name != "" && country != "" && -90.0 <= latitude <= 90.0 && -180.0 <= longitude <= 180.0
    ensures CreateCity(CityBody(Str(name), Str(country), Num(Finite(latitude)), Num(Finite(longitude))), Saved(id)).reply.status == 201
            ==> CreateCity(CityBody(Str(name), Str(country), Num(Finite(latitude)), Num(Finite(longitude))), Saved(id)).reply.body
                == RecordJson(CityRecord(id, name, country, latitude, longitude))
  {
  }

  /** Lyon, France at (45.75, 4.85) is stored and echoed back with its identity. */
  lemma LyonIsCreated(id: string)
    ensures CreateCity(CityBody(Str("Lyon"), Str("France"), Num(Finite(45.75)), Num(Finite(4.85))), Saved(id))
            == CreateHandled(true, Reply(201, RecordJson(CityRecord(id, "Lyon", "France", 45.75, 4.85))))
  {
  }

  // ---------------------------------------------------------------------
  // GET /api/weather/:city
  // ---------------------------------------------------------------------

  const CityNameRequired := "City name is required"
  const CityNotFound := "City not found in weather service"
  const WeatherErrorPrefix := "Weather service error: "
  const FetchFailed := "Failed to fetch weather data"

  /**
   The outcome of the outbound call: it threw (network failure), or the
   provider answered with a status and a body that is JSON or not.
   */
  datatype Upstream = Threw | Answered(status: nat, payload: Option<Json>)

  /** The query the route sends to the weather provider. */
  datatype WeatherRequest = WeatherRequest(city: string, appId: string, units: string)

  /** The reply, and the outbound request if one was made. */
  datatype WeatherHandled = WeatherHandled(request: Option<WeatherRequest>, reply: Reply)

  /** `response.ok`. */
  predicate IsOk(status: nat) {
    200 <= status <= 299
  }

  function WeatherErrorMessage(status: nat): string {
    WeatherErrorPrefix + Decimal.NatToString(status)
  }

  /**
   The weather route. An empty city name is refused before any request is
   made. Otherwise the provider's 404 becomes a 404 with a fixed message, any
   other non-OK status is passed through with that status in the message, an
   OK JSON payload is relayed as it is (status 200), and a call that threw or
   an OK body that is not JSON gives 500.
   */
  function WeatherRoute(cityName: string, apiKey: Option<string>, upstream: Upstream): (h: WeatherHandled)
    ensures h.request.None? <==> cityName == ""
    ensures cityName == "" ==> h.reply == MessageReply(400, CityNameRequired)
    ensures h.request.Some? ==> h.request.value == WeatherRequest(cityName, TemplateText(apiKey), "metric")
    ensures h.reply.status == 200 <==> cityName != "" && upstream.Answered? && IsOk(upstream.status) && upstream.payload.Some?
    ensures h.reply.status == 200 ==> h.reply.body == upstream.payload.value
    ensures cityName != "" && upstream.Answered? && !IsOk(upstream.status) ==>
              h.reply == MessageReply(upstream.status, if upstream.status == 404 then CityNotFound
                                                     else WeatherErrorMessage(upstream.status))
    ensures cityName != "" && (upstream.Threw? || upstream.payload.None?) && (upstream.Answered? ==> IsOk(upstream.status)) ==>
              h.reply == MessageReply(500, FetchFailed)
  {
    if cityName == "" then
      WeatherHandled(None, MessageReply(400, CityNameRequired))
    else
      var request := Some(WeatherRequest(cityName, TemplateText(apiKey), "metric"));
      match upstream
      case Threw => WeatherHandled(request, MessageReply(500, FetchFailed))
      case Answered(status, payload) =>
        if !IsOk(status) then
          if status == 404 then WeatherHandled(request, MessageReply(404, CityNotFound))
          else WeatherHandled(request, MessageReply(status, WeatherErrorMessage(status)))
        else
          match payload
          case Some(data) => WeatherHandled(request, Reply(200, data))
          case None => WeatherHandled(request, MessageReply(500, FetchFailed))
  }

  /** The passthrough message names the provider's status: the digits after the prefix read back as it. */
  lemma WeatherErrorMessageNamesStatus(status: nat)
    ensures var m := WeatherErrorMessage(status);
            |m| > |WeatherErrorPrefix| && m[..|WeatherErrorPrefix|] == WeatherErrorPrefix
            && Decimal.AllDigits(m[|WeatherErrorPrefix|..])
            && Decimal.DigitsValue(m[|WeatherErrorPrefix|..]) == status
  {
    var m := WeatherErrorMessage(status);
    assert m[|WeatherErrorPrefix|..] == Decimal.NatToString(status);
    Decimal.NatToStringValue(status);
  }

  /** Two different non-OK statuses give two different messages. */
  lemma WeatherErrorMessageInjective(s1: nat, s2: nat)
    ensures WeatherErrorMessage(s1) == WeatherErrorMessage(s2) <==> s1 == s2
  {
    if WeatherErrorMessage(s1) == WeatherErrorMessage(s2) {
      WeatherErrorMessageNamesStatus(s1);
      WeatherErrorMessageNamesStatus(s2);
    }
  }

  // ---------------------------------------------------------------------
  // The catch-all error handler
  // ---------------------------------------------------------------------

  const UnexpectedError := "An unexpected error occurred"

  /**
   Every uncaught error becomes a 500 with a fixed message; the `error` field
   carries `err.message` unless NODE_ENV is "production", where it is `{}`.
   */
  function ErrorHandler(errMessage: string, nodeEnv: Option<string>): (r: Reply)
    ensures r.status == 500
    ensures MessageOf(r.body) == Some(UnexpectedError)
    ensures r.body.JObj? && Lookup(r.body.members, "error")
            == Some(if nodeEnv == Some("production") then JObj([]) else JStr(errMessage))
  {
    var members := [("message", JStr(UnexpectedError)),
                    ("error", if nodeEnv == Some("production") then JObj([]) else JStr(errMessage))];
    assert members[..1] == [("message", JStr(UnexpectedError))];
    assert members[1].0 != "message";
    assert Lookup(members, "message") == Lookup(members[..1], "message") == Some(JStr(UnexpectedError));
    Reply(500, JObj(members))
  }

  /** In production the reply does not depend on the error at all. */
  lemma ProductionHidesDetail(m1: string, m2: string)
    ensures ErrorHandler(m1, Some("production")) == ErrorHandler(m2, Some("production"))
  {
  }

  /** Outside production the error's message can be read back from the reply. */
  lemma DevelopmentShowsDetail(m1: string, m2: string, nodeEnv: Option<string>)
    requires nodeEnv != Some("production")
    ensures ErrorHandler(m1, nodeEnv) == ErrorHandler(m2, nodeEnv) <==> m1 == m2
  {
    if ErrorHandler(m1, nodeEnv) == ErrorHandler(m2, nodeEnv) {
      assert Lookup(ErrorHandler(m1, nodeEnv).body.members, "error") == Some(JStr(m1));
    }
  }
}
