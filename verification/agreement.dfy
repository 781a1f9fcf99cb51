/**
 The browser's checks against the server's: what `addCity` sends is the form
 after a JSON round trip, and what the form shows after a rejected request is
 the message the server put in its reply.
 */
module Agreement {
  import opened Wrappers
  import opened JsValues
  import opened Http
  import Decimal
  import Server
  import App

  /** The body the server parses from `$http.post('/api/cities', $scope.newCity)`. */
  function Posted(c: App.CityForm): Server.CityBody {
    Server.CityBody(Transmit(c.name), Transmit(c.country), Transmit(c.latitude), Transmit(c.longitude))
  }

  /**
   With number inputs for the coordinates, and a name and country that JSON
   carries unchanged (anything but an infinite number), a form the browser
   accepts is accepted by the server.
   */
  lemma AcceptedFormPassesServer(c: App.CityForm)
    requires App.FormErrors(c) == map[]
    requires Transmit(c.name) == c.name && Transmit(c.country) == c.country
    requires c.latitude.Num? && c.longitude.Num?
    ensures Server.ValidateCity(Posted(c)) == Server.Next
  {
    App.FormErrorsEmptyIff(c);
  }

  /**
   An infinite number as the name is truthy for the browser, but JSON sends
   it as null, so the server reports the name as missing.
   */
  lemma InfiniteNameOnlyClientAccepts(c: App.CityForm)
    requires c.name == Num(PosInfinity) || c.name == Num(NegInfinity)
    ensures App.Name !in App.FormErrors(c)
    ensures Server.ValidateCity(Posted(c)) == Server.Respond(MessageReply(400, Server.CityRequired))
  {
    assert App.FieldError(c, App.Name).None?;
  }

  /** A latitude of 0 is refused as "required" by the browser but accepted by the server. */
  lemma ZeroLatitudeOnlyServerAccepts(c: App.CityForm)
    requires c.name.Str? && c.name.s != "" && c.country.Str? && c.country.s != ""
    requires c.latitude == Num(Finite(0.0))
    requires c.longitude.Num? && c.longitude.n.Finite? && -180.0 <= c.longitude.n.r <= 180.0
    ensures App.FormErrors(c)[App.Latitude] == App.LatitudeRequired
    ensures Server.ValidateCity(Posted(c)) == Server.Next
  {
    App.ZeroLatitudeIsRequired(c);
  }

  /**
   A form the browser accepts with its latitude still text (the browser
   converts it before comparing) is refused by the server's type check.
   */
  lemma TextLatitudeOnlyClientAccepts(c: App.CityForm)
    requires App.FormErrors(c) == map[] && c.latitude.Str?
    requires Transmit(c.name) == c.name && Transmit(c.country) == c.country
    ensures Server.ValidateCity(Posted(c)) == Server.Respond(MessageReply(400, Server.MustBeNumbers))
  {
    App.FormErrorsEmptyIff(c);
    assert Posted(c).latitude == c.latitude;
  }

  /** Such forms exist: the text of any whole number from 1 to 90 is a latitude the browser accepts. */
  lemma TextLatitudeAccepted(n: nat)
    requires 1 <= n <= 90
    ensures App.CoordinateAccepted(Str(Decimal.NatToString(n)), 90.0)
  {
    StringToNumberOfDigits(n);
    assert Str(Decimal.NatToString(n)) !in FalsyValues;
  }

  /** A rejection by the middleware reaches the form as the middleware's own message. */
  lemma ValidationMessageShown(b: Server.CityBody, save: Server.SaveOutcome)
    requires Server.ValidateCity(b).Respond?
    ensures Some(App.FailureMessage(Some(Server.CreateCity(b, save).reply), App.AddFallback))
            == MessageOf(Server.ValidateCity(b).reply.body)
  {
    var r := Server.ValidateCity(b).reply;
    var m :| m in {Server.CityRequired, Server.MustBeNumbers, Server.LatitudeRange, Server.LongitudeRange}
             && r == MessageReply(400, m);
    MessageOfMessageBody(m);
  }

  /** A store error with a message reaches the form as that message; an empty one as the fallback. */
  lemma SaveFailureShown(b: Server.CityBody, m: string)
    requires Server.ValidateCity(b).Next?
    ensures App.FailureMessage(Some(Server.CreateCity(b, Server.SaveFailed(m)).reply), App.AddFallback)
            == if m != "" then m else App.AddFallback
  {
    MessageOfMessageBody(m);
  }

  /** A city the provider does not know is reported in the panel with the server's 404 message. */
  lemma WeatherNotFoundShown(cityName: string, apiKey: Option<string>, payload: Option<Json>)
    requires cityName != ""
    ensures App.FailureMessage(Some(Server.WeatherRoute(cityName, apiKey, Server.Answered(404, payload)).reply),
                               App.WeatherFallback)
            == Server.CityNotFound
  {
    MessageOfMessageBody(Server.CityNotFound);
  }

  /**
   When the outbound call throws, the panel shows the server's "Failed to
   fetch weather data", not its own fallback.
   */
  lemma WeatherExceptionShown(cityName: string, apiKey: Option<string>)
    requires cityName != ""
    ensures App.FailureMessage(Some(Server.WeatherRoute(cityName, apiKey, Server.Threw).reply), App.WeatherFallback)
            == Server.FetchFailed
  {
    MessageOfMessageBody(Server.FetchFailed);
  }
}
