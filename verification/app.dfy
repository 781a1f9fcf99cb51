/**
 The browser side: the AngularJS `MainController` scope, reduced to the flags
 and lists its functions assign. The asynchronous events (an HTTP reply, the
 script's error event, the maps callback, a `$timeout` firing) are methods of
 their own; an event that nothing is waiting for changes nothing.
 */
module App {
  import opened Wrappers
  import opened JsValues
  import opened Http

  // ---------------------------------------------------------------------
  // Form validation
  // ---------------------------------------------------------------------

  const NameRequired := "City name is required"
  const CountryRequired := "Country is required"
  const LatitudeRequired := "Latitude is required"
  const LatitudeRange := "Latitude must be between -90 and 90"
  const LongitudeRequired := "Longitude is required"
  const LongitudeRange := "Longitude must be between -180 and 180"

  /** `$scope.newCity`: the form's bound inputs, each whatever value the input holds. */
  datatype CityForm = CityForm(name: JsValue, country: JsValue, latitude: JsValue, longitude: JsValue)

  /** `$scope.newCity = {}`. */
  const EmptyForm := CityForm(Undefined, Undefined, Undefined, Undefined)

  /** The keys `formErrors` can have. */
  datatype Field = Name | Country | Latitude | Longitude

  const AllFields: set<Field> := {Name, Country, Latitude, Longitude}

  /**
   The one message a coordinate gets, if any: "required" when it is falsy,
   the range message when it converts to NaN or lies outside [-bound, bound].
   */
  function CoordinateError(v: JsValue, bound: real, required: string, outOfRange: string): Option<string> {
    if !Truthy(v) then Some(required)
    else if OutOfRange(v, bound) then Some(outOfRange)
    else None
  }

  /** `isNaN(v) || v < -bound || v > bound`. */
  predicate OutOfRange(v: JsValue, bound: real) {
    IsNaN(v) || LessThan(ToNumber(v), -bound) || GreaterThan(ToNumber(v), bound)
  }

  /** The message `addCity` records for one field, each field on its own. */
  function FieldError(c: CityForm, f: Field): Option<string> {
    match f
    case Name => if !Truthy(c.name) then Some(NameRequired) else None
    case Country => if !Truthy(c.country) then Some(CountryRequired) else None
    case Latitude => CoordinateError(c.latitude, 90.0, LatitudeRequired, LatitudeRange)
    case Longitude => CoordinateError(c.longitude, 180.0, LongitudeRequired, LongitudeRange)
  }

  /** The entries the fields in `fs` contribute to `formErrors`. */
  function ErrorsFor(c: CityForm, fs: set<Field>): map<Field, string> {
    map f | f in fs && FieldError(c, f).Some? :: FieldError(c, f).value
  }

  /** `formErrors` after validation: one entry per failing field. */
  function FormErrors(c: CityForm): map<Field, string> {
    ErrorsFor(c, AllFields)
  }

  /** Checking one more field adds its entry, if it has one, and leaves the others alone. */
  lemma ErrorsForStep(c: CityForm, fs: set<Field>, f: Field)
    ensures ErrorsFor(c, fs + {f}) ==
            if FieldError(c, f).Some? then ErrorsFor(c, fs)[f := FieldError(c, f).value] else ErrorsFor(c, fs)
  {
  }

  /** A coordinate the form accepts: truthy, and a finite number in [-bound, bound] once converted. */
  predicate CoordinateAccepted(v: JsValue, bound: real) {
    v !in FalsyValues && ToNumber(v).Finite? && -bound <= ToNumber(v).r <= bound
  }

  /** A form `addCity` would send. */
  predicate FormAccepted(c: CityForm) {
    c.name !in FalsyValues && c.country !in FalsyValues
    && CoordinateAccepted(c.latitude, 90.0) && CoordinateAccepted(c.longitude, 180.0)
  }

  /** The form has no errors exactly when every field is acceptable. */
  lemma FormErrorsEmptyIff(c: CityForm)
    ensures FormErrors(c) == map[] <==> FormAccepted(c)
  {
    if FormAccepted(c) {
      forall f | f in AllFields ensures FieldError(c, f).None? {
      }
    } else {
      var f :| f in AllFields && FieldError(c, f).Some?;
      assert f in FormErrors(c);
    }
  }

  /** A coordinate gets at most one message: "required" exactly when it is falsy. */
  lemma CoordinateMessage(c: CityForm, f: Field)
    requires f == Latitude || f == Longitude
    ensures var v := if f == Latitude then c.latitude else c.longitude;
            var bound := if f == Latitude then 90.0 else 180.0;
            (f in FormErrors(c) <==> !CoordinateAccepted(v, bound))
            && (f in FormErrors(c) && v in FalsyValues ==>
                  FormErrors(c)[f] == (if f == Latitude then LatitudeRequired else LongitudeRequired))
            && (f in FormErrors(c) && v !in FalsyValues ==>
                  FormErrors(c)[f] == (if f == Latitude then LatitudeRange else LongitudeRange))
  {
  }

  /** Zero is falsy: a latitude of 0 is "required", not accepted. */
  lemma ZeroLatitudeIsRequired(c: CityForm)
    requires c.latitude == Num(Finite(0.0))
    ensures FormErrors(c)[Latitude] == LatitudeRequired
  {
    assert Latitude in FormErrors(c);
  }

  /** Every field is checked: the empty form gets all four "required" messages. */
  lemma EmptyFormErrors()
    ensures FormErrors(EmptyForm) == map[Name := NameRequired, Country := CountryRequired,
                                         Latitude := LatitudeRequired, Longitude := LongitudeRequired]
  {
  }

  /**
   The checks of `addCity`, field by field in source order, each adding its
   entry to the error map it builds.
   */
  method CollectFormErrors(c: CityForm) returns (errors: map<Field, string>)
    ensures errors == FormErrors(c)
  {
    errors := map[];
    assert errors == ErrorsFor(c, {});
    if !Truthy(c.name) {
      errors := errors[Name := NameRequired];
    }
    ErrorsForStep(c, {}, Name);
    if !Truthy(c.country) {
      errors := errors[Country := CountryRequired];
    }
    ErrorsForStep(c, {} + {Name}, Country);
    if !Truthy(c.latitude) {
      errors := errors[Latitude := LatitudeRequired];
    } else if OutOfRange(c.latitude, 90.0) {
      errors := errors[Latitude := LatitudeRange];
    }
    ErrorsForStep(c, {} + {Name} + {Country}, Latitude);
    if !Truthy(c.longitude) {
      errors := errors[Longitude := LongitudeRequired];
    } else if OutOfRange(c.longitude, 180.0) {
      errors := errors[Longitude := LongitudeRange];
    }
    ErrorsForStep(c, {} + {Name} + {Country} + {Latitude}, Longitude);
    assert AllFields == {} + {Name} + {Country} + {Latitude} + {Longitude};
  }

  // ---------------------------------------------------------------------
  // Failure messages and the map script
  // ---------------------------------------------------------------------

  const AddFallback := "Error adding city"
  const WeatherFallback := "Failed to load weather data"
  const AddedMessage := "City added successfully!"

  /**
   `error.data?.message || fallback` for a rejected `$http` call: the server's
   message when the reply carries a non-empty one, the fallback otherwise
   (no reply at all included).
   */
  function FailureMessage(reply: Option<Reply>, fallback: string): (m: string)
    ensures m == fallback || (reply.Some? && MessageOf(reply.value.body) == Some(m) && m != "")
    ensures reply.Some? && MessageOf(reply.value.body).Some? && MessageOf(reply.value.body).value != ""
            ==> Some(m) == MessageOf(reply.value.body)
  {
    match reply
    case Some(r) =>
      (match MessageOf(r.body)
       case Some(s) => if s != "" then s else fallback
       case None => fallback)
    case None => fallback
  }

  const ConfigError := "Error loading map configuration"
  const ScriptError := "Failed to load Google Maps"
  const TimeoutError := "Map failed to load - timeout"
  const InitErrorPrefix := "Error initializing map: "

  /** The script URL built from `response.data.mapApiKey`; a missing key is spelled "undefined". */
  function ScriptUrl(mapApiKey: Option<string>): string {
    ScriptUrlHead + TemplateText(mapApiKey) + ScriptUrlTail
  }

  const ScriptUrlHead := "https://maps.googleapis.com/maps/api/js?key="
  const ScriptUrlTail := "&callback=initializeMap"

  /**
   The URL carries the key exactly: two keys give the same URL only when they
   are the same text, and a missing key is indistinguishable from the text
   "undefined".
   */
  lemma ScriptUrlInjective(k1: Option<string>, k2: Option<string>)
    ensures ScriptUrl(k1) == ScriptUrl(k2) <==> TemplateText(k1) == TemplateText(k2)
    ensures k1.Some? && k2.Some? ==> (ScriptUrl(k1) == ScriptUrl(k2) <==> k1 == k2)
    ensures ScriptUrl(None) == ScriptUrl(Some("undefined"))
  {
    var t1, t2 := TemplateText(k1), TemplateText(k2);
    if ScriptUrl(k1) == ScriptUrl(k2) {
      var u := ScriptUrl(k1);
      assert |t1| == |t2|;
      assert t1 == u[|ScriptUrlHead|..|ScriptUrlHead| + |t1|];
      assert t2 == ScriptUrl(k2)[|ScriptUrlHead|..|ScriptUrlHead| + |t2|];
    }
  }

  // ---------------------------------------------------------------------
  // The controller
  // ---------------------------------------------------------------------

  /** The map loader's part of the scope, plus the markers `addMarker` was called with. */
  datatype MapState = MapState(
    loading: bool,            // $scope.mapLoading
    error: Option<string>,    // $scope.mapError
    configPending: bool,      // GET /api/config in flight
    scriptSrc: Option<string>,// the injected script, once injected
    timerPending: bool,       // the 10 s $timeout is set and not cancelled
    ready: bool,              // $scope.map was constructed
    markers: seq<CityRecord>) // addMarker calls, in order

  /** The city list and the form. */
  datatype FormState = FormState(
    cities: seq<CityRecord>,
    newCity: CityForm,
    formErrors: map<Field, string>,
    addSuccess: Option<string>,
    addError: Option<string>,
    posted: seq<CityForm>,       // POST /api/cities bodies, in order
    postsInFlight: nat,
    successClearsPending: nat)   // 3 s $timeouts not yet fired

  /** The weather panel. */
  datatype WeatherState = WeatherState(
    selected: Option<CityRecord>,
    loading: bool,
    error: Option<string>,
    data: Option<Json>,
    requests: seq<string>,       // GET /api/weather/:city names, in order
    inFlight: nat)

  /**
   The controller's `$scope`, its flags grouped by the panel they belong to.
   Every event assigns the panel records it changes and leaves the others as
   they were.
   */
  class MainController {
    var mapState: MapState
    var form: FormState
    var weather: WeatherState

    /**
     While the config request or the timeout is pending the map is loading
     with no error; a success message always has a timer that will clear it;
     while the weather panel is loading it shows neither data nor an error.
     */
    ghost predicate Valid()
      reads this
    {
      (mapState.configPending ==> mapState.loading && mapState.error.None? && mapState.scriptSrc.None?
                                  && !mapState.timerPending)
      && (mapState.timerPending ==> mapState.loading && mapState.error.None? && mapState.scriptSrc.Some?)
      && (form.addSuccess.Some? ==> form.successClearsPending > 0)
      && (weather.loading ==> weather.inFlight > 0 && weather.data.None? && weather.error.None?)
    }

    /** The scope as the controller starts, with the cities already loaded. */
    constructor (initialCities: seq<CityRecord>)
      ensures Valid()
      ensures mapState == MapState(false, None, false, None, false, false, [])
      ensures form == FormState(initialCities, EmptyForm, map[], None, None, [], 0, 0)
      ensures weather == WeatherState(None, false, None, None, [], 0)
    {
      mapState := MapState(false, None, false, None, false, false, []);
      form := FormState(initialCities, EmptyForm, map[], None, None, [], 0, 0);
      weather := WeatherState(None, false, None, None, [], 0);
    }

    // ----- initMap and its events -----

    /** `initMap`: loading, no error, config requested. One load sequence at a time. */
    method InitMap()
      requires Valid() && !mapState.configPending && mapState.scriptSrc.None?
      modifies this
      ensures Valid()
      ensures mapState == old(mapState).(loading := true, error := None, configPending := true)
      ensures form == old(form) && weather == old(weather)
    {
      mapState := mapState.(loading := true, error := None, configPending := true);
    }

    /** The config reply: the script is injected and the 10 s timeout started. */
    method ConfigLoaded(mapApiKey: Option<string>)
      requires Valid()
      modifies this
      ensures Valid()
      ensures old(mapState.configPending) ==>
                mapState == old(mapState).(configPending := false, scriptSrc := Some(ScriptUrl(mapApiKey)),
                                           timerPending := true)
      ensures !old(mapState.configPending) ==> mapState == old(mapState)
      ensures form == old(form) && weather == old(weather)
    {
      if mapState.configPending {
        mapState := mapState.(configPending := false, scriptSrc := Some(ScriptUrl(mapApiKey)), timerPending := true);
      }
    }

    /** The config request failed: loading stops with the configuration message. */
    method ConfigFailed()
      requires Valid()
      modifies this
      ensures Valid()
      ensures old(mapState.configPending) ==>
                mapState == old(mapState).(configPending := false, loading := false, error := Some(ConfigError))
      ensures !old(mapState.configPending) ==> mapState == old(mapState)
      ensures form == old(form) && weather == old(weather)
    {
      if mapState.configPending {
        mapState := mapState.(configPending := false, loading := false, error := Some(ConfigError));
      }
    }

    /** `script.onerror`: cancels the timeout and reports the load failure. */
    method ScriptFailed()
      requires Valid()
      modifies this
      ensures Valid()
      ensures old(mapState.scriptSrc).Some? ==>
                mapState == old(mapState).(timerPending := false, loading := false, error := Some(ScriptError))
      ensures old(mapState.scriptSrc).None? ==> mapState == old(mapState)
      ensures form == old(form) && weather == old(weather)
    {
      if mapState.scriptSrc.Some? {
        mapState := mapState.(timerPending := false, loading := false, error := Some(ScriptError));
      }
    }

    /**
     `window.initializeMap`: cancels the timeout and stops loading; then either
     the map is built and one marker is added per known city, in list order,
     or the map constructor threw and its message is reported. An error
     already reported (a timeout that fired first) is left in place.
     */
    method MapsCallback(constructorError: Option<string>)
      requires Valid()
      modifies this
      ensures Valid()
      ensures old(mapState.scriptSrc).Some? && constructorError.None? ==>
                mapState == old(mapState).(timerPending := false, loading := false, ready := true,
                                           markers := old(mapState.markers) + old(form.cities))
      ensures old(mapState.scriptSrc).Some? && constructorError.Some? ==>
                mapState == old(mapState).(timerPending := false, loading := false,
                                           error := Some(InitErrorPrefix + constructorError.value))
      ensures old(mapState.scriptSrc).None? ==> mapState == old(mapState)
      ensures form == old(form) && weather == old(weather)
    {
      if mapState.scriptSrc.Some? {
        if constructorError.None? {
          var cities := form.cities;
          var placed := mapState.markers;
          var i := 0;
          while i < |cities|
            invariant 0 <= i <= |cities|
            invariant placed == old(mapState.markers) + cities[..i]
          {
            placed := placed + [cities[i]];
            i := i + 1;
          }
          mapState := mapState.(timerPending := false, loading := false, ready := true, markers := placed);
        } else {
          mapState := mapState.(timerPending := false, loading := false,
                                error := Some(InitErrorPrefix + constructorError.value));
        }
      }
    }

    /**
     The 10 s timeout, unless cancelled: reports a timeout only when
     `google.maps` is still absent; otherwise nothing changes.
     */
    method MapTimeout(mapsPresent: bool)
      requires Valid()
      modifies this
      ensures Valid()
      ensures old(mapState.timerPending) && !mapsPresent ==>
                mapState == old(mapState).(timerPending := false, loading := false, error := Some(TimeoutError))
      ensures old(mapState.timerPending) && mapsPresent ==> mapState == old(mapState).(timerPending := false)
      ensures !old(mapState.timerPending) ==> mapState == old(mapState)
      ensures form == old(form) && weather == old(weather)
    {
      if mapState.timerPending {
        if mapsPresent {
          mapState := mapState.(timerPending := false);
        } else {
          mapState := mapState.(timerPending := false, loading := false, error := Some(TimeoutError));
        }
      }
    }

    // ----- addCity and its events -----

    /** The user edits the form: `ng-model` binds the inputs to `newCity`. */
    method EditForm(c: CityForm)
      requires Valid()
      modifies this
      ensures Valid()
      ensures form == old(form).(newCity := c)
      ensures mapState == old(mapState) && weather == old(weather)
    {
      form := form.(newCity := c);
    }

    /**
     `addCity`: `formErrors` is rebuilt from nothing, one entry per failing
     field; only a form without errors is POSTed, and a form with errors
     leaves the list and the form as they were.
     */
    method AddCity()
      requires Valid()
      modifies this
      ensures Valid()
      ensures form.formErrors == FormErrors(old(form.newCity))
      ensures |form.formErrors| > 0 ==> form == old(form).(formErrors := form.formErrors)
      ensures |form.formErrors| == 0 ==>
                form == old(form).(formErrors := map[], posted := old(form.posted) + [old(form.newCity)],
                                   postsInFlight := old(form.postsInFlight) + 1)
      ensures mapState == old(mapState) && weather == old(weather)
    {
      form := form.(formErrors := map[]);
      var errors := CollectFormErrors(form.newCity);
      form := form.(formErrors := errors);
      if |errors| > 0 {
        return;
      }
      form := form.(posted := form.posted + [form.newCity], postsInFlight := form.postsInFlight + 1);
    }

    /**
     The POST succeeded: the returned record is appended to the list and the
     form is emptied; then `addMarker` is called with the record. When it
     returns, the success message is shown, with a 3 s timer to clear it. The
     body of `addMarker` is not part of this model, so whether it throws is an
     input (it would if it used `google.maps` before the library loaded). If
     it throws, the promise chain falls through to the failure handler: the
     record stays in the list, no marker exists, and the error carries no
     server reply, so the fallback message is shown.
     */
    method CityAdded(record: CityRecord, markerThrew: bool)
      requires Valid()
      modifies this
      ensures Valid()
      ensures old(form.postsInFlight) > 0 && !markerThrew ==>
                form == old(form).(cities := old(form.cities) + [record], newCity := EmptyForm,
                                   addSuccess := Some(AddedMessage), postsInFlight := old(form.postsInFlight) - 1,
                                   successClearsPending := old(form.successClearsPending) + 1)
                && mapState == old(mapState).(markers := old(mapState.markers) + [record])
      ensures old(form.postsInFlight) > 0 && markerThrew ==>
                form == old(form).(cities := old(form.cities) + [record], newCity := EmptyForm,
                                   addError := Some(FailureMessage(None, AddFallback)),
                                   postsInFlight := old(form.postsInFlight) - 1)
                && mapState == old(mapState)
      ensures old(form.postsInFlight) == 0 ==> form == old(form) && mapState == old(mapState)
      ensures weather == old(weather)
    {
      if form.postsInFlight > 0 {
        form := form.(postsInFlight := form.postsInFlight - 1, cities := form.cities + [record], newCity := EmptyForm);
        if markerThrew {
          form := form.(addError := Some(FailureMessage(None, AddFallback)));
        } else {
          mapState := mapState.(markers := mapState.markers + [record]);
          form := form.(addSuccess := Some(AddedMessage), successClearsPending := form.successClearsPending + 1);
        }
      }
    }

    /** The POST failed: the server's message, or the fallback, is shown; the list is unchanged. */
    method AddFailed(reply: Option<Reply>)
      requires Valid()
      modifies this
      ensures Valid()
      ensures old(form.postsInFlight) > 0 ==>
                form == old(form).(addError := Some(FailureMessage(reply, AddFallback)),
                                   postsInFlight := old(form.postsInFlight) - 1)
      ensures old(form.postsInFlight) == 0 ==> form == old(form)
      ensures mapState == old(mapState) && weather == old(weather)
    {
      if form.postsInFlight > 0 {
        form := form.(addError := Some(FailureMessage(reply, AddFallback)), postsInFlight := form.postsInFlight - 1);
      }
    }

    /** One of the 3 s timers fires and clears the success message, whichever success set it. */
    method SuccessTimeout()
      requires Valid()
      modifies this
      ensures Valid()
      ensures old(form.successClearsPending) > 0 ==>
                form == old(form).(addSuccess := None, successClearsPending := old(form.successClearsPending) - 1)
      ensures old(form.successClearsPending) == 0 ==> form == old(form)
      ensures mapState == old(mapState) && weather == old(weather)
    {
      if form.successClearsPending > 0 {
        form := form.(addSuccess := None, successClearsPending := form.successClearsPending - 1);
      }
    }

    // ----- showWeather and its events -----

    /** `showWeather`: select the city, start loading, clear the old data and error, request the weather. */
    method ShowWeather(city: CityRecord)
      requires Valid()
      modifies this
      ensures Valid()
      ensures weather == WeatherState(Some(city), true, None, None, old(weather.requests) + [city.name],
                                      old(weather.inFlight) + 1)
      ensures mapState == old(mapState) && form == old(form)
    {
      weather := WeatherState(Some(city), true, None, None, weather.requests + [city.name], weather.inFlight + 1);
    }

    /** A weather request succeeded: its data is stored and loading stops. */
    method WeatherLoaded(data: Json)
      requires Valid()
      modifies this
      ensures Valid()
      ensures old(weather.inFlight) > 0 ==>
                weather == old(weather).(data := Some(data), loading := false, inFlight := old(weather.inFlight) - 1)
      ensures old(weather.inFlight) == 0 ==> weather == old(weather)
      ensures mapState == old(mapState) && form == old(form)
    {
      if weather.inFlight > 0 {
        weather := weather.(data := Some(data), loading := false, inFlight := weather.inFlight - 1);
      }
    }

    /** A weather request failed: loading stops and the server's message, or the fallback, is shown. */
    method WeatherFailed(reply: Option<Reply>)
      requires Valid()
      modifies this
      ensures Valid()
      ensures old(weather.inFlight) > 0 ==>
                weather == old(weather).(loading := false, error := Some(FailureMessage(reply, WeatherFallback)),
                                         inFlight := old(weather.inFlight) - 1)
      ensures old(weather.inFlight) == 0 ==> weather == old(weather)
      ensures mapState == old(mapState) && form == old(form)
    {
      if weather.inFlight > 0 {
        weather := weather.(loading := false, error := Some(FailureMessage(reply, WeatherFallback)),
                            inFlight := weather.inFlight - 1);
      }
    }
  }

  // ---------------------------------------------------------------------
  // Event orders the controller allows
  // ---------------------------------------------------------------------

  /**
   The callback cancels the timeout: once the map is built, the timeout never
   reports anything.
   */
  method CallbackBeatsTimeout(cities: seq<CityRecord>, mapApiKey: Option<string>, mapsPresent: bool)
    returns (map': MapState)
    ensures !map'.loading && map'.error.None? && map'.ready && !map'.timerPending
    ensures map'.markers == cities && map'.scriptSrc == Some(ScriptUrl(mapApiKey))
  {
    var ctrl := new MainController(cities);
    ctrl.InitMap();
    ctrl.ConfigLoaded(mapApiKey);
    ctrl.MapsCallback(None);
    ctrl.MapTimeout(mapsPresent);
    map' := ctrl.mapState;
  }

  /**
   A callback that arrives after the timeout fired still builds the map and
   adds the markers, but nothing clears the timeout message.
   */
  method CallbackAfterTimeout(cities: seq<CityRecord>, mapApiKey: Option<string>)
    returns (map': MapState)
    ensures !map'.loading && map'.error == Some(TimeoutError) && map'.ready && map'.markers == cities
  {
    var ctrl := new MainController(cities);
    ctrl.InitMap();
    ctrl.ConfigLoaded(mapApiKey);
    ctrl.MapTimeout(false);
    ctrl.MapsCallback(None);
    map' := ctrl.mapState;
  }

  /**
   Two cities selected in a row; the first request fails after the second
   was made, then the second succeeds: the first city's failure and the
   second city's data are shown together.
   */
  method StaleWeatherFailure(first: CityRecord, second: CityRecord, data: Json)
    returns (weather: WeatherState)
    ensures weather.selected == Some(second) && !weather.loading
    ensures weather.data == Some(data) && weather.error == Some(WeatherFallback)
    ensures weather.requests == [first.name, second.name]
  {
    var ctrl := new MainController([]);
    ctrl.ShowWeather(first);
    ctrl.ShowWeather(second);
    ctrl.WeatherFailed(None);
    ctrl.WeatherLoaded(data);
    weather := ctrl.weather;
  }

  /**
   The 3 s timers are never cancelled: after two quick additions, the first
   timer clears the second success message early.
   */
  method EarlySuccessClear(form: CityForm, first: CityRecord, second: CityRecord)
    returns (state: FormState)
    requires FormErrors(form) == map[]
    ensures state.cities == [first, second] && state.addSuccess.None? && state.successClearsPending == 1
  {
    var ctrl := new MainController([]);
    ctrl.EditForm(form);
    ctrl.AddCity();
    ctrl.CityAdded(first, false);
    ctrl.EditForm(form);
    ctrl.AddCity();
    ctrl.CityAdded(second, false);
    ctrl.SuccessTimeout();
    state := ctrl.form;
  }

  /**
   A city added while the map is not ready, on the condition that `addMarker`
   throws then (its body is not part of this model): the store has the city
   and the list shows it, but no marker is placed and the fallback error is
   shown instead of the success message.
   */
  method AddWhenMarkerThrows(form: CityForm, record: CityRecord)
    returns (state: FormState, map': MapState)
    requires FormErrors(form) == map[]
    ensures state.cities == [record] && state.newCity == EmptyForm
    ensures state.addError == Some(AddFallback) && state.addSuccess.None? && state.successClearsPending == 0
    ensures map'.markers == [] && !map'.ready
  {
    var ctrl := new MainController([]);
    ctrl.EditForm(form);
    ctrl.AddCity();
    ctrl.CityAdded(record, true);
    state, map' := ctrl.form, ctrl.mapState;
  }
}
