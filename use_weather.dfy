/**
  The `useWeather` hook: the five state slots the weather page reads, and the
  search that moves them. The environment's API key, the replies of the two
  requests and the clock's date-key function are inputs; each search is one
  transition from the state before the call to the state after it settles.
 */
module UseWeather {
  import opened Wrappers
  import opened Text
  import opened WeatherModel
  import opened Seqs
  import opened Forecast

  /** One entry of a reply's `weather` array. */
  datatype Condition = Condition(description: string, icon: string)

  /** The fields of the current-weather reply the hook reads. */
  datatype CurrentReply = CurrentReply(
    name: string,
    country: string,
    temp: int,
    feelsLike: int,
    humidity: int,
    weather: seq<Condition>,
    windSpeed: int)

  /** One entry of the forecast reply's `list`. */
  datatype ForecastItem = ForecastItem(dt: int, temp: int, weather: seq<Condition>)

  /**
    How a request ends: `fetch` or `response.json()` rejects with an error
    carrying `message`, or a response arrives with a status and a parsed body.
   */
  datatype Fetched<T> = Thrown(message: string) | Reply(status: nat, body: T)

  /** `response.ok`. */
  predicate Ok(status: nat) {
    200 <= status <= 299
  }

  /** The value the `.env` template ships with. */
  const Placeholder: string := "your_api_key_here"

  /** The key is present, non-empty and not the template value. */
  predicate KeyConfigured(apiKey: Option<string>) {
    apiKey.Some? && apiKey.value != "" && apiKey.value != Placeholder
  }

  /*
    The messages below are written as the concatenation of their pieces,
    so that the words the error panel looks for stand apart.
   */
  const ConfigMessage: string :=
    "\U{26A0}\U{FE0F} " + "API key" + " not configured! " + "Please add your " + "OpenWeatherMap " + "API key"
    + " to the .env file."

  const InvalidKeyMessage: string := "Invalid " + "API key" + ". Please check " + "your .env file! \U{1F511}"

  function NotFoundMessage(city: string): string {
    "City \"" + city + "\" " + "not found" + ". Please check the spelling and try again! \U{1F5FA}\U{FE0F}"
  }

  function StatusMessage(status: nat): string {
    "Failed to fetch " + "weather data (" + DecimalString(status) + "). Please try " + "again! \U{1F310}"
  }

  /** The message of the `TypeError` raised by reading `weather[0].description` of an empty array. */
  const NoConditionMessage: string := "Cannot read " + "properties of " + "undefined " + "(reading 'description')"

  /** The message of the error thrown for a current-weather reply that is not ok. */
  function FailureMessage(city: string, status: nat): string {
    if status == 404 then NotFoundMessage(city)
    else if status == 401 then InvalidKeyMessage
    else StatusMessage(status)
  }

  /** The 404 message names the city. */
  lemma NotFoundNamesCity(city: string)
    ensures Contains(NotFoundMessage(city), city)
  {
    var tail := "\" " + "not found" + ". Please check the spelling and try again! \U{1F5FA}\U{FE0F}";
    assert NotFoundMessage(city) == "City \"" + city + tail;
    ContainsInMiddle("City \"", city, tail);
  }

  /** The generic message names the status code. */
  lemma StatusMessageContainsCode(status: nat)
    ensures Contains(StatusMessage(status), DecimalString(status))
  {
    var head, tail := "Failed to fetch " + "weather data (", "). Please try " + "again! \U{1F310}";
    assert StatusMessage(status) == head + DecimalString(status) + tail;
    ContainsInMiddle(head, DecimalString(status), tail);
  }

  /** The 404 message names the city, the 401 message is fixed, any other names the status code. */
  lemma FailureMessageFacts(city: string, status: nat)
    ensures status == 404 ==> Contains(FailureMessage(city, status), city)
    ensures status == 401 ==> FailureMessage(city, status) == InvalidKeyMessage
    ensures status != 404 && status != 401 ==> Contains(FailureMessage(city, status), DecimalString(status))
  {
    if status == 404 {
      NotFoundNamesCity(city);
    } else if status != 401 {
      StatusMessageContainsCode(status);
    }
  }

  /** The status code can be read back out of the generic failure message. */
  lemma StatusMessageNamesStatus(status: nat)
    ensures var m := StatusMessage(status);
      var prefix := "Failed to fetch " + "weather data (";
      var digits := DecimalString(status);
      && |prefix| + |digits| <= |m|
      && DecimalValue(m[|prefix|..|prefix| + |digits|]) == status
  {
    var prefix := "Failed to fetch " + "weather data (";
    var digits := DecimalString(status);
    var m := StatusMessage(status);
    assert m == prefix + digits + ("). Please try " + "again! \U{1F310}");
    assert m[|prefix|..|prefix| + |digits|] == digits;
    DecimalRoundTrip(status);
  }

  /** The card built from a current-weather reply with at least one condition. */
  function Snapshot(data: CurrentReply): (w: WeatherData)
    requires |data.weather| > 0
  {
    WeatherData(data.name, data.country, data.temp, data.feelsLike,
      data.weather[0].description, data.humidity, data.windSpeed, data.weather[0].icon)
  }

  /** Every entry of the list carries a condition, so `weather[0]` can be read. */
  predicate AllHaveCondition(items: seq<ForecastItem>) {
    forall i :: 0 <= i < |items| ==> |items[i].weather| > 0
  }

  /** The samples `processForecastData` pushes, with `dayOf` standing for `new Date(dt * 1000).toDateString()`. */
  function Samples(items: seq<ForecastItem>, dayOf: int -> string): (s: seq<Sample>)
    requires AllHaveCondition(items)
    ensures |s| == |items|
  {
    seq(|items|, i requires 0 <= i < |items| =>
      Sample(dayOf(items[i].dt), items[i].temp, items[i].weather[0].description, items[i].weather[0].icon))
  }

  /** What `fetchForecast` leaves in `forecast`: the summaries, or `[]` when any step throws. */
  function ForecastOutcome(reply: Fetched<seq<ForecastItem>>, dayOf: int -> string): seq<DayForecast> {
    match reply
    case Thrown(_) => []
    case Reply(status, items) =>
      if Ok(status) && AllHaveCondition(items) then Aggregate(Samples(items, dayOf)) else []
  }

  /** The five state slots of the hook. */
  datatype HookState = HookState(
    weatherData: Option<WeatherData>,
    forecast: seq<DayForecast>,
    loading: bool,
    error: string,
    currentCity: string)

  /** The state once `searchCity(city)` has settled, starting from `s`. */
  function AfterSearch(s: HookState, city: string, apiKey: Option<string>,
    current: Fetched<CurrentReply>, forecastReply: Fetched<seq<ForecastItem>>, dayOf: int -> string): HookState
  {
    if !KeyConfigured(apiKey) then
      s.(error := ConfigMessage, loading := false, weatherData := None)
    else
      match current
      case Thrown(message) => HookState(None, [], false, message, city)
      case Reply(status, data) =>
        if !Ok(status) then HookState(None, [], false, FailureMessage(city, status), city)
        else if |data.weather| == 0 then HookState(None, [], false, NoConditionMessage, city)
        else HookState(Some(Snapshot(data)), ForecastOutcome(forecastReply, dayOf), false, "", city)
  }

  /** The current-weather request succeeded and its reply carries a condition. */
  predicate CurrentSucceeds(current: Fetched<CurrentReply>) {
    current.Reply? && Ok(current.status) && |current.body.weather| > 0
  }

  /** Every search ends with `loading` false. */
  lemma SearchSettles(s: HookState, city: string, apiKey: Option<string>,
    current: Fetched<CurrentReply>, forecastReply: Fetched<seq<ForecastItem>>, dayOf: int -> string)
    ensures !AfterSearch(s, city, apiKey, current, forecastReply, dayOf).loading
  {
  }

  /**
    Without a usable key the configuration error is shown and the card cleared;
    neither reply is consulted, and the city and the forecast are left as they were.
   */
  lemma MissingKeyStopsSearch(s: HookState, city: string, apiKey: Option<string>,
    current: Fetched<CurrentReply>, forecastReply: Fetched<seq<ForecastItem>>, dayOf: int -> string,
    current': Fetched<CurrentReply>, forecastReply': Fetched<seq<ForecastItem>>, dayOf': int -> string)
    requires !KeyConfigured(apiKey)
    ensures var t := AfterSearch(s, city, apiKey, current, forecastReply, dayOf);
      && t.error == ConfigMessage && t.weatherData.None? && !t.loading
      && t.currentCity == s.currentCity && t.forecast == s.forecast
      && t == AfterSearch(s, city, apiKey, current', forecastReply', dayOf')
  {
  }

  /**
    A failed current-weather step, whatever the failure, clears the card and the
    forecast, records the searched city and shows the error that was thrown.
   */
  lemma WeatherFailureClears(s: HookState, city: string, apiKey: Option<string>,
    current: Fetched<CurrentReply>, forecastReply: Fetched<seq<ForecastItem>>, dayOf: int -> string)
    requires KeyConfigured(apiKey) && !CurrentSucceeds(current)
    ensures var t := AfterSearch(s, city, apiKey, current, forecastReply, dayOf);
      && t.weatherData.None? && t.forecast == [] && t.currentCity == city
      && t.error == (if current.Thrown? then current.message
                     else if !Ok(current.status) then FailureMessage(city, current.status)
                     else NoConditionMessage)
  {
  }

  /** The card is set exactly when the key is usable and the current-weather step succeeds; it is then the reply's snapshot and no error shows. */
  lemma CardIffSuccess(s: HookState, city: string, apiKey: Option<string>,
    current: Fetched<CurrentReply>, forecastReply: Fetched<seq<ForecastItem>>, dayOf: int -> string)
    ensures var t := AfterSearch(s, city, apiKey, current, forecastReply, dayOf);
      && (t.weatherData.Some? <==> KeyConfigured(apiKey) && CurrentSucceeds(current))
      && (t.weatherData.Some? ==>
            t.error == "" && t.currentCity == city
            && t.weatherData.value.city == current.body.name
            && t.weatherData.value.country == current.body.country
            && t.weatherData.value.temperature == current.body.temp
            && t.weatherData.value.feelsLike == current.body.feelsLike
            && t.weatherData.value.humidity == current.body.humidity
            && t.weatherData.value.windSpeed == current.body.windSpeed
            && t.weatherData.value.description == current.body.weather[0].description
            && t.weatherData.value.icon == current.body.weather[0].icon)
  {
  }

  /** A failing forecast request empties the forecast but leaves the card and the empty error in place. */
  lemma ForecastFailureSwallowed(s: HookState, city: string, apiKey: Option<string>,
    current: Fetched<CurrentReply>, forecastReply: Fetched<seq<ForecastItem>>, dayOf: int -> string)
    requires KeyConfigured(apiKey) && CurrentSucceeds(current)
    requires forecastReply.Thrown? || !Ok(forecastReply.status) || !AllHaveCondition(forecastReply.body)
    ensures var t := AfterSearch(s, city, apiKey, current, forecastReply, dayOf);
      && t.forecast == [] && t.error == "" && t.weatherData == Some(Snapshot(current.body))
  {
  }

  /** After any search with a usable key, a forecast is only shown beside a card, and a card never beside an error. */
  lemma SearchConsistent(s: HookState, city: string, apiKey: Option<string>,
    current: Fetched<CurrentReply>, forecastReply: Fetched<seq<ForecastItem>>, dayOf: int -> string)
    requires KeyConfigured(apiKey)
    ensures var t := AfterSearch(s, city, apiKey, current, forecastReply, dayOf);
      && (t.forecast != [] ==> t.weatherData.Some?)
      && (t.weatherData.Some? ==> t.error == "")
      && |t.forecast| <= MaxDays
  {
    var t := AfterSearch(s, city, apiKey, current, forecastReply, dayOf);
    if CurrentSucceeds(current) && t.forecast != [] {
      var items := forecastReply.body;
      AggregateKeys(Samples(items, dayOf));
    }
  }

  /** The forecast kept after a good reply has one day per distinct date of its entries, at most five. */
  lemma ForecastFromReply(status: nat, items: seq<ForecastItem>, dayOf: int -> string)
    requires Ok(status) && AllHaveCondition(items)
    ensures var days := ForecastOutcome(Reply(status, items), dayOf);
      var keys := Distinct(DateKeys(Samples(items, dayOf)));
      && |days| == (if |keys| <= MaxDays then |keys| else MaxDays)
      && forall i :: 0 <= i < |days| ==>
           exists p :: 0 <= p < |items| && dayOf(items[p].dt) == days[i].dateKey && items[p].temp == days[i].highTemp
  {
    var samples := Samples(items, dayOf);
    var days := Aggregate(samples);
    AggregateKeys(samples);
    forall i | 0 <= i < |days|
      ensures exists p :: 0 <= p < |items| && dayOf(items[p].dt) == days[i].dateKey && items[p].temp == days[i].highTemp
    {
      AggregateTemperatureRange(samples, i);
      var p :| 0 <= p < |samples| && samples[p].dateKey == days[i].dateKey && samples[p].temp == days[i].highTemp;
      assert dayOf(items[p].dt) == samples[p].dateKey;
    }
  }

  /** The hook's state slots. */
  class WeatherHook {
    var weatherData: Option<WeatherData>
    var forecast: seq<DayForecast>
    var loading: bool
    var error: string
    var currentCity: string

    function State(): HookState
      reads this
    {
      HookState(weatherData, forecast, loading, error, currentCity)
    }

    /** The initial values of the five `useState` calls. */
    constructor()
      ensures State() == HookState(None, [], false, "", "")
    {
      weatherData := None;
      forecast := [];
      loading := false;
      error := "";
      currentCity := "";
    }

    /** `fetchForecast`: only `forecast` changes, to the summaries or to `[]` on any failure. */
    method FetchForecast(reply: Fetched<seq<ForecastItem>>, dayOf: int -> string)
      modifies this
      ensures forecast == ForecastOutcome(reply, dayOf)
      ensures weatherData == old(weatherData) && loading == old(loading)
      ensures error == old(error) && currentCity == old(currentCity)
    {
      match reply {
        case Thrown(_) =>
          forecast := [];
        case Reply(status, items) =>
          if !Ok(status) || !AllHaveCondition(items) {
            forecast := [];
          } else {
            var days := ProcessForecastData(Samples(items, dayOf));
            forecast := days;
          }
      }
    }

    /** `searchCity`: the state settles on `AfterSearch` of the state before the call. */
    method SearchCity(city: string, apiKey: Option<string>,
      current: Fetched<CurrentReply>, forecastReply: Fetched<seq<ForecastItem>>, dayOf: int -> string)
      modifies this
      ensures State() == AfterSearch(old(State()), city, apiKey, current, forecastReply, dayOf)
    {
      if !KeyConfigured(apiKey) {
        error := ConfigMessage;
        loading := false;
        weatherData := None;
        return;
      }
      error := "";
      loading := true;
      currentCity := city;
      match current {
        case Thrown(message) =>
          error := message;
          weatherData := None;
          forecast := [];
        case Reply(status, data) =>
          if !Ok(status) {
            error := FailureMessage(city, status);
            weatherData := None;
            forecast := [];
          } else if |data.weather| == 0 {
            error := NoConditionMessage;
            weatherData := None;
            forecast := [];
          } else {
            weatherData := Some(Snapshot(data));
            error := "";
            FetchForecast(forecastReply, dayOf);
          }
      }
      loading := false;
    }
  }
}
