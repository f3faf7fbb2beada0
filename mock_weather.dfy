/*
  Canned weather for trying the page without the weather service: a fixed
  table of twelve cities looked up by normalised name, and a generator of
  made-up weather for any other city. The generator's random draws are
  parameters here.
 */
module MockWeather {
  import opened Wrappers
  import opened Text
  import opened WeatherModel

  /** The table, keyed by lower-case city name. Wind speeds are in tenths of a metre per second. */
  const Table: map<string, WeatherData> := map[
    "paris" := WeatherData("Paris", "FR", 24, 22, "clear sky", 45, 32, "01d"),
    "london" := WeatherData("London", "GB", 15, 13, "light rain", 85, 58, "10d"),
    "moscow" := WeatherData("Moscow", "RU", -5, -10, "snow", 75, 45, "13d"),
    "dubai" := WeatherData("Dubai", "AE", 38, 42, "clear sky", 30, 21, "01d"),
    "tokyo" := WeatherData("Tokyo", "JP", 18, 17, "few clouds", 60, 42, "02d"),
    "new york" := WeatherData("New York", "US", 21, 19, "thunderstorm", 90, 75, "11d"),
    "san francisco" := WeatherData("San Francisco", "US", 16, 14, "mist", 88, 38, "50d"),
    "sydney" := WeatherData("Sydney", "AU", 19, 18, "clear sky", 55, 29, "01n"),
    "berlin" := WeatherData("Berlin", "DE", 12, 10, "scattered clouds", 70, 41, "03n"),
    "rome" := WeatherData("Rome", "IT", 26, 25, "broken clouds", 50, 35, "04d"),
    "mumbai" := WeatherData("Mumbai", "IN", 28, 32, "heavy intensity rain", 95, 62, "10d"),
    "reykjavik" := WeatherData("Reykjavik", "IS", -2, -7, "light snow", 80, 85, "13d")
  ]

  /** The key an entry is filed under: its city lower-cased, with no white space at either end. */
  predicate WellKeyed(key: string, w: WeatherData) {
    NormalName(key, w.city)
  }

  predicate NormalName(key: string, city: string) {
    IsLowerCase(key) && Trimmed(key) && ToLower(city) == key
  }

  /** `getMockWeatherData`: the entry filed under the lower-cased, trimmed name, if any. */
  function GetMockWeatherData(cityName: string): Option<WeatherData> {
    var key := Trim(ToLower(cityName));
    if key in Table then Some(Table[key]) else None
  }

  lemma EuropeanNamesNormal()
    ensures NormalName("paris", "Paris") && NormalName("london", "London")
    ensures NormalName("berlin", "Berlin") && NormalName("rome", "Rome")
  {
  }

  lemma EasternNamesNormal()
    ensures NormalName("moscow", "Moscow") && NormalName("dubai", "Dubai")
    ensures NormalName("tokyo", "Tokyo") && NormalName("mumbai", "Mumbai")
  {
  }

  lemma OtherNamesNormal()
    ensures NormalName("sydney", "Sydney") && NormalName("reykjavik", "Reykjavik")
    ensures NormalName("new york", "New York")
  {
  }

  lemma SanFranciscoNormal()
    ensures NormalName("san francisco", "San Francisco")
  {
  }

  /** Every key is lower-case and trimmed, and is the lower-cased city of its entry. */
  lemma TableWellKeyed()
    ensures forall key :: key in Table ==> WellKeyed(key, Table[key])
  {
    EuropeanNamesNormal();
    EasternNamesNormal();
    OtherNamesNormal();
    SanFranciscoNormal();
  }

  /** Every entry's humidity is a percentage. */
  lemma TableHumidityInRange()
    ensures forall key :: key in Table ==> 0 <= Table[key].humidity <= 100
  {
  }

  /** Only lower-cased, trimmed text reaches the table, so case and outer white space do not matter. */
  lemma LookupIgnoresCaseAndPadding(before: string, cityName: string, after: string)
    requires AllSpace(before) && AllSpace(after)
    ensures GetMockWeatherData(before + cityName + after) == GetMockWeatherData(cityName)
    ensures GetMockWeatherData(ToUpper(cityName)) == GetMockWeatherData(cityName)
  {
    ToLowerFacts(before, cityName);
    ToLowerFacts(before + cityName, after);
    LowerKeepsSpace(before);
    LowerKeepsSpace(after);
    TrimIgnoresPadding(ToLower(before), ToLower(cityName), ToLower(after));
    LowerOfUpper(cityName);
  }

  /** Looking up the city an entry displays finds that entry. */
  lemma LookupFindsEntryCity(key: string)
    requires key in Table
    ensures GetMockWeatherData(Table[key].city) == Some(Table[key])
  {
    TableWellKeyed();
    TrimOfTrimmed(key);
  }

  /** A result is always a table entry, filed under the normalised name; any other name gives nothing. */
  lemma LookupResult(cityName: string)
    ensures GetMockWeatherData(cityName).Some? ==>
      var w := GetMockWeatherData(cityName).value;
      w in Table.Values && ToLower(w.city) == Trim(ToLower(cityName))
    ensures Trim(ToLower(cityName)) !in Table ==> GetMockWeatherData(cityName) == None
  {
    TableWellKeyed();
  }

  /** One row of the generator's condition list. */
  datatype ConditionRow = ConditionRow(description: string, icon: string, humidity: int)

  const Conditions: seq<ConditionRow> := [
    ConditionRow("clear sky", "01d", 40),
    ConditionRow("few clouds", "02d", 50),
    ConditionRow("scattered clouds", "03d", 60),
    ConditionRow("broken clouds", "04d", 65),
    ConditionRow("shower rain", "09d", 85),
    ConditionRow("rain", "10d", 80),
    ConditionRow("thunderstorm", "11d", 90),
    ConditionRow("snow", "13d", 75),
    ConditionRow("mist", "50d", 88)
  ]

  /** `cityName.charAt(0).toUpperCase() + cityName.slice(1)`. */
  function CapitalizeFirst(s: string): (r: string)
    ensures |r| == |s|
  {
    if s == [] then [] else [UpperChar(s[0])] + s[1..]
  }

  /** Only the first character can change, and it changes to its upper-case form. */
  lemma CapitalizeFirstFacts(s: string)
    ensures CapitalizeFirst(s) == [] <==> s == []
    ensures s != [] ==> CapitalizeFirst(s)[0] == UpperChar(s[0]) && CapitalizeFirst(s)[1..] == s[1..]
    ensures CapitalizeFirst(CapitalizeFirst(s)) == CapitalizeFirst(s)
    ensures ToLower(CapitalizeFirst(s)) == ToLower(s)
  {
    if s != [] {
      ToLowerFacts([UpperChar(s[0])], s[1..]);
      ToLowerFacts([s[0]], s[1..]);
      assert s == [s[0]] + s[1..];
    }
  }

  /**
    `getRandomWeatherData` with its random draws given: the condition row
    `conditionIndex`, the temperature draw `r`, the feels-like offset draw `s`
    and the wind speed already rounded to tenths.
   */
  function RandomWeatherData(cityName: string, conditionIndex: nat, r: nat, s: nat, windTenths: nat): WeatherData
    requires conditionIndex < |Conditions| && r < 40 && s < 6 && windTenths <= 100
  {
    var condition := Conditions[conditionIndex];
    var temperature := r - 5;
    WeatherData(CapitalizeFirst(cityName), "XX", temperature, temperature + s - 3,
      condition.description, condition.humidity, windTenths, condition.icon)
  }

  /**
    The made-up weather: always country `XX`; description, icon and humidity
    from one row of the list; a temperature from -5 to 34 degrees; a
    feels-like value from three below to two above it; the given name with a
    capital first letter.
   */
  lemma RandomWeatherFacts(cityName: string, conditionIndex: nat, r: nat, s: nat, windTenths: nat)
    requires conditionIndex < |Conditions| && r < 40 && s < 6 && windTenths <= 100
    ensures var w := RandomWeatherData(cityName, conditionIndex, r, s, windTenths);
      && w.country == "XX"
      && ConditionRow(w.description, w.icon, w.humidity) in Conditions
      && -5 <= w.temperature <= 34
      && w.temperature - 3 <= w.feelsLike <= w.temperature + 2
      && 0 <= w.humidity <= 100
      && 0 <= w.windSpeed <= 100
      && ToLower(w.city) == ToLower(cityName)
  {
    CapitalizeFirstFacts(cityName);
  }

  /** Every temperature in the range can come out of the generator, and so can every feels-like offset. */
  lemma RandomTemperatureCoversRange(cityName: string, t: int, d: int)
    requires -5 <= t <= 34 && -3 <= d <= 2
    ensures RandomWeatherData(cityName, 0, t + 5, d + 3, 0).temperature == t
    ensures RandomWeatherData(cityName, 0, t + 5, d + 3, 0).feelsLike == t + d
  {
  }
}
