/**
  The two records the weather UI displays. Temperatures are whole degrees
  Celsius and wind speed is in tenths of a metre per second: the model uses
  integers where the program uses JavaScript numbers.
 */
module WeatherModel {

  /** The current-conditions snapshot shown on the weather card. */
  datatype WeatherData = WeatherData(
    city: string,
    country: string,
    temperature: int,
    feelsLike: int,
    description: string,
    humidity: int,
    windSpeed: int,
    icon: string)

  /**
    One day of the forecast strip. The weekday and month-day labels, which the
    program formats from the day's date with the browser's locale, are stood in
    for by the day's date key.
   */
  datatype DayForecast = DayForecast(
    dateKey: string,
    highTemp: int,
    lowTemp: int,
    description: string,
    icon: string)
}
