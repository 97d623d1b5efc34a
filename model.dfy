/**
 * The decoded API records the core works on (Weathery/Model/ForecastData.swift).
 * Only the fields the core reads are kept: the epoch timestamp `dt`, the
 * condition list `weather[].main`, the local-time string `dt_txt` of a forecast
 * sample, and the sun window `sys.sunrise`/`sys.sunset` of a current-weather
 * record. Temperatures, wind, visibility and the other display fields are left out.
 */
module Model {
  /** One entry of the `weather` array: its primary category, e.g. "Clear" or "Rain". */
  datatype Weather = Weather(main: string)

  /** One 3-hour forecast sample; `dtTxt` is the JSON field `dt_txt`. */
  datatype ForecastList = ForecastList(dt: int, weather: seq<Weather>, dtTxt: string)

  /** The `sys` object of a current-weather record: the sun window in epoch seconds. */
  datatype Sys = Sys(sunrise: int, sunset: int)

  /** A current-weather record. */
  datatype WeatherData = WeatherData(name: string, dt: int, weather: seq<Weather>, sys: Sys)

  /** One day of the detail screen: a weekday label and the samples of that day. */
  datatype DayWeather = DayWeather(day: string, hourlyForecasts: seq<ForecastList>)
}
