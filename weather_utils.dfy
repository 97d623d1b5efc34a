/**
 * The static helpers of `WeatherUtils` (Weathery/Utilits/WeatherUtils.swift),
 * written out on their own as the source does, and proved to agree with the
 * view model's tests of the same names.
 */
module WeatherUtils {
  import opened Model
  import opened DateFormat
  import WeatherViewModel

  /** `WeatherUtils.isCurrentWeatherDaytime(for:)`: the record's time lies in `[sunrise, sunset)`. */
  function IsCurrentWeatherDaytime(data: WeatherData): (r: bool)
    ensures r <==> data.sys.sunrise <= data.dt < data.sys.sunset
  {
    var currentTime := WeatherViewModel.DateFromEpoch(data.dt);
    var sunrise := WeatherViewModel.DateFromEpoch(data.sys.sunrise);
    var sunset := WeatherViewModel.DateFromEpoch(data.sys.sunset);
    currentTime >= sunrise && currentTime < sunset
  }

  /** `WeatherUtils.isForecastDaytime(forecast:)`: local hour in [6, 18), and daytime when `dt_txt` does not parse. */
  function IsForecastDaytime(forecast: ForecastList): (r: bool)
    ensures Parse(forecast.dtTxt).None? ==> r
    ensures Parse(forecast.dtTxt).Some? ==> (r <==> 6 <= Parse(forecast.dtTxt).value.hour < 18)
  {
    if Parse(forecast.dtTxt).Some? then
      var hour := Parse(forecast.dtTxt).value.hour;
      hour >= 6 && hour < 18
    else true
  }

  /** The two copies of the sun-window test answer alike on every record. */
  lemma CurrentWeatherDaytimeCopiesAgree(data: WeatherData)
    ensures IsCurrentWeatherDaytime(data) == WeatherViewModel.IsCurrentWeatherDaytime(data)
  {
  }

  /** The two copies of the hour heuristic answer alike on every sample. */
  lemma ForecastDaytimeCopiesAgree(forecast: ForecastList)
    ensures IsForecastDaytime(forecast) == WeatherViewModel.IsForecastDaytime(forecast)
  {
  }
}
