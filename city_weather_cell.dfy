/**
 * The private daytime test of `CityWeatherCell` (Weathery/Cell/CityWeatherCell.swift)
 * and the icon the cell shows for a current-weather record.
 */
module CityWeatherCell {
  import opened Wrappers
  import opened Model
  import WeatherViewModel
  import WeatherUtils

  /** `isDaytime(data:)`, a third copy of the sun-window test. */
  function IsDaytime(data: WeatherData): (r: bool)
    ensures r <==> data.sys.sunrise <= data.dt < data.sys.sunset
  {
    var currentTime := WeatherViewModel.DateFromEpoch(data.dt);
    var sunrise := WeatherViewModel.DateFromEpoch(data.sys.sunrise);
    var sunset := WeatherViewModel.DateFromEpoch(data.sys.sunset);
    currentTime >= sunrise && currentTime < sunset
  }

  /** All three sun-window tests are one function. */
  lemma DaytimeCopiesAgree(data: WeatherData)
    ensures IsDaytime(data) == WeatherViewModel.IsCurrentWeatherDaytime(data)
    ensures IsDaytime(data) == WeatherUtils.IsCurrentWeatherDaytime(data)
  {
  }

  /**
   * The icon `configure(with:)` sets: chosen from the first condition and the
   * cell's daytime test; no icon is set when the record lists no condition.
   */
  function ConfiguredIcon(data: WeatherData): (icon: Option<string>)
    ensures icon.None? <==> data.weather == []
    ensures icon.Some? ==> icon.value in WeatherViewModel.IconIds
  {
    if data.weather == [] then None
    else Some(WeatherViewModel.IconName(data.weather[0].main, IsDaytime(data)))
  }

  /** A "Clear" record shows the day icon inside its sun window and the night icon outside it. */
  lemma ClearSkyIconFollowsSun(data: WeatherData)
    requires data.weather != [] && WeatherViewModel.Lowercased(data.weather[0].main) == "clear"
    ensures ConfiguredIcon(data) == Some(if data.sys.sunrise <= data.dt < data.sys.sunset
                                         then "weather_clear_day_icon" else "weather_clear_night_icon")
  {
  }
}
