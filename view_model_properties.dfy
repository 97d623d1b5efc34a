/**
 * What the icon selector and the two daytime tests of `WeatherViewModel`
 * (Weathery/ViewModel/WeatherViewModel.swift:85-120) guarantee.
 */
module ViewModelProperties {
  import opened Model
  import opened DateFormat
  import opened WeatherViewModel

  // ---------------------------------------------------------------------------
  // Icon selection

  /** The asset of every keyword except "clear", the one keyword whose asset depends on the daytime flag. */
  const FixedIcons: map<string, string> := map[
    "clouds" := "weather_cloudy_icon",
    "rain" := "weather_rain_icon",
    "storm" := "weather_storm_icon",
    "thunderstorm" := "weather_storm_icon",
    "snow" := "weather_snow_icon",
    "fog" := "weather_fog_icon",
    "mist" := "weather_fog_icon",
    "haze" := "weather_fog_icon"
  ]

  /** Icon selection as a table lookup on the lowercased condition. */
  function IconByTable(weatherCondition: string, isDaytime: bool): string {
    var key := Lowercased(weatherCondition);
    if key == "clear" then (if isDaytime then "weather_clear_day_icon" else "weather_clear_night_icon")
    else if key in FixedIcons then FixedIcons[key]
    else "weather_cloudy_icon"
  }

  /** The switch and the table agree on every condition and flag. */
  lemma IconNameIsTableLookup(weatherCondition: string, isDaytime: bool)
    ensures IconName(weatherCondition, isDaytime) == IconByTable(weatherCondition, isDaytime)
  {
    assert FixedIcons.Keys + {"clear"} == Keywords;
  }

  /** Exactly the conditions that lowercase to "clear" depend on the daytime flag. */
  lemma IconDependsOnDaytimeOnlyForClear(weatherCondition: string)
    ensures IconName(weatherCondition, true) != IconName(weatherCondition, false) <==>
            Lowercased(weatherCondition) == "clear"
    ensures Lowercased(weatherCondition) == "clear" ==>
            IconName(weatherCondition, true) == "weather_clear_day_icon" &&
            IconName(weatherCondition, false) == "weather_clear_night_icon"
  {
    IconNameIsTableLookup(weatherCondition, true);
    IconNameIsTableLookup(weatherCondition, false);
  }

  /** A condition outside the switch's keywords gets the cloudy icon, whatever the flag. */
  lemma UnknownConditionIsCloudy(weatherCondition: string, isDaytime: bool)
    requires Lowercased(weatherCondition) !in Keywords
    ensures IconName(weatherCondition, isDaytime) == "weather_cloudy_icon"
  {
    IconNameIsTableLookup(weatherCondition, isDaytime);
  }

  /** The preimage of each asset: which lowercased conditions select it. */
  lemma IconPreimages(weatherCondition: string, isDaytime: bool)
    ensures IconName(weatherCondition, isDaytime) == "weather_clear_day_icon" <==>
            Lowercased(weatherCondition) == "clear" && isDaytime
    ensures IconName(weatherCondition, isDaytime) == "weather_clear_night_icon" <==>
            Lowercased(weatherCondition) == "clear" && !isDaytime
    ensures IconName(weatherCondition, isDaytime) == "weather_storm_icon" <==>
            Lowercased(weatherCondition) in {"storm", "thunderstorm"}
    ensures IconName(weatherCondition, isDaytime) == "weather_fog_icon" <==>
            Lowercased(weatherCondition) in {"fog", "mist", "haze"}
    ensures IconName(weatherCondition, isDaytime) == "weather_rain_icon" <==> Lowercased(weatherCondition) == "rain"
    ensures IconName(weatherCondition, isDaytime) == "weather_snow_icon" <==> Lowercased(weatherCondition) == "snow"
    ensures IconName(weatherCondition, isDaytime) == "weather_cloudy_icon" <==>
            Lowercased(weatherCondition) == "clouds" || Lowercased(weatherCondition) !in Keywords
  {
    IconNameIsTableLookup(weatherCondition, isDaytime);
  }

  lemma LowerUpperChar(c: char)
    ensures LowerChar(UpperChar(c)) == LowerChar(c) && LowerChar(LowerChar(c)) == LowerChar(c)
  {
  }

  /** Lowercasing forgets the case of the input: upper- and lower-cased inputs lowercase alike. */
  lemma LowercasedForgetsCase(s: string)
    ensures Lowercased(Uppercased(s)) == Lowercased(s)
    ensures Lowercased(Lowercased(s)) == Lowercased(s)
  {
    forall i | 0 <= i < |s| ensures Lowercased(Uppercased(s))[i] == Lowercased(s)[i] {
      LowerUpperChar(s[i]);
    }
    forall i | 0 <= i < |s| ensures Lowercased(Lowercased(s))[i] == Lowercased(s)[i] {
      LowerUpperChar(s[i]);
    }
  }

  /** The selector is case-insensitive: "Clear", "CLEAR" and "clear" pick the same icon. */
  lemma IconNameIgnoresCase(weatherCondition: string, isDaytime: bool)
    ensures IconName(Uppercased(weatherCondition), isDaytime) == IconName(weatherCondition, isDaytime)
    ensures IconName(Lowercased(weatherCondition), isDaytime) == IconName(weatherCondition, isDaytime)
  {
    LowercasedForgetsCase(weatherCondition);
  }

  /** The API's capitalised categories. */
  lemma IconExamples()
    ensures IconName("Clear", true) == "weather_clear_day_icon"
    ensures IconName("Clear", false) == "weather_clear_night_icon"
    ensures IconName("Thunderstorm", true) == "weather_storm_icon"
    ensures IconName("Drizzle", false) == "weather_cloudy_icon"
  {
    assert Lowercased("Clear") == "clear";
    assert Lowercased("Thunderstorm") == "thunderstorm";
    assert Lowercased("Drizzle") == "drizzle";
  }

  // ---------------------------------------------------------------------------
  // Daytime

  /** A sun window that does not open before it closes contains no instant. */
  lemma EmptySunWindowIsNight(data: WeatherData)
    requires data.sys.sunrise >= data.sys.sunset
    ensures !IsCurrentWeatherDaytime(data)
  {
  }

  /** Sunrise itself is daytime, sunset itself is not. */
  lemma SunWindowIsHalfOpen(name: string, weather: seq<Weather>, sunrise: int, sunset: int)
    requires sunrise < sunset
    ensures IsCurrentWeatherDaytime(WeatherData(name, sunrise, weather, Sys(sunrise, sunset)))
    ensures !IsCurrentWeatherDaytime(WeatherData(name, sunset, weather, Sys(sunrise, sunset)))
  {
  }

  /** For a timestamp the formatter writes, daytime is the hour window [6, 18). */
  lemma ForecastDaytimeIsHourWindow(dt: int, weather: seq<Weather>, t: LocalDateTime)
    requires ValidDateTime(t)
    ensures IsForecastDaytime(ForecastList(dt, weather, Format(t))) <==> 6 <= t.hour < 18
  {
    ParseFormat(t);
  }

  /** Every forecast is daytime exactly when its timestamp fails to parse or parses to an hour in [6, 18). */
  lemma ForecastDaytimeMeaning(forecast: ForecastList)
    ensures IsForecastDaytime(forecast) <==>
            Parse(forecast.dtTxt).None? || 6 <= Parse(forecast.dtTxt).value.hour < 18
  {
  }

  /** The window's first hour: 06:00 is daytime. */
  lemma SixOClockIsDay(dt: int, weather: seq<Weather>)
    ensures IsForecastDaytime(ForecastList(dt, weather, "2024-09-10 06:00:00"))
  {
    var t := LocalDateTime(2024, 9, 10, 6, 0, 0);
    assert Format(t) == "2024-09-10 06:00:00";
    ForecastDaytimeIsHourWindow(dt, weather, t);
  }

  /** The window is open at its end: 18:00 is not daytime. */
  lemma EighteenOClockIsNight(dt: int, weather: seq<Weather>)
    ensures !IsForecastDaytime(ForecastList(dt, weather, "2024-09-10 18:00:00"))
  {
    var t := LocalDateTime(2024, 9, 10, 18, 0, 0);
    assert Format(t) == "2024-09-10 18:00:00";
    ForecastDaytimeIsHourWindow(dt, weather, t);
  }

  /** The last second before the window is not daytime. */
  lemma JustBeforeSixIsNight(dt: int, weather: seq<Weather>)
    ensures !IsForecastDaytime(ForecastList(dt, weather, "2024-09-10 05:59:59"))
  {
    var t := LocalDateTime(2024, 9, 10, 5, 59, 59);
    assert Format(t) == "2024-09-10 05:59:59";
    ForecastDaytimeIsHourWindow(dt, weather, t);
  }

  /** A timestamp the formatter rejects counts as daytime. */
  lemma UnparsableIsDay(dt: int, weather: seq<Weather>)
    ensures IsForecastDaytime(ForecastList(dt, weather, "not-a-date"))
  {
  }
}
