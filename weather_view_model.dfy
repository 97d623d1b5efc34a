/**
 * The computations of `WeatherViewModel` (Weathery/ViewModel/WeatherViewModel.swift):
 * grouping forecast samples into weekday buckets, choosing a condition icon,
 * and the two daytime tests. The fetch methods and their callbacks are not
 * part of this model.
 *
 * `Date()` is the parameter `now`; the calendar and formatters are those of
 * module DateFormat.
 */
module WeatherViewModel {
  import opened Wrappers
  import opened Model
  import opened DateFormat
  import opened Buckets

  // ---------------------------------------------------------------------------
  // Sorting by parsed date (lines 59-61)

  /** Every sample's `dt_txt` parses. */
  predicate AllParse(fs: seq<ForecastList>) {
    forall i :: 0 <= i < |fs| ==> Parse(fs[i].dtTxt).Some?
  }

  /**
   * The sort returns instead of trapping: its comparator force-unwraps both
   * parses, and `sorted` calls the comparator only when there are two or more
   * samples. A single sample is returned as it is, whether it parses or not.
   */
  predicate SortSucceeds(fs: seq<ForecastList>) {
    |fs| <= 1 || AllParse(fs)
  }

  /**
   * The sort key: the instant of the parsed `dt_txt`. The comparator is only
   * ever applied to samples that parse (SortSucceeds), so the value 0 for the
   * others is never compared.
   */
  function TimeKey(f: ForecastList): int {
    match Parse(f.dtTxt)
    case Some(date) => Instant(date)
    case None => 0
  }

  /** `forecasts.sorted { date($0) < date($1) }`: a permutation in ascending instant order. */
  function SortByDate(forecasts: seq<ForecastList>): (sorted: seq<ForecastList>)
    ensures SortedBy(sorted, TimeKey) && multiset(sorted) == multiset(forecasts)
  {
    SortBy(forecasts, TimeKey)
  }

  /**
   * The sort by instant is the sort by date and time: no sample comes after
   * one dated later than it.
   */
  lemma SortByDateIsChronological(forecasts: seq<ForecastList>, i: int, j: int)
    requires SortSucceeds(forecasts) && 0 <= i < j < |SortByDate(forecasts)|
    ensures Parse(SortByDate(forecasts)[i].dtTxt).Some? && Parse(SortByDate(forecasts)[j].dtTxt).Some?
    ensures !Before(Parse(SortByDate(forecasts)[j].dtTxt).value, Parse(SortByDate(forecasts)[i].dtTxt).value)
  {
    var sorted := SortByDate(forecasts);
    assert |forecasts| >= 2 by {
      assert |sorted| == |multiset(sorted)| == |multiset(forecasts)| == |forecasts|;
    }
    ParsesWhenSorted(forecasts, sorted[i]);
    ParsesWhenSorted(forecasts, sorted[j]);
    InstantOrder(Parse(sorted[j].dtTxt).value, Parse(sorted[i].dtTxt).value);
  }

  lemma ParsesWhenSorted(forecasts: seq<ForecastList>, x: ForecastList)
    requires AllParse(forecasts) && x in SortByDate(forecasts)
    ensures Parse(x.dtTxt).Some?
  {
    assert x in multiset(SortByDate(forecasts));
    assert x in multiset(forecasts);
  }

  // ---------------------------------------------------------------------------
  // Which samples are kept, and under which label (lines 63-67)

  /**
   * The dictionary key a sample is appended under, or `None` when the loop
   * skips it: its `dt_txt` does not parse (line 64) or its date lies before
   * the start of today (line 65). The key is the weekday name (line 66) in
   * the locale of `symbols`.
   */
  function DayLabel(forecast: ForecastList, now: LocalDateTime, symbols: WeekdayTable): (key: Option<string>)
    ensures key.Some? ==> Parse(forecast.dtTxt).Some? && key.value in symbols
  {
    match Parse(forecast.dtTxt)
    case None => None
    case Some(forecastDate) =>
      if Instant(forecastDate) >= StartOfDay(now) then Some(WeekdayName(symbols, forecastDate)) else None
  }

  function LabelFor(now: LocalDateTime, symbols: WeekdayTable): ForecastList -> Option<string> {
    f => DayLabel(f, now, symbols)
  }

  // ---------------------------------------------------------------------------
  // The output order (lines 72-82)

  /** `calendar.component(.weekday, from: today) - 1`: 0 for Sunday. */
  function TodayIndex(now: LocalDateTime): (i: int)
    ensures 0 <= i < 7
  {
    CalendarWeekday(now) - 1
  }

  /** The name of the weekday k days after the one at `todayIndex`: `symbols[(todayIndex + k) % 7]`. */
  function WeekdayAfter(symbols: WeekdayTable, todayIndex: int, k: int): string {
    symbols[(todayIndex + k) % 7]
  }

  /** Two different offsets below 7 name two different weekdays. */
  lemma WeekdaysAfterDistinct(symbols: WeekdayTable, todayIndex: int, q: int, k: int)
    requires 0 <= todayIndex < 7 && 0 <= q < k < 7
    ensures WeekdayAfter(symbols, todayIndex, q) != WeekdayAfter(symbols, todayIndex, k)
  {
    var a, b := (todayIndex + q) % 7, (todayIndex + k) % 7;
    assert a != b;
    if a < b {
      assert symbols[a] != symbols[b];
    } else {
      assert symbols[b] != symbols[a];
    }
  }

  /** Every weekday of the table is some number of days below 7 after today's. */
  lemma WeekdayAfterCovers(symbols: WeekdayTable, todayIndex: int, i: int)
    requires 0 <= todayIndex < 7 && 0 <= i < 7
    ensures 0 <= (i - todayIndex) % 7 < 7 && WeekdayAfter(symbols, todayIndex, (i - todayIndex) % 7) == symbols[i]
  {
    assert (todayIndex + (i - todayIndex) % 7) % 7 == i;
  }

  /** The seven weekday names starting at `todayIndex` (lines 73-75): every name of the table, each once. */
  function OrderedWeekdays(symbols: WeekdayTable, todayIndex: int): (days: seq<string>)
    requires 0 <= todayIndex < 7
    ensures |days| == 7 && days[0] == symbols[todayIndex]
    ensures forall i :: 0 <= i < 7 ==> symbols[i] in days
    ensures forall k, q :: 0 <= k < q < 7 ==> days[k] != days[q]
  {
    var days := seq(7, k requires 0 <= k < 7 => WeekdayAfter(symbols, todayIndex, k));
    OrderedWeekdaysSpan(symbols, todayIndex, days);
    days
  }

  lemma OrderedWeekdaysSpan(symbols: WeekdayTable, todayIndex: int, days: seq<string>)
    requires 0 <= todayIndex < 7 && |days| == 7
    requires forall k :: 0 <= k < 7 ==> days[k] == WeekdayAfter(symbols, todayIndex, k)
    ensures forall i :: 0 <= i < 7 ==> symbols[i] in days
    ensures forall k, q :: 0 <= k < q < 7 ==> days[k] != days[q]
  {
    forall i | 0 <= i < 7 ensures symbols[i] in days {
      WeekdayAfterCovers(symbols, todayIndex, i);
    }
    forall k, q | 0 <= k < q < 7 ensures days[k] != days[q] {
      WeekdaysAfterDistinct(symbols, todayIndex, k, q);
    }
  }

  /** The `compactMap` of lines 77-82 over a dictionary of buckets. */
  function CompactBuckets(days: seq<string>, grouped: map<string, seq<ForecastList>>): (r: seq<DayWeather>)
    ensures |r| <= |days|
    ensures forall e :: e in r ==> e.day in days && e.day in grouped && e.hourlyForecasts == grouped[e.day]
    ensures (forall i, j :: 0 <= i < j < |days| ==> days[i] != days[j]) ==>
            forall i, j :: 0 <= i < j < |r| ==> r[i].day != r[j].day
  {
    if days == [] then []
    else
      var rest := CompactBuckets(days[1..], grouped);
      assert forall e :: e in rest ==> e.day in days[1..];
      (if days[0] in grouped then [DayWeather(days[0], grouped[days[0]])] else []) + rest
  }

  /**
   * The meaning of `groupForecastsByDay`, stated without a dictionary: walk
   * the weekdays from offset `k` to 6 after today's, and emit each weekday
   * whose samples (selected from `sorted` by `labelOf`) are not empty.
   */
  function DayBuckets(sorted: seq<ForecastList>, labelOf: ForecastList -> Option<string>,
                      symbols: WeekdayTable, todayIndex: int, k: nat): (r: seq<DayWeather>)
    ensures k <= 7 ==> |r| <= 7 - k
    decreases 7 - k
  {
    if k >= 7 then []
    else
      var day := WeekdayAfter(symbols, todayIndex, k);
      var bucket := Select(sorted, labelOf, day);
      (if bucket == [] then [] else [DayWeather(day, bucket)]) + DayBuckets(sorted, labelOf, symbols, todayIndex, k + 1)
  }

  /** What `groupForecastsByDay` returns, for weekday names from `symbols`. */
  function GroupByDay(forecasts: seq<ForecastList>, now: LocalDateTime, symbols: WeekdayTable): (days: seq<DayWeather>)
    requires SortSucceeds(forecasts)
    ensures |days| <= 7
  {
    DayBuckets(SortByDate(forecasts), LabelFor(now, symbols), symbols, TodayIndex(now), 0)
  }

  /** With the dictionary holding exactly the non-empty buckets, the compactMap is the specification. */
  lemma {:induction false} CompactBucketsAreDayBuckets(sorted: seq<ForecastList>, labelOf: ForecastList -> Option<string>,
                                                       symbols: WeekdayTable, todayIndex: int,
                                                       grouped: map<string, seq<ForecastList>>, k: nat)
    requires 0 <= todayIndex < 7 && k <= 7 && HoldsSelections(grouped, sorted, labelOf)
    ensures CompactBuckets(OrderedWeekdays(symbols, todayIndex)[k..], grouped) == DayBuckets(sorted, labelOf, symbols, todayIndex, k)
    decreases 7 - k
  {
    var days := OrderedWeekdays(symbols, todayIndex);
    if k < 7 {
      var day := WeekdayAfter(symbols, todayIndex, k);
      assert days[k..][0] == day && days[k..][1..] == days[k + 1..];
      assert day in grouped <==> Select(sorted, labelOf, day) != [];
      CompactBucketsAreDayBuckets(sorted, labelOf, symbols, todayIndex, grouped, k + 1);
    }
  }

  /**
   * `groupForecastsByDay`: sort, bucket the samples of today and later into a
   * dictionary keyed by ru_RU weekday name, then list the buckets in weekday
   * order from today's weekday on.
   */
  method GroupForecastsByDay(forecasts: seq<ForecastList>, now: LocalDateTime) returns (days: seq<DayWeather>)
    requires SortSucceeds(forecasts)
    ensures days == GroupByDay(forecasts, now, WeekdaySymbols)
  {
    var groupedForecasts: map<string, seq<ForecastList>> := map[];
    var weekdaySymbols := WeekdaySymbols;
    var today := StartOfDay(now);
    var sortedForecasts := SortByDate(forecasts);
    ghost var labelOf := LabelFor(now, weekdaySymbols);

    for i := 0 to |sortedForecasts|
      invariant HoldsSelections(groupedForecasts, sortedForecasts[..i], labelOf)
    {
      var forecast := sortedForecasts[i];
      ghost var before := groupedForecasts;
      var forecastDate := Parse(forecast.dtTxt);
      if forecastDate.Some? {
        if Instant(forecastDate.value) >= today {
          var day := WeekdayName(weekdaySymbols, forecastDate.value);
          var bucket := if day in groupedForecasts then groupedForecasts[day] else [];
          groupedForecasts := groupedForecasts[day := bucket + [forecast]];
        }
      }
      LoopStep(before, groupedForecasts, sortedForecasts, i, now, weekdaySymbols, forecastDate, today);
    }
    assert sortedForecasts[..|sortedForecasts|] == sortedForecasts;

    var todayWeekdayIndex := CalendarWeekday(now) - 1;
    var orderedWeekdays := OrderedWeekdays(weekdaySymbols, todayWeekdayIndex);
    days := CompactBuckets(orderedWeekdays, groupedForecasts);
    CompactBucketsAreGroupByDay(sortedForecasts, labelOf, weekdaySymbols, todayWeekdayIndex, groupedForecasts, days);
    assert todayWeekdayIndex == TodayIndex(now);
  }

  lemma CompactBucketsAreGroupByDay(sorted: seq<ForecastList>, labelOf: ForecastList -> Option<string>,
                                    symbols: WeekdayTable, todayIndex: int,
                                    grouped: map<string, seq<ForecastList>>, days: seq<DayWeather>)
    requires 0 <= todayIndex < 7 && HoldsSelections(grouped, sorted, labelOf)
    requires days == CompactBuckets(OrderedWeekdays(symbols, todayIndex), grouped)
    ensures days == DayBuckets(sorted, labelOf, symbols, todayIndex, 0)
  {
    var orderedWeekdays := OrderedWeekdays(symbols, todayIndex);
    CompactBucketsAreDayBuckets(sorted, labelOf, symbols, todayIndex, grouped, 0);
    assert orderedWeekdays[0..] == orderedWeekdays;
  }

  /**
   * One turn of the loop of lines 63-70: the sample is appended under its
   * weekday name when it parses and is not before today's start, and the
   * dictionary then holds the selections of one more sample.
   */
  lemma LoopStep(before: map<string, seq<ForecastList>>, after: map<string, seq<ForecastList>>,
                 sorted: seq<ForecastList>, i: nat, now: LocalDateTime, symbols: WeekdayTable,
                 forecastDate: Option<LocalDateTime>, today: int)
    requires i < |sorted| && HoldsSelections(before, sorted[..i], LabelFor(now, symbols))
    requires forecastDate == Parse(sorted[i].dtTxt) && today == StartOfDay(now)
    requires after == if forecastDate.Some? && Instant(forecastDate.value) >= today
                      then AddToBucket(before, Some(WeekdayName(symbols, forecastDate.value)), sorted[i])
                      else before
    ensures HoldsSelections(after, sorted[..i + 1], LabelFor(now, symbols))
  {
    var labelOf := LabelFor(now, symbols);
    assert after == AddToBucket(before, labelOf(sorted[i]), sorted[i]);
    AddToBucketStep(before, sorted, i, labelOf);
  }

  // ---------------------------------------------------------------------------
  // Icon selection (lines 85-102)

  /** `Character.lowercased()` on ASCII letters; every other character is kept. */
  function LowerChar(c: char): char {
    if 'A' <= c <= 'Z' then (c as int + 32) as char else c
  }

  function UpperChar(c: char): char {
    if 'a' <= c <= 'z' then (c as int - 32) as char else c
  }

  function Lowercased(s: string): (r: string)
    ensures |r| == |s| && forall i :: 0 <= i < |s| ==> r[i] == LowerChar(s[i])
  {
    seq(|s|, i requires 0 <= i < |s| => LowerChar(s[i]))
  }

  function Uppercased(s: string): (r: string)
    ensures |r| == |s| && forall i :: 0 <= i < |s| ==> r[i] == UpperChar(s[i])
  {
    seq(|s|, i requires 0 <= i < |s| => UpperChar(s[i]))
  }

  /** The icon asset names the selector can return. */
  const IconIds: set<string> := {
    "weather_clear_day_icon", "weather_clear_night_icon", "weather_cloudy_icon",
    "weather_rain_icon", "weather_storm_icon", "weather_snow_icon", "weather_fog_icon"
  }

  /** The keywords the switch names; every other string falls to `default`. */
  const Keywords: set<string> := {
    "clear", "clouds", "rain", "storm", "thunderstorm", "snow", "fog", "mist", "haze"
  }

  /** `iconName(for:isDaytime:)`: total, always one of the seven asset names. */
  function IconName(weatherCondition: string, isDaytime: bool): (icon: string)
    ensures icon in IconIds
  {
    match Lowercased(weatherCondition)
    case "clear" => if isDaytime then "weather_clear_day_icon" else "weather_clear_night_icon"
    case "clouds" => "weather_cloudy_icon"
    case "rain" => "weather_rain_icon"
    case "storm" => "weather_storm_icon"
    case "thunderstorm" => "weather_storm_icon"
    case "snow" => "weather_snow_icon"
    case "fog" => "weather_fog_icon"
    case "mist" => "weather_fog_icon"
    case "haze" => "weather_fog_icon"
    case _ => "weather_cloudy_icon"
  }

  // ---------------------------------------------------------------------------
  // Daytime (lines 104-120)

  /** `Date(timeIntervalSince1970: TimeInterval(seconds))`, as a point of the real line. */
  function DateFromEpoch(seconds: int): real {
    seconds as real
  }

  /** `isCurrentWeatherDaytime(for:)`: the half-open sun window `[sunrise, sunset)`. */
  function IsCurrentWeatherDaytime(data: WeatherData): (r: bool)
    ensures r <==> data.sys.sunrise <= data.dt < data.sys.sunset
  {
    var currentTime := DateFromEpoch(data.dt);
    var sunrise := DateFromEpoch(data.sys.sunrise);
    var sunset := DateFromEpoch(data.sys.sunset);
    currentTime >= sunrise && currentTime < sunset
  }

  /** `isForecastDaytime(forecast:)`: local hour in [6, 18), and daytime when `dt_txt` does not parse. */
  function IsForecastDaytime(forecast: ForecastList): (r: bool)
    ensures Parse(forecast.dtTxt).None? ==> r
  {
    match Parse(forecast.dtTxt)
    case Some(date) =>
      var hour := date.hour;
      hour >= 6 && hour < 18
    case None => true
  }
}
