# Weathery: forecast grouping, icon selection and daytime tests

Weathery is an iOS weather app. It shows the current weather of a list of
cities and, for one city, a five-day forecast in 3-hour samples. This project
models the app's computational core in Dafny and proves what it guarantees.

- `groupForecastsByDay` takes the samples of the forecast API. It sorts them
  by their local timestamp `dt_txt`. It drops the samples dated before the
  start of today. It collects the rest in a dictionary keyed by the
  capitalised ru_RU weekday name. It returns one `DayWeather` per non-empty
  weekday, in weekday order starting from today's weekday.
- `iconName(for:isDaytime:)` maps a weather category such as "Clear" or
  "Rain", case-insensitively, to one of seven icon asset names. Only "clear"
  looks at the daytime flag.
- `isCurrentWeatherDaytime` tests whether a current-weather record lies in
  its sun window `[sunrise, sunset)`.
- `isForecastDaytime` tests whether a sample's local hour lies in `[6, 18)`.
  A timestamp that does not parse counts as daytime. `WeatherUtils` holds
  copies of both daytime tests. `CityWeatherCell` holds a copy of the
  sun-window test only. Each copy is proved equal to the view model's.

Files:

- `model.dfy`: the decoded records.
- `date_format.dfy`: the date formatter for "yyyy-MM-dd HH:mm:ss" and its
  inverse; the Gregorian day number, start of day and weekday; the weekday
  names. The day number is proved chronological, so the instant orders
  dates and times as `Date` does.
- `buckets.dfy`: a stable sort by key, and label selection with the
  dictionary-append step. Both are generic.
- `weather_view_model.dfy`: the view model.
  - `GroupForecastsByDay` is an imperative method with the source's mutable
    dictionary and loop. It is proved to return the value of the
    specification function `GroupByDay`.
  - Also here: `IconName` and the two daytime tests.
- `forecast_grouping.dfy`: the properties of `GroupByDay`.
- `view_model_properties.dfy`: the properties of the icon and daytime
  functions.
- `weather_utils.dfy`: the `WeatherUtils` copies of the two daytime tests.
- `city_weather_cell.dfy`: `CityWeatherCell`'s sun-window test and icon
  choice.

The grouping lemmas hold for any table of seven pairwise distinct weekday
names, which is what a `WeekdayTable` is. The method uses the ru_RU table
`WeekdaySymbols`.

One behaviour follows from the code: a sample seven or more days ahead lands
in the bucket of its weekday name, next to the samples of that weekday this
week. The five-day forecast the app requests never has such samples.
`GroupByDayWithinWeek` shows that without them, every bucket holds exactly
one calendar day.

## Model

| member | source | states |
|---|---|---|
| WeatherViewModel.GroupForecastsByDay | Weathery/ViewModel/WeatherViewModel.swift:46-83 | The dictionary-and-loop procedure returns exactly the specification `GroupByDay` for the ru_RU names. The loop invariant says the dictionary holds, for every label, exactly the non-empty selection of the samples seen so far. With two or more samples it requires every `dt_txt` to parse, because the sort's comparator force-unwraps both parses. A single sample is never compared, so it may fail to parse. |
| WeatherViewModel.GroupByDay | Weathery/ViewModel/WeatherViewModel.swift:46-83 | The value `groupForecastsByDay` returns, written without a dictionary: one entry for each weekday from today's on whose selection of the sorted samples is not empty. There are at most seven entries. |
| WeatherViewModel.SortByDate | Weathery/ViewModel/WeatherViewModel.swift:59-61 | The sorted samples are a permutation of the input, in ascending order of their parsed instants. |
| WeatherViewModel.SortByDateIsChronological | Weathery/ViewModel/WeatherViewModel.swift:59-61 | When the sort returns, every sample of the result parses, and no sample comes after one dated later than it. |
| WeatherViewModel.DayLabel | Weathery/ViewModel/WeatherViewModel.swift:63-66 | A sample gets a dictionary key only when its `dt_txt` parses. The key is one of the table's weekday names. |
| WeatherViewModel.CompactBuckets | Weathery/ViewModel/WeatherViewModel.swift:77-82 | No more entries than weekdays in the list. When the list names no weekday twice, no two entries share a day. Each entry's day is a weekday of the list and a key of the dictionary, and its samples are the dictionary's bucket for that day. |
| WeatherViewModel.CompactBucketsAreDayBuckets | Weathery/ViewModel/WeatherViewModel.swift:77-82 | When the dictionary holds exactly the non-empty selections, the `compactMap` over the ordered weekdays from position k on equals the specification walked from offset k. |
| WeatherViewModel.CompactBucketsAreGroupByDay | Weathery/ViewModel/WeatherViewModel.swift:72-82 | The same equality for the whole list of seven weekdays. |
| WeatherViewModel.LoopStep | Weathery/ViewModel/WeatherViewModel.swift:63-70 | One turn of the loop appends the sample under its weekday name when it parses and is not before today's start, and does nothing otherwise. Afterwards the dictionary holds the selections of the samples seen so far, this one included. |
| WeatherViewModel.TodayIndex | Weathery/ViewModel/WeatherViewModel.swift:72 | Calendar weekday minus one lies in 0..6. |
| WeatherViewModel.WeekdaysAfterDistinct | Weathery/ViewModel/WeatherViewModel.swift:73-75 | Two different offsets below 7 give two different weekday names. |
| WeatherViewModel.OrderedWeekdays | Weathery/ViewModel/WeatherViewModel.swift:73-75 | Seven names that start with today's weekday. Every name of the table appears, and no name appears twice. |
| WeatherViewModel.IconName | Weathery/ViewModel/WeatherViewModel.swift:85-102 | Total: every condition and flag give one of the seven asset names. |
| WeatherViewModel.IsCurrentWeatherDaytime | Weathery/ViewModel/WeatherViewModel.swift:104-110 | True exactly when sunrise <= dt < sunset. |
| WeatherViewModel.IsForecastDaytime | Weathery/ViewModel/WeatherViewModel.swift:112-120 | An unparsable timestamp is daytime. |
| Buckets.SortBy | Weathery/ViewModel/WeatherViewModel.swift:59-61 | The sorted samples are in ascending key order and are a permutation of the input. |
| Buckets.SortByStable | Weathery/ViewModel/WeatherViewModel.swift:59-61 | The sort is stable: for every key, the elements with that key appear in the result in the same order as in the input. |
| Buckets.AddToBucket | Weathery/ViewModel/WeatherViewModel.swift:64-67 | A skipped sample leaves the dictionary unchanged. Otherwise the key is added if it was missing, the sample becomes the last element of its bucket, and the elements before it are the old bucket, or none when the key was missing. Every other key keeps its bucket. |
| Buckets.AddToBucketStep | Weathery/ViewModel/WeatherViewModel.swift:67 | `grouped[day, default: []].append(x)` turns the selections of a prefix into the selections of the prefix extended by x. |
| Buckets.SelectCount | Weathery/ViewModel/WeatherViewModel.swift:63-67 | A bucket holds x as often as the input does when x carries the bucket's label, and never otherwise. |
| Buckets.SelectSorted | Weathery/ViewModel/WeatherViewModel.swift:59-67 | Appending in sorted order keeps each bucket sorted. |
| Buckets.SelectEmpty | Weathery/ViewModel/WeatherViewModel.swift:77-81 | A bucket is missing exactly when no sample carries its label. |
| DateFormat.Parse | Weathery/ViewModel/WeatherViewModel.swift:49-50 | A parse succeeds only on a string of the fixed shape, and only with an in-range date and time. |
| DateFormat.ParseFormat | Weathery/ViewModel/WeatherViewModel.swift:49-50 | Formatting a valid date and time and parsing it back gives the same value. |
| DateFormat.FormatParse | Weathery/ViewModel/WeatherViewModel.swift:49-50 | Whatever parses is the canonical formatting of its value. |
| DateFormat.StartOfDay | Weathery/ViewModel/WeatherViewModel.swift:57 | The start of today is a midnight, and every valid time of the day lies in the 86400 seconds from it. |
| DateFormat.NextDayInMonth | Weathery/ViewModel/WeatherViewModel.swift:57-65 | The next day of a month has the next day number. |
| DateFormat.NextMonth | Weathery/ViewModel/WeatherViewModel.swift:57-65 | The first of a month follows the last day of the month before, in the same year. |
| DateFormat.MarchFollowsFebruary | Weathery/ViewModel/WeatherViewModel.swift:57-65 | The 1st of March follows the 28th or, in a leap year, the 29th of February. |
| DateFormat.ShiftedYearLength | Weathery/ViewModel/WeatherViewModel.swift:57-65 | The year from March to February has 366 days exactly when it ends in a leap year. |
| DateFormat.NextYear | Weathery/ViewModel/WeatherViewModel.swift:57-65 | The 1st of January follows the 31st of December. |
| DateFormat.DaysOfMonthOrdered | Weathery/ViewModel/WeatherViewModel.swift:57-65 | Within a month, the day number moves one for one with the day. |
| DateFormat.MonthsOrdered | Weathery/ViewModel/WeatherViewModel.swift:57-65 | The last day of a month has a smaller day number than the 1st of every later month of the same year. |
| DateFormat.YearsOrdered | Weathery/ViewModel/WeatherViewModel.swift:57-65 | The 31st of December of a year has a smaller day number than the 1st of January of every later year. |
| DateFormat.DayOfOrdered | Weathery/ViewModel/WeatherViewModel.swift:57-65 | Of two valid dates, the earlier one has the smaller day number. |
| DateFormat.InstantOrder | Weathery/ViewModel/WeatherViewModel.swift:59-65 | For valid values, one instant is smaller than another exactly when its date and time come first. Two instants are equal only for equal values. The sort and the "not before today" test therefore compare dates as `Date` does. |
| DateFormat.NextDayWeekday | Weathery/ViewModel/WeatherViewModel.swift:66 | One day later is the next weekday, with Saturday followed by Sunday. |
| DateFormat.WeekdayName | Weathery/ViewModel/WeatherViewModel.swift:66 | The "EEEE" name of a date is one of the table's seven names. |
| DateFormat.WeekdayIndex | Weathery/ViewModel/WeatherViewModel.swift:66 | The weekday of a date is one of 0..6, with Sunday = 0. |
| DateFormat.CalendarWeekday | Weathery/ViewModel/WeatherViewModel.swift:72 | `.weekday` is one of 1..7. |
| DateFormat.KnownWeekday | Weathery/ViewModel/WeatherViewModel.swift:52-54 | 1970-01-01 is day 0. 2024-09-10 is day 19976 and is named "Вторник". |
| ForecastGrouping.NotBeforeTodayIsDayComparison | Weathery/ViewModel/WeatherViewModel.swift:57-65 | A date is at or after the start of today exactly when it lies on today's calendar day or later, so earlier hours of today are kept. |
| ForecastGrouping.DayLabelMeaning | Weathery/ViewModel/WeatherViewModel.swift:63-67 | A sample gets a label exactly when it parses and is dated today or later. The label is then its weekday name. |
| ForecastGrouping.LabelsNameWeekdays | Weathery/ViewModel/WeatherViewModel.swift:66 | Every label is one of the table's weekday names. |
| ForecastGrouping.WeekdayAtOffset | Weathery/ViewModel/WeatherViewModel.swift:73-75 | The weekday k days after today's is `day` exactly when `day`'s offset from today is k. |
| ForecastGrouping.WeekdayOffsetInRange | Weathery/ViewModel/WeatherViewModel.swift:73-75 | Every weekday name occurs among the seven ordered weekdays. |
| ForecastGrouping.WeekdayNameAfter | Weathery/ViewModel/WeatherViewModel.swift:72-75 | A date q < 7 days after today is named by the weekday q places after today's. |
| ForecastGrouping.DayBucketsShape | Weathery/ViewModel/WeatherViewModel.swift:77-82 | Walked from offset k, the specification has at most 7 - k entries. Each entry is a non-empty selection under its own label, at an offset of at least k. The offsets strictly increase. |
| ForecastGrouping.DayBucketsCount | Weathery/ViewModel/WeatherViewModel.swift:77-82 | How often the entries from offset k on hold x, by x's label. |
| ForecastGrouping.BucketOfDayBuckets | Weathery/ViewModel/WeatherViewModel.swift:77-82 | The entry labelled `day` holds exactly the selection for `day`. |
| ForecastGrouping.BucketsOfOthers | Weathery/ViewModel/WeatherViewModel.swift:77-82 | No entry labelled `day` appears past `day`'s offset. |
| ForecastGrouping.GroupByDayLabels | Weathery/ViewModel/WeatherViewModel.swift:63-82 | Every sample of the result is taken from the input, is dated today or later, and sits under its own weekday name. |
| ForecastGrouping.GroupByDayBucketsSorted | Weathery/ViewModel/WeatherViewModel.swift:59-67 | Every bucket is in ascending time order. |
| ForecastGrouping.GroupByDayShape | Weathery/ViewModel/WeatherViewModel.swift:72-82 | At most seven entries, none of them empty, with pairwise distinct labels. The entry labelled d is today's weekday plus d's offset, and the offsets strictly increase, so the entries follow the weekday order from today. |
| ForecastGrouping.GroupByDayPartition | Weathery/ViewModel/WeatherViewModel.swift:63-70 | The buckets together hold every kept sample exactly as often as the input does, and nothing else. So they are a permutation of the samples the loop appends. |
| ForecastGrouping.GroupByDayPlacesEachSample | Weathery/ViewModel/WeatherViewModel.swift:63-82 | A kept sample of the input lies in exactly one entry: the one labelled with its weekday name. |
| ForecastGrouping.GroupByDayEmpty | Weathery/ViewModel/WeatherViewModel.swift:46-83 | The result is empty exactly when no sample is kept. An empty input gives an empty result. |
| ForecastGrouping.LoneUnparsableSampleIsSkipped | Weathery/ViewModel/WeatherViewModel.swift:59-64 | A single sample whose `dt_txt` does not parse is not compared by the sort and is skipped by the loop, so the result is empty. |
| ForecastGrouping.GroupByDayWithinWeek | Weathery/ViewModel/WeatherViewModel.swift:72-82 | When every kept sample lies fewer than seven days ahead, each sample of an entry is dated exactly that entry's offset days after today. |
| ForecastGrouping.DayOfSampleUnderLabel | Weathery/ViewModel/WeatherViewModel.swift:66-75 | A sample under label `day` that lies fewer than seven days ahead is dated exactly `day`'s offset days after today. |
| ForecastGrouping.GroupByDayRegroup | Weathery/ViewModel/WeatherViewModel.swift:46-83 | Every sample of the result parses. Grouping the flattened result again gives each label the same samples as before, each as often. |
| ViewModelProperties.IconNameIsTableLookup | Weathery/ViewModel/WeatherViewModel.swift:85-102 | The switch equals a lookup on the lowercased condition: "clear" by the daytime flag, the other keywords through a fixed table, anything else cloudy. |
| ViewModelProperties.IconDependsOnDaytimeOnlyForClear | Weathery/ViewModel/WeatherViewModel.swift:86-88 | The icon changes with the flag exactly when the condition lowercases to "clear". Then it is the day or the night icon. |
| ViewModelProperties.UnknownConditionIsCloudy | Weathery/ViewModel/WeatherViewModel.swift:99-100 | A condition that names no keyword gets "weather_cloudy_icon". |
| ViewModelProperties.IconPreimages | Weathery/ViewModel/WeatherViewModel.swift:86-101 | For each of the seven assets, an iff that says exactly which lowercased conditions select it. |
| ViewModelProperties.LowercasedForgetsCase | Weathery/ViewModel/WeatherViewModel.swift:86 | Lowercasing is idempotent, and it gives the same result on the uppercased string. |
| ViewModelProperties.IconNameIgnoresCase | Weathery/ViewModel/WeatherViewModel.swift:86 | The uppercased, lowercased and original conditions select the same icon. |
| ViewModelProperties.IconExamples | Weathery/ViewModel/WeatherViewModel.swift:85-102 | "Clear" by day and by night, "Thunderstorm" and an unknown "Drizzle". |
| ViewModelProperties.EmptySunWindowIsNight | Weathery/ViewModel/WeatherViewModel.swift:104-110 | When sunrise >= sunset, no time is daytime. |
| ViewModelProperties.SunWindowIsHalfOpen | Weathery/ViewModel/WeatherViewModel.swift:104-110 | Sunrise itself is daytime; sunset itself is not. |
| ViewModelProperties.ForecastDaytimeIsHourWindow | Weathery/ViewModel/WeatherViewModel.swift:112-120 | For any formatted valid timestamp, daytime holds exactly when 6 <= hour < 18. |
| ViewModelProperties.ForecastDaytimeMeaning | Weathery/ViewModel/WeatherViewModel.swift:112-120 | Daytime holds exactly when the parse fails or the parsed hour lies in [6, 18). |
| ViewModelProperties.SixOClockIsDay | Weathery/ViewModel/WeatherViewModel.swift:117 | "2024-09-10 06:00:00" is daytime. |
| ViewModelProperties.EighteenOClockIsNight | Weathery/ViewModel/WeatherViewModel.swift:117 | "2024-09-10 18:00:00" is not daytime. |
| ViewModelProperties.JustBeforeSixIsNight | Weathery/ViewModel/WeatherViewModel.swift:117 | "2024-09-10 05:59:59" is not daytime. |
| ViewModelProperties.UnparsableIsDay | Weathery/ViewModel/WeatherViewModel.swift:119 | "not-a-date" is daytime. |
| WeatherUtils.IsCurrentWeatherDaytime | Weathery/Utilits/WeatherUtils.swift:11-17 | True exactly when sunrise <= dt < sunset. |
| WeatherUtils.IsForecastDaytime | Weathery/Utilits/WeatherUtils.swift:19-27 | An unparsable timestamp is daytime. Otherwise daytime holds exactly when the parsed hour is in [6, 18). |
| WeatherUtils.CurrentWeatherDaytimeCopiesAgree | Weathery/Utilits/WeatherUtils.swift:11-17 | Equals the view model's sun-window test on every record. |
| WeatherUtils.ForecastDaytimeCopiesAgree | Weathery/Utilits/WeatherUtils.swift:19-27 | Equals the view model's hour test on every sample. |
| CityWeatherCell.IsDaytime | Weathery/Cell/CityWeatherCell.swift:69-75 | True exactly when sunrise <= dt < sunset. |
| CityWeatherCell.DaytimeCopiesAgree | Weathery/Cell/CityWeatherCell.swift:69-75 | Equals both other sun-window tests on every record. |
| CityWeatherCell.ConfiguredIcon | Weathery/Cell/CityWeatherCell.swift:63-66 | No icon is set exactly when the record lists no condition. Otherwise the icon is one of the seven assets. |
| CityWeatherCell.ClearSkyIconFollowsSun | Weathery/Cell/CityWeatherCell.swift:63-75 | A "clear" record shows the day icon inside its sun window and the night icon outside it. |

## Left out

- Networking, the fetch methods and their callbacks (`fetchWeather`, `fetchForecast`, `onWeatherUpdate`, `onError`): I/O, outside the computation.
- The view controllers, cells and layout, apart from the cell's daytime test and icon choice: UI only.
- Temperatures, wind and the other display fields: the core does not read them; display formatting uses floating point.
- `Date()` is not read from a clock: the current local time is the parameter `now`.
- Time zones and daylight-saving time are not modelled. Local time is a uniform 86400-second day line, days are proleptic Gregorian, and years run from 1 to 9999.
- A DateFormatter with a lenient or locale-dependent reading is not modelled. The parser accepts exactly the fixed-width fields of "yyyy-MM-dd HH:mm:ss" with in-range values.
- `Date(timeIntervalSince1970:)` converts an `Int` to a `Double`. The model converts exactly; the two differ only beyond 2^53 seconds.
- Swift's `sorted` does not document stability. The model uses a stable sort, so samples with equal timestamps keep their input order.
- WeatherViewModel.Lowercased: lowercases ASCII letters only. Every keyword is ASCII, and no other character of Unicode lowercases into an ASCII letter of a keyword.
- WeatherViewModel.GroupForecastsByDay: with two or more samples, a `dt_txt` that does not parse traps in the sort comparator at lines 59-61, which force-unwraps both parses. The model states "a single sample, or every `dt_txt` parses" as a precondition, and the trap is not modelled. No recovery for unparsable samples is modelled. The loop's own skip of an unparsable sample (line 64) is modelled; it is reached when the input has one sample.
- The weekday names are a parameter (`WeekdayTable`) in the grouping lemmas; ICU's ru_RU data is not part of this model beyond the seven names, given already capitalised. The table holds the format-context names that both "EEEE" and `weekdaySymbols` return.
- The `WeatherData` and `DayWeather` declarations are not part of this model. Their fields follow the API's JSON names and the uses in the core.
- An end-to-end run of `GroupByDay` on concrete samples is not included; the grouping is characterised by the lemmas of `ForecastGrouping` instead.
