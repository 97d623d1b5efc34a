/**
 * What `groupForecastsByDay` (Weathery/ViewModel/WeatherViewModel.swift:46-83)
 * guarantees, proved about its specification GroupByDay, which the method
 * GroupForecastsByDay is proved to compute. The lemmas hold for the weekday
 * names of any locale (a WeekdayTable); the app's are those of ru_RU.
 */
module ForecastGrouping {
  import opened Wrappers
  import opened Model
  import opened DateFormat
  import opened Buckets
  import opened WeatherViewModel

  /** All samples of the result, bucket after bucket. */
  function Flatten(days: seq<DayWeather>): seq<ForecastList> {
    if days == [] then [] else days[0].hourlyForecasts + Flatten(days[1..])
  }

  /** A sample the grouping keeps: its `dt_txt` parses to a date on today's calendar day or later. */
  predicate Kept(x: ForecastList, now: LocalDateTime) {
    Parse(x.dtTxt).Some? && DayOf(Parse(x.dtTxt).value) >= DayOf(now)
  }

  /** `x` belongs under the label `day`: it is kept, and `day` is the name of its weekday. */
  predicate BelongsTo(x: ForecastList, now: LocalDateTime, symbols: WeekdayTable, day: string) {
    Kept(x, now) && WeekdayName(symbols, Parse(x.dtTxt).value) == day
  }

  /** `x` is dated on the day with number `d`. */
  predicate OnDay(x: ForecastList, d: int) {
    Parse(x.dtTxt).Some? && DayOf(Parse(x.dtTxt).value) == d
  }

  /** The samples of the entry labelled `day`, or none when there is no such entry. */
  function BucketOf(days: seq<DayWeather>, day: string): seq<ForecastList> {
    if days == [] then []
    else if days[0].day == day then days[0].hourlyForecasts
    else BucketOf(days[1..], day)
  }

  /**
   * How many days after today's weekday `day` comes: the first k from 0 on
   * whose weekday name it is, or 7 when it names no weekday.
   */
  function LabelOffset(day: string, symbols: WeekdayTable, todayIndex: int): (o: int)
    ensures 0 <= o <= 7
  {
    OffsetFrom(day, symbols, todayIndex, 0)
  }

  function OffsetFrom(day: string, symbols: WeekdayTable, todayIndex: int, k: nat): (o: int)
    ensures k <= o <= 7 || (k > 7 && o == 7)
    decreases 7 - k
  {
    if k >= 7 then 7
    else if WeekdayAfter(symbols, todayIndex, k) == day then k
    else OffsetFrom(day, symbols, todayIndex, k + 1)
  }

  // ---------------------------------------------------------------------------
  // Offsets of weekday names

  lemma {:induction false} OffsetFromFound(day: string, symbols: WeekdayTable, todayIndex: int, k: nat)
    requires k <= 7
    ensures OffsetFrom(day, symbols, todayIndex, k) < 7 ==>
      WeekdayAfter(symbols, todayIndex, OffsetFrom(day, symbols, todayIndex, k)) == day
    ensures forall q :: k <= q < OffsetFrom(day, symbols, todayIndex, k) ==>
      WeekdayAfter(symbols, todayIndex, q) != day
    decreases 7 - k
  {
    if k < 7 && WeekdayAfter(symbols, todayIndex, k) != day {
      OffsetFromFound(day, symbols, todayIndex, k + 1);
    }
  }

  /** The weekday k days after today's has offset k. */
  lemma LabelOffsetOf(symbols: WeekdayTable, todayIndex: int, k: int)
    requires 0 <= todayIndex < 7 && 0 <= k < 7
    ensures LabelOffset(WeekdayAfter(symbols, todayIndex, k), symbols, todayIndex) == k
  {
    var day := WeekdayAfter(symbols, todayIndex, k);
    OffsetFromFound(day, symbols, todayIndex, 0);
    var o := LabelOffset(day, symbols, todayIndex);
    if o < k {
      WeekdaysAfterDistinct(symbols, todayIndex, o, k);
    }
  }

  /** The weekday k days after today's is `day` exactly when k is the offset of `day`. */
  lemma WeekdayAtOffset(symbols: WeekdayTable, todayIndex: int, k: int, day: string)
    requires 0 <= todayIndex < 7 && 0 <= k < 7
    ensures WeekdayAfter(symbols, todayIndex, k) == day <==> LabelOffset(day, symbols, todayIndex) == k
  {
    LabelOffsetOf(symbols, todayIndex, k);
    OffsetFromFound(day, symbols, todayIndex, 0);
  }

  /** Every weekday name has an offset below 7. */
  lemma WeekdayOffsetInRange(symbols: WeekdayTable, todayIndex: int, day: string)
    requires 0 <= todayIndex < 7 && day in symbols
    ensures LabelOffset(day, symbols, todayIndex) < 7
  {
    var i :| 0 <= i < 7 && symbols[i] == day;
    WeekdayAfterCovers(symbols, todayIndex, i);
    LabelOffsetOf(symbols, todayIndex, (i - todayIndex) % 7);
  }

  /** Weekday indices advance by one a day: an index q days on is q steps further round the week. */
  lemma WeekdayShift(d: int, today: int, q: int)
    requires 0 <= q < 7 && d == today + q
    ensures (d + 4) % 7 == ((today + 4) % 7 + q) % 7
  {
  }

  /** A date q days after `now`, for q below 7, is named by the weekday q days after today's. */
  lemma WeekdayNameAfter(symbols: WeekdayTable, now: LocalDateTime, t: LocalDateTime)
    requires 0 <= DayOf(t) - DayOf(now) < 7
    ensures WeekdayName(symbols, t) == WeekdayAfter(symbols, TodayIndex(now), DayOf(t) - DayOf(now))
  {
    WeekdayShift(DayOf(t), DayOf(now), DayOf(t) - DayOf(now));
  }

  // ---------------------------------------------------------------------------
  // The specification, walked from offset k

  /** Labels that are weekday names, as every label of LabelFor is. */
  ghost predicate NamesWeekdays(labelOf: ForecastList -> Option<string>, symbols: WeekdayTable) {
    forall x :: labelOf(x).Some? ==> labelOf(x).value in symbols
  }

  /**
   * An entry the specification emits when walking from offset k: a non-empty
   * selection under its own label, a weekday at least k days after today's.
   */
  ghost predicate EntryFrom(e: DayWeather, sorted: seq<ForecastList>, labelOf: ForecastList -> Option<string>,
                            symbols: WeekdayTable, todayIndex: int, k: int) {
    e.hourlyForecasts != [] && e.hourlyForecasts == Select(sorted, labelOf, e.day) &&
    k <= LabelOffset(e.day, symbols, todayIndex) < 7 &&
    e.day == WeekdayAfter(symbols, todayIndex, LabelOffset(e.day, symbols, todayIndex))
  }

  /**
   * The shape of the entries the specification emits from offset k on: at
   * most 7 - k of them, each an EntryFrom k, with strictly increasing offsets.
   */
  ghost predicate ShapedFrom(r: seq<DayWeather>, sorted: seq<ForecastList>, labelOf: ForecastList -> Option<string>,
                             symbols: WeekdayTable, todayIndex: int, k: int) {
    && |r| <= 7 - k
    && (forall j :: 0 <= j < |r| ==> EntryFrom(r[j], sorted, labelOf, symbols, todayIndex, k))
    && (forall i, j :: 0 <= i < j < |r| ==>
          LabelOffset(r[i].day, symbols, todayIndex) < LabelOffset(r[j].day, symbols, todayIndex))
  }

  lemma {:induction false} DayBucketsShape(sorted: seq<ForecastList>, labelOf: ForecastList -> Option<string>,
                                           symbols: WeekdayTable, todayIndex: int, k: nat)
    requires 0 <= todayIndex < 7 && k <= 7
    ensures ShapedFrom(DayBuckets(sorted, labelOf, symbols, todayIndex, k), sorted, labelOf, symbols, todayIndex, k)
    decreases 7 - k
  {
    if k < 7 {
      var day := WeekdayAfter(symbols, todayIndex, k);
      var bucket := Select(sorted, labelOf, day);
      var rest := DayBuckets(sorted, labelOf, symbols, todayIndex, k + 1);
      DayBucketsShape(sorted, labelOf, symbols, todayIndex, k + 1);
      if bucket == [] {
        ShapeSkip(rest, sorted, labelOf, symbols, todayIndex, k);
      } else {
        LabelOffsetOf(symbols, todayIndex, k);
        ShapeCons(DayWeather(day, bucket), rest, sorted, labelOf, symbols, todayIndex, k);
      }
    }
  }

  /** A shape from offset k + 1 is a shape from offset k. */
  lemma ShapeSkip(rest: seq<DayWeather>, sorted: seq<ForecastList>, labelOf: ForecastList -> Option<string>,
                  symbols: WeekdayTable, todayIndex: int, k: int)
    requires ShapedFrom(rest, sorted, labelOf, symbols, todayIndex, k + 1)
    ensures ShapedFrom(rest, sorted, labelOf, symbols, todayIndex, k)
  {
    forall j | 0 <= j < |rest| ensures EntryFrom(rest[j], sorted, labelOf, symbols, todayIndex, k) {
      assert EntryFrom(rest[j], sorted, labelOf, symbols, todayIndex, k + 1);
    }
  }

  /** An entry at offset k in front of a shape from offset k + 1 is a shape from offset k. */
  lemma ShapeCons(e: DayWeather, rest: seq<DayWeather>, sorted: seq<ForecastList>, labelOf: ForecastList -> Option<string>,
                  symbols: WeekdayTable, todayIndex: int, k: int)
    requires 0 <= k < 7 && ShapedFrom(rest, sorted, labelOf, symbols, todayIndex, k + 1)
    requires e.hourlyForecasts != [] && e.hourlyForecasts == Select(sorted, labelOf, e.day)
    requires e.day == WeekdayAfter(symbols, todayIndex, k) && LabelOffset(e.day, symbols, todayIndex) == k
    ensures ShapedFrom([e] + rest, sorted, labelOf, symbols, todayIndex, k)
  {
    ConsEntries(e, rest, sorted, labelOf, symbols, todayIndex, k);
    ConsOffsets(e, rest, sorted, labelOf, symbols, todayIndex, k);
  }

  lemma ConsEntries(e: DayWeather, rest: seq<DayWeather>, sorted: seq<ForecastList>, labelOf: ForecastList -> Option<string>,
                    symbols: WeekdayTable, todayIndex: int, k: int)
    requires forall j :: 0 <= j < |rest| ==> EntryFrom(rest[j], sorted, labelOf, symbols, todayIndex, k + 1)
    requires EntryFrom(e, sorted, labelOf, symbols, todayIndex, k)
    ensures forall j :: 0 <= j < |[e] + rest| ==> EntryFrom(([e] + rest)[j], sorted, labelOf, symbols, todayIndex, k)
  {
    var r := [e] + rest;
    forall j | 0 <= j < |r| ensures EntryFrom(r[j], sorted, labelOf, symbols, todayIndex, k) {
      if j > 0 {
        assert r[j] == rest[j - 1];
        assert EntryFrom(rest[j - 1], sorted, labelOf, symbols, todayIndex, k + 1);
      }
    }
  }

  lemma ConsOffsets(e: DayWeather, rest: seq<DayWeather>, sorted: seq<ForecastList>, labelOf: ForecastList -> Option<string>,
                    symbols: WeekdayTable, todayIndex: int, k: int)
    requires forall j :: 0 <= j < |rest| ==> EntryFrom(rest[j], sorted, labelOf, symbols, todayIndex, k + 1)
    requires forall i, j :: 0 <= i < j < |rest| ==>
      LabelOffset(rest[i].day, symbols, todayIndex) < LabelOffset(rest[j].day, symbols, todayIndex)
    requires LabelOffset(e.day, symbols, todayIndex) == k
    ensures forall i, j :: 0 <= i < j < |[e] + rest| ==>
      LabelOffset(([e] + rest)[i].day, symbols, todayIndex) < LabelOffset(([e] + rest)[j].day, symbols, todayIndex)
  {
    var r := [e] + rest;
    forall i, j | 0 <= i < j < |r|
      ensures LabelOffset(r[i].day, symbols, todayIndex) < LabelOffset(r[j].day, symbols, todayIndex)
    {
      assert r[j] == rest[j - 1];
      assert EntryFrom(rest[j - 1], sorted, labelOf, symbols, todayIndex, k + 1);
      if i > 0 {
        assert r[i] == rest[i - 1];
      }
    }
  }

  /** How often the specification emits `x` from offset k on: once per occurrence when its label lies at offset k or later. */
  lemma {:induction false} DayBucketsCount(sorted: seq<ForecastList>, labelOf: ForecastList -> Option<string>,
                                           symbols: WeekdayTable, todayIndex: int, k: nat, x: ForecastList)
    requires 0 <= todayIndex < 7 && k <= 7
    ensures multiset(Flatten(DayBuckets(sorted, labelOf, symbols, todayIndex, k)))[x] ==
      if labelOf(x).Some? && k <= LabelOffset(labelOf(x).value, symbols, todayIndex) < 7 then multiset(sorted)[x] else 0
    decreases 7 - k
  {
    if k < 7 {
      DayBucketsCount(sorted, labelOf, symbols, todayIndex, k + 1, x);
      CountOfStep(sorted, labelOf, symbols, todayIndex, k, x);
    }
  }

  /** One step of the walk: this step's bucket adds x's count exactly when x's label lies at offset k. */
  lemma CountOfStep(sorted: seq<ForecastList>, labelOf: ForecastList -> Option<string>,
                    symbols: WeekdayTable, todayIndex: int, k: nat, x: ForecastList)
    requires 0 <= todayIndex < 7 && k < 7
    requires multiset(Flatten(DayBuckets(sorted, labelOf, symbols, todayIndex, k + 1)))[x] ==
      if labelOf(x).Some? && k + 1 <= LabelOffset(labelOf(x).value, symbols, todayIndex) < 7 then multiset(sorted)[x] else 0
    ensures multiset(Flatten(DayBuckets(sorted, labelOf, symbols, todayIndex, k)))[x] ==
      if labelOf(x).Some? && k <= LabelOffset(labelOf(x).value, symbols, todayIndex) < 7 then multiset(sorted)[x] else 0
  {
    var day := WeekdayAfter(symbols, todayIndex, k);
    var bucket := Select(sorted, labelOf, day);
    var rest := DayBuckets(sorted, labelOf, symbols, todayIndex, k + 1);
    assert DayBuckets(sorted, labelOf, symbols, todayIndex, k) == (if bucket == [] then [] else [DayWeather(day, bucket)]) + rest;
    FlattenFront(day, bucket, rest);
    SelectCount(sorted, labelOf, day, x);
    var o := if labelOf(x).Some? then LabelOffset(labelOf(x).value, symbols, todayIndex) else 0;
    if labelOf(x).Some? {
      WeekdayAtOffset(symbols, todayIndex, k, labelOf(x).value);
    }
    assert multiset(bucket + Flatten(rest))[x] == multiset(bucket)[x] + multiset(Flatten(rest))[x];
    CountStep(multiset(bucket)[x], multiset(Flatten(rest))[x], multiset(sorted)[x], labelOf(x).Some?, o, k);
  }

  /** The count from offset k: this step's count when the label's offset is k, plus the count from k + 1. */
  lemma CountStep(here: int, later: int, m: int, labelled: bool, o: int, k: int)
    requires k < 7
    requires here == if labelled && o == k then m else 0
    requires later == if labelled && k + 1 <= o < 7 then m else 0
    ensures here + later == if labelled && k <= o < 7 then m else 0
  {
  }

  /** Flattening one walk step: the step's bucket, then the rest. */
  lemma FlattenFront(day: string, bucket: seq<ForecastList>, rest: seq<DayWeather>)
    ensures Flatten((if bucket == [] then [] else [DayWeather(day, bucket)]) + rest) == bucket + Flatten(rest)
  {
    var r := (if bucket == [] then [] else [DayWeather(day, bucket)]) + rest;
    if bucket == [] {
      assert r == rest;
    } else {
      assert r[0].hourlyForecasts == bucket && r[1..] == rest;
    }
  }

  lemma {:induction false} FlattenMember(days: seq<DayWeather>, x: ForecastList)
    requires x in Flatten(days)
    ensures exists j :: 0 <= j < |days| && x in days[j].hourlyForecasts
  {
    if x !in days[0].hourlyForecasts {
      FlattenMember(days[1..], x);
      var j :| 0 <= j < |days[1..]| && x in days[1..][j].hourlyForecasts;
      assert days[j + 1] == days[1..][j];
    }
  }

  /** The entry the specification emits for `day` holds the selection for `day`. */
  lemma {:induction false} BucketOfDayBuckets(sorted: seq<ForecastList>, labelOf: ForecastList -> Option<string>,
                                              symbols: WeekdayTable, todayIndex: int, k: nat, day: string)
    requires 0 <= todayIndex < 7 && k <= 7 && NamesWeekdays(labelOf, symbols)
    requires LabelOffset(day, symbols, todayIndex) >= k
    ensures BucketOf(DayBuckets(sorted, labelOf, symbols, todayIndex, k), day) == Select(sorted, labelOf, day)
    decreases 7 - k
  {
    if k < 7 {
      if LabelOffset(day, symbols, todayIndex) == k {
        BucketsOfOthers(sorted, labelOf, symbols, todayIndex, k + 1, day);
      } else {
        BucketOfDayBuckets(sorted, labelOf, symbols, todayIndex, k + 1, day);
      }
      BucketOfStep(sorted, labelOf, symbols, todayIndex, k, day);
    } else {
      NoSelectionPastWeek(sorted, labelOf, symbols, todayIndex, day);
    }
  }

  /** One step of the walk: the entry for `day` is emitted at its offset, or found further on. */
  lemma BucketOfStep(sorted: seq<ForecastList>, labelOf: ForecastList -> Option<string>,
                     symbols: WeekdayTable, todayIndex: int, k: nat, day: string)
    requires 0 <= todayIndex < 7 && k < 7 && LabelOffset(day, symbols, todayIndex) >= k
    requires BucketOf(DayBuckets(sorted, labelOf, symbols, todayIndex, k + 1), day) ==
             if LabelOffset(day, symbols, todayIndex) == k then [] else Select(sorted, labelOf, day)
    ensures BucketOf(DayBuckets(sorted, labelOf, symbols, todayIndex, k), day) == Select(sorted, labelOf, day)
  {
    var d := WeekdayAfter(symbols, todayIndex, k);
    var bucket := Select(sorted, labelOf, d);
    var rest := DayBuckets(sorted, labelOf, symbols, todayIndex, k + 1);
    var r := DayBuckets(sorted, labelOf, symbols, todayIndex, k);
    assert r == (if bucket == [] then [] else [DayWeather(d, bucket)]) + rest;
    WeekdayAtOffset(symbols, todayIndex, k, day);
    BucketOfFront(d, bucket, rest, day);
  }

  /** A name at offset 7 or more from today is no weekday's, so nothing is selected under it. */
  lemma NoSelectionPastWeek(sorted: seq<ForecastList>, labelOf: ForecastList -> Option<string>,
                            symbols: WeekdayTable, todayIndex: int, day: string)
    requires 0 <= todayIndex < 7 && NamesWeekdays(labelOf, symbols)
    requires LabelOffset(day, symbols, todayIndex) >= 7
    ensures Select(sorted, labelOf, day) == []
  {
    SelectEmpty(sorted, labelOf, day);
    forall i | 0 <= i < |sorted| ensures labelOf(sorted[i]) != Some(day) {
      if labelOf(sorted[i]).Some? {
        WeekdayOffsetInRange(symbols, todayIndex, labelOf(sorted[i]).value);
      }
    }
  }

  /** Past the offset of `day`, the specification emits no entry labelled `day`. */
  lemma {:induction false} BucketsOfOthers(sorted: seq<ForecastList>, labelOf: ForecastList -> Option<string>,
                                           symbols: WeekdayTable, todayIndex: int, k: nat, day: string)
    requires 0 <= todayIndex < 7 && k <= 7
    requires LabelOffset(day, symbols, todayIndex) < k
    ensures BucketOf(DayBuckets(sorted, labelOf, symbols, todayIndex, k), day) == []
    decreases 7 - k
  {
    if k < 7 {
      var d := WeekdayAfter(symbols, todayIndex, k);
      var bucket := Select(sorted, labelOf, d);
      var rest := DayBuckets(sorted, labelOf, symbols, todayIndex, k + 1);
      WeekdayAtOffset(symbols, todayIndex, k, day);
      BucketsOfOthers(sorted, labelOf, symbols, todayIndex, k + 1, day);
      BucketOfFront(d, bucket, rest, day);
    }
  }

  /** Looking up `day` in one walk step: the step's own entry when it has one labelled `day`, else the rest. */
  lemma BucketOfFront(d: string, bucket: seq<ForecastList>, rest: seq<DayWeather>, day: string)
    ensures BucketOf((if bucket == [] then [] else [DayWeather(d, bucket)]) + rest, day) ==
            if bucket != [] && d == day then bucket else BucketOf(rest, day)
  {
    var r := (if bucket == [] then [] else [DayWeather(d, bucket)]) + rest;
    if bucket == [] {
      assert r == rest;
    } else {
      assert r[0].day == d && r[1..] == rest;
    }
  }

  // ---------------------------------------------------------------------------
  // The label of a sample

  /** Line 65 compares instants, but with the start of today: later hours of today count as today. */
  lemma NotBeforeTodayIsDayComparison(t: LocalDateTime, now: LocalDateTime)
    requires ValidDateTime(t)
    ensures Instant(t) >= StartOfDay(now) <==> DayOf(t) >= DayOf(now)
  {
    var d, n := DayOf(t), DayOf(now);
    assert 0 <= SecondOfDay(t) < 86400;
    if d < n {
      assert d * 86400 <= n * 86400 - 86400;
    }
  }

  /** A sample has a label exactly when it is kept, and the label is its weekday name. */
  lemma DayLabelMeaning(x: ForecastList, now: LocalDateTime, symbols: WeekdayTable)
    ensures LabelFor(now, symbols)(x).Some? <==> Kept(x, now)
    ensures Kept(x, now) ==> LabelFor(now, symbols)(x).value == WeekdayName(symbols, Parse(x.dtTxt).value)
    ensures forall day :: LabelFor(now, symbols)(x) == Some(day) <==> BelongsTo(x, now, symbols, day)
  {
    if Parse(x.dtTxt).Some? {
      NotBeforeTodayIsDayComparison(Parse(x.dtTxt).value, now);
    }
  }

  lemma LabelsNameWeekdays(now: LocalDateTime, symbols: WeekdayTable)
    ensures NamesWeekdays(LabelFor(now, symbols), symbols)
  {
    forall x | LabelFor(now, symbols)(x).Some? ensures LabelFor(now, symbols)(x).value in symbols {
      DayLabelMeaning(x, now, symbols);
    }
  }

  // ---------------------------------------------------------------------------
  // The guarantees of groupForecastsByDay

  /**
   * Every sample of the result comes from the input, is dated today or later,
   * and sits in the bucket labelled with its own weekday name (lines 63-67, 77-82).
   */
  lemma GroupByDayLabels(forecasts: seq<ForecastList>, now: LocalDateTime, symbols: WeekdayTable)
    requires SortSucceeds(forecasts)
    ensures forall j, x ::
      0 <= j < |GroupByDay(forecasts, now, symbols)| && x in GroupByDay(forecasts, now, symbols)[j].hourlyForecasts ==>
        x in forecasts && BelongsTo(x, now, symbols, GroupByDay(forecasts, now, symbols)[j].day)
  {
    var sorted := SortByDate(forecasts);
    var labelOf := LabelFor(now, symbols);
    var r := GroupByDay(forecasts, now, symbols);
    assert r == DayBuckets(sorted, labelOf, symbols, TodayIndex(now), 0);
    DayBucketsShape(sorted, labelOf, symbols, TodayIndex(now), 0);
    forall j, x | 0 <= j < |r| && x in r[j].hourlyForecasts
      ensures x in forecasts && BelongsTo(x, now, symbols, r[j].day)
    {
      assert EntryFrom(r[j], sorted, labelOf, symbols, TodayIndex(now), 0);
      SelectMembers(sorted, labelOf, r[j].day);
      assert x in multiset(sorted);
      DayLabelMeaning(x, now, symbols);
    }
  }

  /** Each bucket is in ascending time order, as the sort left it (lines 59-67). */
  lemma GroupByDayBucketsSorted(forecasts: seq<ForecastList>, now: LocalDateTime, symbols: WeekdayTable)
    requires SortSucceeds(forecasts)
    ensures forall j :: 0 <= j < |GroupByDay(forecasts, now, symbols)| ==>
      SortedBy(GroupByDay(forecasts, now, symbols)[j].hourlyForecasts, TimeKey)
  {
    var sorted := SortByDate(forecasts);
    var labelOf := LabelFor(now, symbols);
    var r := GroupByDay(forecasts, now, symbols);
    assert r == DayBuckets(sorted, labelOf, symbols, TodayIndex(now), 0);
    DayBucketsShape(sorted, labelOf, symbols, TodayIndex(now), 0);
    forall j | 0 <= j < |r| ensures SortedBy(r[j].hourlyForecasts, TimeKey) {
      assert EntryFrom(r[j], sorted, labelOf, symbols, TodayIndex(now), 0);
      SelectSorted(sorted, labelOf, r[j].day, TimeKey);
    }
  }

  /**
   * At most seven entries, none empty, labels pairwise distinct, and the labels
   * in the order of the weekdays from today's on (lines 72-82): the entry
   * labelled `d` is the weekday `LabelOffset(d)` days after today's, and the
   * offsets strictly increase along the result.
   */
  lemma GroupByDayShape(forecasts: seq<ForecastList>, now: LocalDateTime, symbols: WeekdayTable)
    requires SortSucceeds(forecasts)
    ensures |GroupByDay(forecasts, now, symbols)| <= 7
    ensures forall j :: 0 <= j < |GroupByDay(forecasts, now, symbols)| ==>
      GroupByDay(forecasts, now, symbols)[j].hourlyForecasts != [] &&
      LabelOffset(GroupByDay(forecasts, now, symbols)[j].day, symbols, TodayIndex(now)) < 7 &&
      GroupByDay(forecasts, now, symbols)[j].day ==
        WeekdayAfter(symbols, TodayIndex(now), LabelOffset(GroupByDay(forecasts, now, symbols)[j].day, symbols, TodayIndex(now)))
    ensures forall i, j :: 0 <= i < j < |GroupByDay(forecasts, now, symbols)| ==>
      LabelOffset(GroupByDay(forecasts, now, symbols)[i].day, symbols, TodayIndex(now)) <
      LabelOffset(GroupByDay(forecasts, now, symbols)[j].day, symbols, TodayIndex(now))
    ensures forall i, j :: 0 <= i < j < |GroupByDay(forecasts, now, symbols)| ==>
      GroupByDay(forecasts, now, symbols)[i].day != GroupByDay(forecasts, now, symbols)[j].day
  {
    var sorted := SortByDate(forecasts);
    var labelOf := LabelFor(now, symbols);
    var r := GroupByDay(forecasts, now, symbols);
    var ti := TodayIndex(now);
    assert r == DayBuckets(sorted, labelOf, symbols, ti, 0);
    DayBucketsShape(sorted, labelOf, symbols, ti, 0);
    forall j | 0 <= j < |r|
      ensures r[j].hourlyForecasts != [] && LabelOffset(r[j].day, symbols, ti) < 7 &&
              r[j].day == WeekdayAfter(symbols, ti, LabelOffset(r[j].day, symbols, ti))
    {
      assert EntryFrom(r[j], sorted, labelOf, symbols, ti, 0);
    }
  }

  /**
   * The buckets together hold exactly the kept samples, each as often as in
   * the input: they are a permutation of the samples the loop appends.
   */
  lemma GroupByDayPartition(forecasts: seq<ForecastList>, now: LocalDateTime, symbols: WeekdayTable)
    requires SortSucceeds(forecasts)
    ensures forall x ::
      multiset(Flatten(GroupByDay(forecasts, now, symbols)))[x] == if Kept(x, now) then multiset(forecasts)[x] else 0
    ensures multiset(Flatten(GroupByDay(forecasts, now, symbols))) == multiset(Labelled(forecasts, LabelFor(now, symbols)))
  {
    var sorted := SortByDate(forecasts);
    var labelOf := LabelFor(now, symbols);
    var r := GroupByDay(forecasts, now, symbols);
    assert r == DayBuckets(sorted, labelOf, symbols, TodayIndex(now), 0);
    forall x ensures multiset(Flatten(r))[x] == if Kept(x, now) then multiset(forecasts)[x] else 0 {
      DayBucketsCount(sorted, labelOf, symbols, TodayIndex(now), 0, x);
      DayLabelMeaning(x, now, symbols);
      if labelOf(x).Some? {
        WeekdayOffsetInRange(symbols, TodayIndex(now), labelOf(x).value);
      }
    }
    var a, b := multiset(Flatten(r)), multiset(Labelled(forecasts, labelOf));
    forall x ensures b[x] == if Kept(x, now) then multiset(forecasts)[x] else 0 {
      LabelledKept(forecasts, now, symbols, x);
    }
    MultisetExtensional(a, b);
  }

  /** The samples the loop appends are the kept ones. */
  lemma LabelledKept(forecasts: seq<ForecastList>, now: LocalDateTime, symbols: WeekdayTable, x: ForecastList)
    ensures multiset(Labelled(forecasts, LabelFor(now, symbols)))[x] == if Kept(x, now) then multiset(forecasts)[x] else 0
  {
    LabelledCount(forecasts, LabelFor(now, symbols), x);
    DayLabelMeaning(x, now, symbols);
  }

  /**
   * A sample of the input that is kept lies in exactly one entry of the
   * result, the one labelled with its weekday name.
   */
  lemma GroupByDayPlacesEachSample(forecasts: seq<ForecastList>, now: LocalDateTime, symbols: WeekdayTable,
                                   x: ForecastList)
    requires SortSucceeds(forecasts) && x in forecasts && Kept(x, now)
    ensures exists j ::
      && 0 <= j < |GroupByDay(forecasts, now, symbols)|
      && x in GroupByDay(forecasts, now, symbols)[j].hourlyForecasts
      && BelongsTo(x, now, symbols, GroupByDay(forecasts, now, symbols)[j].day)
    ensures forall i, j ::
      && 0 <= i < |GroupByDay(forecasts, now, symbols)| && 0 <= j < |GroupByDay(forecasts, now, symbols)|
      && x in GroupByDay(forecasts, now, symbols)[i].hourlyForecasts
      && x in GroupByDay(forecasts, now, symbols)[j].hourlyForecasts
      ==> i == j
  {
    var r := GroupByDay(forecasts, now, symbols);
    GroupByDayPartition(forecasts, now, symbols);
    assert x in multiset(Flatten(r));
    FlattenMember(r, x);
    GroupByDayLabels(forecasts, now, symbols);
    GroupByDayShape(forecasts, now, symbols);
  }

  /** There is no entry exactly when no sample is kept; in particular for an empty input. */
  lemma GroupByDayEmpty(forecasts: seq<ForecastList>, now: LocalDateTime, symbols: WeekdayTable)
    requires SortSucceeds(forecasts)
    ensures GroupByDay(forecasts, now, symbols) == [] <==> forall i :: 0 <= i < |forecasts| ==> !Kept(forecasts[i], now)
    ensures forecasts == [] ==> GroupByDay(forecasts, now, symbols) == []
  {
    var r := GroupByDay(forecasts, now, symbols);
    GroupByDayPartition(forecasts, now, symbols);
    if r != [] {
      GroupByDayShape(forecasts, now, symbols);
      var x := r[0].hourlyForecasts[0];
      assert Flatten(r) == r[0].hourlyForecasts + Flatten(r[1..]);
      assert multiset(Flatten(r))[x] > 0;
      assert x in multiset(forecasts);
      var i :| 0 <= i < |forecasts| && forecasts[i] == x;
      assert Kept(forecasts[i], now);
    } else {
      forall i | 0 <= i < |forecasts| ensures !Kept(forecasts[i], now) {
        assert multiset(Flatten(r))[forecasts[i]] == 0;
      }
    }
  }

  /**
   * A lone sample whose `dt_txt` does not parse is not compared by the sort
   * and is skipped by the loop (line 64): the result is empty.
   */
  lemma LoneUnparsableSampleIsSkipped(x: ForecastList, now: LocalDateTime, symbols: WeekdayTable)
    requires Parse(x.dtTxt).None?
    ensures GroupByDay([x], now, symbols) == []
  {
    GroupByDayEmpty([x], now, symbols);
    assert !Kept([x][0], now);
  }

  /**
   * When no kept sample lies seven or more days after today, as with the
   * five-day forecast the app requests, each entry holds the samples of one
   * calendar day: the day `LabelOffset` days after today. With the offsets
   * increasing, the entries are then in calendar order.
   */
  lemma GroupByDayWithinWeek(forecasts: seq<ForecastList>, now: LocalDateTime, symbols: WeekdayTable,
                              j: int, x: ForecastList)
    requires SortSucceeds(forecasts)
    requires forall i :: 0 <= i < |forecasts| && Kept(forecasts[i], now) ==>
      DayOf(Parse(forecasts[i].dtTxt).value) < DayOf(now) + 7
    requires 0 <= j < |GroupByDay(forecasts, now, symbols)| && x in GroupByDay(forecasts, now, symbols)[j].hourlyForecasts
    ensures OnDay(x, DayOf(now) + LabelOffset(GroupByDay(forecasts, now, symbols)[j].day, symbols, TodayIndex(now)))
  {
    var r := GroupByDay(forecasts, now, symbols);
    GroupByDayLabels(forecasts, now, symbols);
    assert x in forecasts && BelongsTo(x, now, symbols, r[j].day);
    var i :| 0 <= i < |forecasts| && forecasts[i] == x;
    assert Kept(forecasts[i], now);
    DayOfSampleUnderLabel(x, now, symbols, r[j].day);
  }

  /** A sample under label `day`, fewer than seven days ahead, lies `day`'s offset days after today. */
  lemma DayOfSampleUnderLabel(x: ForecastList, now: LocalDateTime, symbols: WeekdayTable, day: string)
    requires BelongsTo(x, now, symbols, day) && DayOf(Parse(x.dtTxt).value) < DayOf(now) + 7
    ensures OnDay(x, DayOf(now) + LabelOffset(day, symbols, TodayIndex(now)))
  {
    var t := Parse(x.dtTxt).value;
    WeekdayNameAfter(symbols, now, t);
    WeekdayAtOffset(symbols, TodayIndex(now), DayOf(t) - DayOf(now), day);
  }

  /**
   * Grouping the flattened result again puts every sample under the same
   * label: each label's bucket holds the same samples, as often as before.
   */
  lemma GroupByDayRegroup(forecasts: seq<ForecastList>, now: LocalDateTime, symbols: WeekdayTable)
    requires SortSucceeds(forecasts)
    ensures AllParse(Flatten(GroupByDay(forecasts, now, symbols)))
    ensures forall day :: multiset(BucketOf(GroupByDay(Flatten(GroupByDay(forecasts, now, symbols)), now, symbols), day)) ==
      multiset(BucketOf(GroupByDay(forecasts, now, symbols), day))
  {
    var r := GroupByDay(forecasts, now, symbols);
    var flat := Flatten(r);
    var labelOf := LabelFor(now, symbols);
    var ti := TodayIndex(now);
    GroupByDayPartition(forecasts, now, symbols);
    forall i | 0 <= i < |flat| ensures Parse(flat[i].dtTxt).Some? {
      assert multiset(flat)[flat[i]] > 0;
      assert Kept(flat[i], now);
    }
    assert AllParse(flat) && SortSucceeds(flat);
    var r2 := GroupByDay(flat, now, symbols);
    assert r == DayBuckets(SortByDate(forecasts), labelOf, symbols, ti, 0);
    assert r2 == DayBuckets(SortByDate(flat), labelOf, symbols, ti, 0);
    LabelsNameWeekdays(now, symbols);
    forall day ensures multiset(BucketOf(r2, day)) == multiset(BucketOf(r, day)) {
      BucketOfDayBuckets(SortByDate(flat), labelOf, symbols, ti, 0, day);
      BucketOfDayBuckets(SortByDate(forecasts), labelOf, symbols, ti, 0, day);
      SelectPermutation(SortByDate(flat), flat, labelOf, day);
      SelectPermutation(SortByDate(forecasts), forecasts, labelOf, day);
      var a, b := multiset(Select(flat, labelOf, day)), multiset(Select(forecasts, labelOf, day));
      forall x ensures a[x] == b[x] {
        SelectCount(flat, labelOf, day, x);
        SelectCount(forecasts, labelOf, day, x);
        DayLabelMeaning(x, now, symbols);
      }
      MultisetExtensional(a, b);
    }
  }
}
