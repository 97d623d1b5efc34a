/**
 * The part of Foundation the core relies on, written out: a DateFormatter
 * with the fixed format "yyyy-MM-dd HH:mm:ss", the Gregorian calendar of
 * `Calendar.current` (day numbers, start of day, the `.weekday` and `.hour`
 * components) and the "EEEE" weekday names of the ru_RU locale.
 *
 * Local times are treated as wall-clock values of a uniform 86400-second day:
 * there is no time zone and no daylight-saving transition.
 */
module DateFormat {
  import opened Wrappers

  /** A local date and time as the formatter reads it from a string. */
  datatype LocalDateTime = LocalDateTime(year: int, month: int, day: int, hour: int, minute: int, second: int)

  predicate IsLeapYear(y: int) {
    y % 4 == 0 && (y % 100 != 0 || y % 400 == 0)
  }

  function DaysInMonth(y: int, m: int): int {
    if m == 2 then (if IsLeapYear(y) then 29 else 28)
    else if m == 4 || m == 6 || m == 9 || m == 11 then 30
    else 31
  }

  /** The dates and times a strict (non-lenient) formatter accepts for this format. */
  predicate ValidDateTime(t: LocalDateTime) {
    1 <= t.year <= 9999 && 1 <= t.month <= 12 && 1 <= t.day <= DaysInMonth(t.year, t.month) &&
    0 <= t.hour < 24 && 0 <= t.minute < 60 && 0 <= t.second < 60
  }

  // ---------------------------------------------------------------------------
  // Decimal fields

  predicate IsDigit(c: char) { '0' <= c <= '9' }

  function DigitValue(c: char): (d: nat)
    requires IsDigit(c)
    ensures d < 10
  {
    c as int - '0' as int
  }

  function DigitChar(d: nat): (c: char)
    requires d < 10
    ensures IsDigit(c) && DigitValue(c) == d
  {
    ('0' as int + d) as char
  }

  /** The value of the two-digit field at `s[i..i + 2]`. */
  function Number2(s: string, i: nat): (n: nat)
    requires i + 2 <= |s| && IsDigit(s[i]) && IsDigit(s[i + 1])
    ensures n < 100
  {
    10 * DigitValue(s[i]) + DigitValue(s[i + 1])
  }

  /** The value of the four-digit field at `s[i..i + 4]`. */
  function Number4(s: string, i: nat): (n: nat)
    requires i + 4 <= |s| && IsDigit(s[i]) && IsDigit(s[i + 1]) && IsDigit(s[i + 2]) && IsDigit(s[i + 3])
    ensures n < 10000
  {
    100 * Number2(s, i) + Number2(s, i + 2)
  }

  /** `n` written with two digits, with a leading zero below 10. */
  function Pad2(n: nat): (s: string)
    requires n < 100
    ensures |s| == 2 && IsDigit(s[0]) && IsDigit(s[1])
  {
    [DigitChar(n / 10), DigitChar(n % 10)]
  }

  /** `n` written with four digits, with leading zeros. */
  function Pad4(n: nat): (s: string)
    requires n < 10000
    ensures |s| == 4 && IsDigit(s[0]) && IsDigit(s[1]) && IsDigit(s[2]) && IsDigit(s[3])
  {
    Pad2(n / 100) + Pad2(n % 100)
  }

  // ---------------------------------------------------------------------------
  // The formatter

  predicate DigitsAt2(s: string, i: nat) {
    i + 2 <= |s| && IsDigit(s[i]) && IsDigit(s[i + 1])
  }

  /** The separators and digit runs of "yyyy-MM-dd HH:mm:ss". */
  predicate HasFixedShape(s: string) {
    |s| == 19 &&
    IsDigit(s[0]) && IsDigit(s[1]) && IsDigit(s[2]) && IsDigit(s[3]) && s[4] == '-' &&
    DigitsAt2(s, 5) && s[7] == '-' && DigitsAt2(s, 8) && s[10] == ' ' &&
    DigitsAt2(s, 11) && s[13] == ':' && DigitsAt2(s, 14) && s[16] == ':' && DigitsAt2(s, 17)
  }

  /** `DateFormatter.date(from:)` for the format "yyyy-MM-dd HH:mm:ss"; `None` is Swift's nil. */
  function Parse(s: string): (r: Option<LocalDateTime>)
    ensures r.Some? ==> ValidDateTime(r.value)
    ensures !HasFixedShape(s) ==> r.None?
  {
    if !HasFixedShape(s) then None
    else
      var t := LocalDateTime(Number4(s, 0), Number2(s, 5), Number2(s, 8),
                             Number2(s, 11), Number2(s, 14), Number2(s, 17));
      if ValidDateTime(t) then Some(t) else None
  }

  /** `DateFormatter.string(from:)` for the same format. */
  function Format(t: LocalDateTime): (s: string)
    requires ValidDateTime(t)
    ensures |s| == 19
  {
    Pad4(t.year) + "-" + Pad2(t.month) + "-" + Pad2(t.day) + " " +
    Pad2(t.hour) + ":" + Pad2(t.minute) + ":" + Pad2(t.second)
  }

  /** Every valid date and time survives formatting and parsing back. */
  lemma ParseFormat(t: LocalDateTime)
    requires ValidDateTime(t)
    ensures Parse(Format(t)) == Some(t)
  {
    var s := Format(t);
    assert s[0..4] == Pad4(t.year);
    assert s[5..7] == Pad2(t.month) && s[8..10] == Pad2(t.day);
    assert s[11..13] == Pad2(t.hour) && s[14..16] == Pad2(t.minute) && s[17..19] == Pad2(t.second);
  }

  lemma PadNumber2(s: string, i: nat)
    requires i + 2 <= |s| && IsDigit(s[i]) && IsDigit(s[i + 1])
    ensures Pad2(Number2(s, i)) == s[i..i + 2]
  {
    var n := Number2(s, i);
    assert n / 10 == DigitValue(s[i]) && n % 10 == DigitValue(s[i + 1]);
  }

  /** The parser accepts only canonical strings: whatever it reads is what formatting writes. */
  lemma FormatParse(s: string)
    requires Parse(s).Some?
    ensures Format(Parse(s).value) == s
  {
    var t := Parse(s).value;
    var y := Number4(s, 0);
    assert y / 100 == Number2(s, 0) && y % 100 == Number2(s, 2);
    PadNumber2(s, 0);
    PadNumber2(s, 2);
    PadNumber2(s, 5);
    PadNumber2(s, 8);
    PadNumber2(s, 11);
    PadNumber2(s, 14);
    PadNumber2(s, 17);
    assert Pad4(t.year) == s[0..2] + s[2..4];
    assert s == s[0..2] + s[2..4] + [s[4]] + s[5..7] + [s[7]] + s[8..10] + [s[10]] +
                s[11..13] + [s[13]] + s[14..16] + [s[16]] + s[17..19];
  }

  // ---------------------------------------------------------------------------
  // The calendar

  /** Days from 1970-01-01 to the given proleptic Gregorian date (negative before it). */
  function DayNumber(y: int, m: int, d: int): int {
    var y1 := if m <= 2 then y - 1 else y;
    var era := y1 / 400;
    var yoe := y1 - era * 400;
    var mp := (m + 9) % 12;
    var doy := (153 * mp + 2) / 5 + d - 1;
    var doe := yoe * 365 + yoe / 4 - yoe / 100 + doy;
    era * 146097 + doe - 719468
  }

  function DayOf(t: LocalDateTime): int {
    DayNumber(t.year, t.month, t.day)
  }

  function SecondOfDay(t: LocalDateTime): int {
    t.hour * 3600 + t.minute * 60 + t.second
  }

  /** The `Date` a local time denotes, in seconds on the local time line. */
  function Instant(t: LocalDateTime): int {
    DayOf(t) * 86400 + SecondOfDay(t)
  }

  /** `Calendar.startOfDay(for:)`: local midnight of the day of `t`. */
  function StartOfDay(t: LocalDateTime): (midnight: int)
    ensures midnight % 86400 == 0
    ensures ValidDateTime(t) ==> midnight <= Instant(t) < midnight + 86400
  {
    DayOf(t) * 86400
  }

  /** 0 for Sunday up to 6 for Saturday; 1970-01-01 was a Thursday. */
  function WeekdayIndex(t: LocalDateTime): (w: int)
    ensures 0 <= w < 7
  {
    (DayOf(t) + 4) % 7
  }

  /** `Calendar.component(.weekday, from:)` in the Gregorian calendar: 1 for Sunday. */
  function CalendarWeekday(t: LocalDateTime): (w: int)
    ensures 1 <= w <= 7
  {
    WeekdayIndex(t) + 1
  }

  // ---------------------------------------------------------------------------
  // The day line is chronological

  /** The next day of the same month is the next day number. */
  lemma NextDayInMonth(y: int, m: int, d: int)
    requires 1 <= m <= 12 && 1 <= d < DaysInMonth(y, m)
    ensures DayNumber(y, m, d + 1) == DayNumber(y, m, d) + 1
  {
  }

  /** The first of the next month follows the last of this one. */
  lemma NextMonth(y: int, m: int)
    requires 1 <= m < 12
    ensures DayNumber(y, m + 1, 1) == DayNumber(y, m, DaysInMonth(y, m)) + 1
  {
    if m == 2 {
      MarchFollowsFebruary(y);
    }
  }

  /** The 1st of March follows the last day of February, 28th or 29th by the leap rule. */
  lemma MarchFollowsFebruary(y: int)
    ensures DayNumber(y, 3, 1) == DayNumber(y, 2, DaysInMonth(y, 2)) + 1
  {
    ShiftedYearLength(y - 1);
  }

  /**
   * The days before the 1st of March of year `y + 1` in the day-number
   * formula, counted from March of year 0.
   */
  function MarchStart(y: int): int {
    var era := y / 400;
    var yoe := y - era * 400;
    era * 146097 + yoe * 365 + yoe / 4 - yoe / 100
  }

  /** The year from March of `y` to February of `y + 1` has 366 days exactly when `y + 1` is a leap year. */
  lemma ShiftedYearLength(y: int)
    ensures MarchStart(y + 1) - MarchStart(y) == if IsLeapYear(y + 1) then 366 else 365
  {
    var r := y % 400;
    MarchStartByRemainder(y);
    MarchStartByRemainder(y + 1);
    LeapByRemainder(y + 1);
    if r < 399 {
      EraStep(y);
      QuarterStep(r);
      CenturyStep(r);
    } else {
      EraWrap(y);
    }
  }

  lemma MarchStartByRemainder(y: int)
    ensures MarchStart(y) == (y / 400) * 146097 + (y % 400) * 365 + (y % 400) / 4 - (y % 400) / 100
  {
  }

  lemma EraStep(y: int)
    requires y % 400 < 399
    ensures (y + 1) / 400 == y / 400 && (y + 1) % 400 == y % 400 + 1
  {
  }

  lemma EraWrap(y: int)
    requires y % 400 == 399
    ensures (y + 1) / 400 == y / 400 + 1 && (y + 1) % 400 == 0
  {
  }

  /** The leap rule read on the year's position in its 400-year era. */
  lemma LeapByRemainder(y: int)
    ensures IsLeapYear(y) <==> (y % 400) % 4 == 0 && ((y % 400) % 100 != 0 || y % 400 == 0)
  {
    var e, r := y / 400, y % 400;
    assert y == 4 * (100 * e) + r && y == 100 * (4 * e) + r;
    Mod4Shift(100 * e, r);
    Mod100Shift(4 * e, r);
  }

  lemma Mod4Shift(a: int, r: int)
    ensures (4 * a + r) % 4 == r % 4
  {
  }

  lemma Mod100Shift(a: int, r: int)
    ensures (100 * a + r) % 100 == r % 100
  {
  }

  /** Stepping `r` by one raises `r / 4` by one exactly when `r + 1` is a multiple of 4. */
  lemma QuarterStep(r: int)
    ensures (r + 1) / 4 - r / 4 == if (r + 1) % 4 == 0 then 1 else 0
  {
  }

  /** Stepping `r` by one raises `r / 100` by one exactly when `r + 1` is a multiple of 100. */
  lemma CenturyStep(r: int)
    ensures (r + 1) / 100 - r / 100 == if (r + 1) % 100 == 0 then 1 else 0
  {
  }

  /** New Year's Day follows the 31st of December. */
  lemma NextYear(y: int)
    ensures DayNumber(y + 1, 1, 1) == DayNumber(y, 12, 31) + 1
  {
  }

  /** Within a month, the day number moves with the day of the month. */
  lemma {:induction false} DaysOfMonthOrdered(y: int, m: int, d: int)
    requires 1 <= m <= 12 && 1 <= d <= DaysInMonth(y, m)
    ensures DayNumber(y, m, d) == DayNumber(y, m, 1) + d - 1
    decreases d
  {
    if d > 1 {
      DaysOfMonthOrdered(y, m, d - 1);
      NextDayInMonth(y, m, d - 1);
    }
  }

  /** Every day of a month lies before every day of a later month of the same year. */
  lemma {:induction false} MonthsOrdered(y: int, m1: int, m2: int)
    requires 1 <= m1 < m2 <= 12
    ensures DayNumber(y, m1, DaysInMonth(y, m1)) < DayNumber(y, m2, 1)
    decreases m2 - m1
  {
    NextMonth(y, m2 - 1);
    if m1 < m2 - 1 {
      MonthsOrdered(y, m1, m2 - 1);
      DaysOfMonthOrdered(y, m2 - 1, DaysInMonth(y, m2 - 1));
    }
  }

  /** The days of a year run from its 1st of January to its 31st of December. */
  lemma YearSpan(y: int)
    ensures DayNumber(y, 1, 1) < DayNumber(y, 12, 31)
  {
    MonthsOrdered(y, 1, 12);
    DaysOfMonthOrdered(y, 1, 31);
    DaysOfMonthOrdered(y, 12, 31);
  }

  /** Every day of a year lies before every day of a later year. */
  lemma {:induction false} YearsOrdered(y1: int, y2: int)
    requires y1 < y2
    ensures DayNumber(y1, 12, 31) < DayNumber(y2, 1, 1)
    decreases y2 - y1
  {
    NextYear(y2 - 1);
    if y1 < y2 - 1 {
      YearsOrdered(y1, y2 - 1);
      YearSpan(y2 - 1);
    }
  }

  /** `a`'s calendar date comes before `b`'s. */
  predicate DateBefore(a: LocalDateTime, b: LocalDateTime) {
    a.year < b.year || (a.year == b.year && (a.month < b.month || (a.month == b.month && a.day < b.day)))
  }

  predicate SameDate(a: LocalDateTime, b: LocalDateTime) {
    a.year == b.year && a.month == b.month && a.day == b.day
  }

  /** `a` comes before `b` in (date, time) order. */
  predicate Before(a: LocalDateTime, b: LocalDateTime) {
    DateBefore(a, b) ||
    (SameDate(a, b) &&
     (a.hour < b.hour || (a.hour == b.hour && (a.minute < b.minute || (a.minute == b.minute && a.second < b.second)))))
  }

  /** An earlier valid date has a smaller day number. */
  lemma DayOfOrdered(a: LocalDateTime, b: LocalDateTime)
    requires ValidDateTime(a) && ValidDateTime(b) && DateBefore(a, b)
    ensures DayOf(a) < DayOf(b)
  {
    DaysOfMonthOrdered(a.year, a.month, a.day);
    DaysOfMonthOrdered(b.year, b.month, b.day);
    DaysOfMonthOrdered(a.year, a.month, DaysInMonth(a.year, a.month));
    if a.year < b.year {
      YearsOrdered(a.year, b.year);
      if a.month < 12 {
        MonthsOrdered(a.year, a.month, 12);
        DaysOfMonthOrdered(a.year, 12, 31);
      }
      if 1 < b.month {
        MonthsOrdered(b.year, 1, b.month);
        DaysOfMonthOrdered(b.year, 1, 31);
      }
    } else if a.month < b.month {
      MonthsOrdered(a.year, a.month, b.month);
    }
  }

  /**
   * The instant of a valid date and time orders exactly as (date, time) does,
   * and two valid values denote the same instant only when they are equal: the
   * sort by instant is the sort by `Date`.
   */
  lemma InstantOrder(a: LocalDateTime, b: LocalDateTime)
    requires ValidDateTime(a) && ValidDateTime(b)
    ensures Instant(a) < Instant(b) <==> Before(a, b)
    ensures Instant(a) == Instant(b) <==> a == b
  {
    if DateBefore(a, b) {
      DayOfOrdered(a, b);
    } else if DateBefore(b, a) {
      DayOfOrdered(b, a);
    }
  }

  /** One day later is one weekday later. */
  lemma NextDayWeekday(t: LocalDateTime, u: LocalDateTime)
    requires DayOf(u) == DayOf(t) + 1
    ensures WeekdayIndex(u) == (WeekdayIndex(t) + 1) % 7
  {
  }

  /** The seven weekday names of a locale, Sunday first; a locale names no two weekdays alike. */
  type WeekdayTable = s: seq<string> | |s| == 7 && forall i, j :: 0 <= i < j < |s| ==> s[i] != s[j]
    witness ["1", "2", "3", "4", "5", "6", "7"]

  /** `weekdaySymbols` of the ru_RU locale, already `.capitalized`. */
  const WeekdaySymbols: WeekdayTable :=
    ["Воскресенье", "Понедельник", "Вторник", "Среда", "Четверг", "Пятница", "Суббота"]

  /** The "EEEE" name of the weekday of `t` in the locale of `symbols`, capitalized. */
  function WeekdayName(symbols: WeekdayTable, t: LocalDateTime): (name: string)
    ensures name in symbols
  {
    symbols[WeekdayIndex(t)]
  }

  /** A reference date: 2024-09-10 is day 19976 and a Tuesday. */
  lemma KnownWeekday()
    ensures DayNumber(1970, 1, 1) == 0
    ensures DayOf(LocalDateTime(2024, 9, 10, 0, 0, 0)) == 19976
    ensures WeekdayName(WeekdaySymbols, LocalDateTime(2024, 9, 10, 0, 0, 0)) == "Вторник"
  {
  }
}
