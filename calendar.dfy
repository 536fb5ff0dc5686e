/** Time as the application sees it. An instant is an integer number of milliseconds since
    1970-01-01T00:00:00Z; the local calendar is counted in whole days since that date (day 0 was a
    Thursday). Time-of-day thresholds are written "HH:MM" and validity dates in the ISO text that
    `Date.prototype.toISOString` produces. */
module Calendar {
  import opened Wrappers
  import opened Text

  const MsPerSecond: int := 1000
  const MsPerMinute: int := 60000
  const MsPerHour: int := 3600000
  const MsPerDay: int := 86400000

  // ---------------------------------------------------------------- days and weeks

  /** The calendar day an instant falls on (`toDateString` compares exactly this). */
  function DayOf(t: int): int {
    t / MsPerDay
  }

  /** Midnight at the start of the day of `t`. */
  function StartOfDay(t: int): (s: int)
    ensures s <= t < s + MsPerDay
    ensures DayOf(s) == DayOf(t)
  {
    DayOf(t) * MsPerDay
  }

  /** `getDay()`: 0 is Sunday, 6 is Saturday. */
  function Weekday(day: int): (w: nat)
    ensures w < 7
  {
    (day + 4) % 7
  }

  /** The Sunday that opens the week of `day` (`setDate(getDate() - getDay())`). */
  function WeekStart(day: int): (s: int)
    ensures Weekday(s) == 0
    ensures s <= day < s + 7
  {
    day - Weekday(day)
  }

  /** Moving `k` days from `day` stays in the same Sunday-to-Saturday week exactly when the weekday
      reached is still between Sunday and Saturday of that week. */
  lemma SameWeekIff(day: int, k: int)
    ensures WeekStart(day + k) == WeekStart(day) <==> 0 <= Weekday(day) + k < 7
  {
    var w := Weekday(day);
    if 0 <= w + k < 7 {
      assert (day + 4) == 7 * ((day + 4) / 7) + w;
      assert (day + k + 4) == 7 * ((day + 4) / 7) + (w + k);
      assert Weekday(day + k) == w + k;
    }
  }

  // ---------------------------------------------------------------- civil dates

  datatype Civil = Civil(year: int, month: int, day: int)

  /** Proleptic Gregorian (year, month, day) of a day number; `getFullYear`, `getMonth() + 1` and
      `getDate()` of any instant on that day. */
  function CivilFromDays(days: int): (c: Civil)
    ensures 1 <= c.month <= 12 && 1 <= c.day <= 31
  {
    var z := days + 719468;
    var era := z / 146097;
    var doe := z - era * 146097;
    var yoe := (doe - doe / 1460 + doe / 36524 - doe / 146096) / 365;
    var doy := doe - (365 * yoe + yoe / 4 - yoe / 100);
    var mp := (5 * doy + 2) / 153;
    var d := doy - (153 * mp + 2) / 5 + 1;
    var m := if mp < 10 then mp + 3 else mp - 9;
    Civil(if m <= 2 then yoe + era * 400 + 1 else yoe + era * 400, m, d)
  }

  /** Day number of a proleptic Gregorian date; a day past the end of its month rolls over into the
      next month. */
  function DaysFromCivil(year: int, month: int, day: int): int
    requires 1 <= month <= 12
  {
    var y := if month <= 2 then year - 1 else year;
    var era := y / 400;
    var yoe := y - era * 400;
    var mp := if month > 2 then month - 3 else month + 9;
    var doy := (153 * mp + 2) / 5 + day - 1;
    var doe := yoe * 365 + yoe / 4 - yoe / 100 + doy;
    era * 146097 + doe - 719468
  }

  /** The two conversions at the epoch. */
  lemma CalendarAnchors()
    ensures CivilFromDays(0) == Civil(1970, 1, 1)
    ensures DaysFromCivil(1970, 1, 1) == 0
  {
    assert 719468 / 146097 == 4 && 135080 / 1460 == 92 && 135080 / 36524 == 3 && 135080 / 146096 == 0;
    assert 134991 / 365 == 369 && 369 / 4 == 92 && 369 / 100 == 3;
    assert 1532 / 153 == 10 && 1532 / 5 == 306;
    assert 1969 / 400 == 4;
  }

  /** The two conversions at a leap day. */
  lemma LeapAnchors()
    ensures CivilFromDays(19782) == Civil(2024, 2, 29)
    ensures DaysFromCivil(2024, 2, 29) == 19782
  {
    assert 739250 / 146097 == 5 && 8765 / 1460 == 6 && 8765 / 36524 == 0 && 8765 / 146096 == 0;
    assert 8759 / 365 == 23 && 23 / 4 == 5 && 23 / 100 == 0;
    assert 1827 / 153 == 11 && 1685 / 5 == 337;
    assert 2023 / 400 == 5;
  }

  /** A later instant never falls on an earlier day. */
  lemma DayOfMonotone(t1: int, t2: int)
    requires t1 <= t2
    ensures DayOf(t1) <= DayOf(t2)
  {
    var d1 := DayOf(t1);
    var d2 := DayOf(t2);
    assert d1 * MsPerDay <= t1 < (d1 + 1) * MsPerDay;
    assert d2 * MsPerDay <= t2 < (d2 + 1) * MsPerDay;
  }

  /** `getMonth()` and `getFullYear()` both agree for two days. */
  predicate SameMonth(day1: int, day2: int) {
    var a := CivilFromDays(day1);
    var b := CivilFromDays(day2);
    a.month == b.month && a.year == b.year
  }

  // ---------------------------------------------------------------- "HH:MM" thresholds

  /** The offset from midnight of the threshold `new Date(y, m, d, hours, minutes)` builds from
      `time.split(':').map(Number)`: the hours are the text before the first ':', the minutes the text
      between the first and the second ':'. With no ':' the minutes are `undefined` and the date is
      invalid (None); so is a part that `Number` reads as `NaN`. Hours past 23 or minutes past 59
      carry into the next hour or day, as `Date` does. */
  function ParseTime(time: string): (r: Option<int>)
    ensures r.Some? ==> r.value >= 0
    ensures ':' !in time ==> r.None?
  {
    var i := IndexOf(time, ':');
    if i == |time| then None else ReadClock(time[..i], BeforeFirst(time[i + 1..], ':'))
  }

  /** The offset the hour and minute texts name, or None when `Number` reads either as `NaN`. */
  function ReadClock(hoursText: string, minutesText: string): (r: Option<int>)
    ensures r.Some? ==> r.value >= 0
  {
    var hours := Number(hoursText);
    var minutes := Number(minutesText);
    if hours.Some? && minutes.Some? then Some(Offset(hours.value, minutes.value)) else None
  }

  /** Milliseconds from midnight to a wall-clock hour and minute, carrying as `Date` does. */
  function Offset(hours: nat, minutes: nat): (ms: nat) {
    hours * MsPerHour + minutes * MsPerMinute
  }

  /** The "HH:MM" text the admin form's time input produces. */
  function FormatTime(hours: nat, minutes: nat): (s: string)
    requires hours < 100 && minutes < 100
  {
    Pad(hours, 2) + ":" + Pad(minutes, 2)
  }

  lemma NumberOfPadded(n: nat, width: nat)
    requires 0 < width && n < Pow10(width)
    ensures Number(Pad(n, width)) == Some(n)
  {
    PadRoundTrip(n, width);
  }

  /** Decimal digits are never a ':'. */
  lemma DigitsHoldNoColon(s: string)
    requires AllDigits(s)
    ensures ':' !in s
  {
    forall i | 0 <= i < |s| ensures s[i] != ':' {
      assert IsDigit(s[i]);
    }
  }

  /** A threshold made of two colon-free parts around one ':' is read from those two parts. */
  lemma ParseTimeOfParts(a: string, b: string)
    requires ':' !in a && ':' !in b
    ensures ParseTime(a + ":" + b) == ReadClock(a, b)
  {
    var s := a + ":" + b;
    ColonAfter(a, b);
    SplitAround(a, b);
    ParseTimeAtColon(s);
    assert BeforeFirst(b, ':') == b by {
      assert IndexOf(b, ':') == |b|;
    }
  }

  lemma ParseTimeAtColon(time: string)
    requires IndexOf(time, ':') < |time|
    ensures var i := IndexOf(time, ':');
      ParseTime(time) == ReadClock(time[..i], BeforeFirst(time[i + 1..], ':'))
  {
  }

  lemma SplitAround(a: string, b: string)
    ensures (a + ":" + b)[..|a|] == a && (a + ":" + b)[|a| + 1..] == b
  {
    var s := a + ":" + b;
    assert forall j :: 0 <= j < |a| ==> s[j] == a[j];
    assert forall j :: 0 <= j < |b| ==> s[|a| + 1 + j] == b[j];
  }

  lemma ColonAfter(a: string, b: string)
    requires ':' !in a
    ensures IndexOf(a + ":" + b, ':') == |a|
  {
    var s := a + ":" + b;
    assert s[|a|] == ':';
    assert forall j :: 0 <= j < |a| ==> s[j] == a[j];
  }

  /** Reading a threshold written by the form gives back its hours and minutes. */
  lemma ParseFormatTime(hours: nat, minutes: nat)
    requires hours < 100 && minutes < 100
    ensures ParseTime(FormatTime(hours, minutes)) == Some(Offset(hours, minutes))
  {
    var a, b := Pad(hours, 2), Pad(minutes, 2);
    NumberOfPadded(hours, 2);
    NumberOfPadded(minutes, 2);
    DigitsHoldNoColon(a);
    DigitsHoldNoColon(b);
    ParseTimeOfParts(a, b);
  }

  // ---------------------------------------------------------------- ISO instants

  /** Characters `from` up to `to` are decimal digits. */
  predicate DigitsAt(s: string, from: nat, to: nat)
    requires from <= to <= |s|
  {
    AllDigits(s[from..to])
  }

  function FieldAt(s: string, from: nat, to: nat): nat
    requires from <= to <= |s| && DigitsAt(s, from, to)
  {
    DigitsToNat(s[from..to])
  }

  /** "YYYY-MM-DD" with a month 1-12 and a day 1-31. */
  predicate IsDate(d: string) {
    |d| == 10 && DigitsAt(d, 0, 4) && d[4] == '-' && DigitsAt(d, 5, 7) && d[7] == '-' && DigitsAt(d, 8, 10)
    && 1 <= FieldAt(d, 5, 7) <= 12 && 1 <= FieldAt(d, 8, 10) <= 31
  }

  function DateDays(d: string): int
    requires IsDate(d)
  {
    DaysFromCivil(FieldAt(d, 0, 4), FieldAt(d, 5, 7), FieldAt(d, 8, 10))
  }

  /** "HH:MM:SS.sss" with hours 0-23, minutes and seconds 0-59. */
  predicate IsClock(k: string) {
    |k| == 12 && DigitsAt(k, 0, 2) && k[2] == ':' && DigitsAt(k, 3, 5) && k[5] == ':' && DigitsAt(k, 6, 8)
    && k[8] == '.' && DigitsAt(k, 9, 12)
    && FieldAt(k, 0, 2) <= 23 && FieldAt(k, 3, 5) <= 59 && FieldAt(k, 6, 8) <= 59
  }

  /** The milliseconds since midnight a clock text names. */
  function ClockOffset(k: string): (ms: int)
    requires IsClock(k)
    ensures 0 <= ms < MsPerDay
  {
    ClockMs(FieldAt(k, 0, 2), FieldAt(k, 3, 5), FieldAt(k, 6, 8), FieldAt(k, 9, 12))
  }

  /** Milliseconds from midnight to a time of day given field by field. */
  function ClockMs(hours: nat, minutes: nat, seconds: nat, millis: nat): nat {
    Offset(hours, minutes) + seconds * MsPerSecond + millis
  }

  /** The instant `offset` milliseconds after the midnight that starts `day`. */
  function Instant(day: int, offset: int): int {
    day * MsPerDay + offset
  }

  lemma DayOfMidday(day: int, offset: int)
    requires 0 <= offset < MsPerDay
    ensures DayOf(day * MsPerDay + offset) == day
  {
  }

  /** `new Date(text)` for the two shapes of the ECMAScript date-time string format the application
      stores: a date alone ("YYYY-MM-DD", midnight UTC) and the full "YYYY-MM-DDTHH:MM:SS.sssZ".
      Any other text is an invalid date (None). */
  function ParseInstant(s: string): (r: Option<int>)
    ensures r.Some? ==> |s| >= 10 && IsDate(s[..10]) && DayOf(r.value) == DateDays(s[..10])
  {
    if |s| == 10 && IsDate(s) then
      assert s[..10] == s;
      DayOfMidday(DateDays(s), 0);
      Some(DateDays(s) * MsPerDay)
    else if |s| == 24 && IsDate(s[..10]) && s[10] == 'T' && IsClock(s[11..23]) && s[23] == 'Z' then
      DayOfMidday(DateDays(s[..10]), ClockOffset(s[11..23]));
      Some(Instant(DateDays(s[..10]), ClockOffset(s[11..23])))
    else
      None
  }

  /** The "YYYY-MM-DD" text of a date. */
  function FormatDate(c: Civil): (s: string)
    requires 0 <= c.year <= 9999 && 1 <= c.month <= 12 && 1 <= c.day <= 31
    ensures |s| == 10
  {
    Pad(c.year, 4) + "-" + Pad(c.month, 2) + "-" + Pad(c.day, 2)
  }

  /** The "HH:MM:SS.sss" text of a time of day. */
  function FormatClock(hours: nat, minutes: nat, seconds: nat, millis: nat): (s: string)
    requires hours <= 23 && minutes <= 59 && seconds <= 59 && millis <= 999
    ensures |s| == 12
  {
    Pad(hours, 2) + ":" + Pad(minutes, 2) + ":" + Pad(seconds, 2) + "." + Pad(millis, 3)
  }

  /** The text `toISOString` writes for a date and a time of day given field by field. */
  function FormatIso(c: Civil, hours: nat, minutes: nat, seconds: nat, millis: nat): (s: string)
    requires 0 <= c.year <= 9999 && 1 <= c.month <= 12 && 1 <= c.day <= 31
    requires hours <= 23 && minutes <= 59 && seconds <= 59 && millis <= 999
    ensures |s| == 24
  {
    FormatDate(c) + "T" + FormatClock(hours, minutes, seconds, millis) + "Z"
  }

  /** A written date is a date whose fields read back as the date's. */
  lemma DateFields(c: Civil)
    requires 0 <= c.year <= 9999 && 1 <= c.month <= 12 && 1 <= c.day <= 31
    ensures var s := FormatDate(c);
      IsDate(s) && FieldAt(s, 0, 4) == c.year && FieldAt(s, 5, 7) == c.month && FieldAt(s, 8, 10) == c.day
  {
    var s := FormatDate(c);
    assert s[0..4] == Pad(c.year, 4);
    assert s[5..7] == Pad(c.month, 2);
    assert s[8..10] == Pad(c.day, 2);
    PadRoundTrip(c.year, 4);
    PadRoundTrip(c.month, 2);
    PadRoundTrip(c.day, 2);
  }

  /** A written time of day is a clock text naming that offset from midnight. */
  lemma ClockFields(hours: nat, minutes: nat, seconds: nat, millis: nat)
    requires hours <= 23 && minutes <= 59 && seconds <= 59 && millis <= 999
    ensures var k := FormatClock(hours, minutes, seconds, millis);
      IsClock(k) && ClockOffset(k) == ClockMs(hours, minutes, seconds, millis)
  {
    var k := FormatClock(hours, minutes, seconds, millis);
    assert k[0..2] == Pad(hours, 2);
    assert k[3..5] == Pad(minutes, 2);
    assert k[6..8] == Pad(seconds, 2);
    assert k[9..12] == Pad(millis, 3);
    PadRoundTrip(hours, 2);
    PadRoundTrip(minutes, 2);
    PadRoundTrip(seconds, 2);
    PadRoundTrip(millis, 3);
  }

  /** A date alone reads as midnight UTC of that date. */
  lemma ParseFormatDate(c: Civil)
    requires 0 <= c.year <= 9999 && 1 <= c.month <= 12 && 1 <= c.day <= 31
    ensures ParseInstant(FormatDate(c)) == Some(DaysFromCivil(c.year, c.month, c.day) * MsPerDay)
  {
    DateFields(c);
  }

  /** A date, a 'T', a clock text and a 'Z' read as that instant. */
  lemma ParseIsoParts(d: string, k: string)
    requires IsDate(d) && IsClock(k)
    ensures ParseInstant(d + "T" + k + "Z") == Some(Instant(DateDays(d), ClockOffset(k)))
  {
    var s := d + "T" + k + "Z";
    assert s[..10] == d;
    assert s[11..23] == k;
    assert s[10] == 'T' && s[23] == 'Z';
  }

  /** Parsing what `toISOString` writes gives the instant of those fields. */
  lemma ParseFormatIso(c: Civil, hours: nat, minutes: nat, seconds: nat, millis: nat)
    requires 0 <= c.year <= 9999 && 1 <= c.month <= 12 && 1 <= c.day <= 31
    requires hours <= 23 && minutes <= 59 && seconds <= 59 && millis <= 999
    ensures ParseInstant(FormatIso(c, hours, minutes, seconds, millis))
         == Some(Instant(DaysFromCivil(c.year, c.month, c.day), ClockMs(hours, minutes, seconds, millis)))
  {
    var d := FormatDate(c);
    var k := FormatClock(hours, minutes, seconds, millis);
    DateFields(c);
    ClockFields(hours, minutes, seconds, millis);
    assert DateDays(d) == DaysFromCivil(c.year, c.month, c.day);
    ParseIsoParts(d, k);
  }
}
