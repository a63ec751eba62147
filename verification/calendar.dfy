/** Local date-times and the week arithmetic of the date helpers.

    A JavaScript `Date` is read in local time as a day number (days since
    1970-01-01, a Thursday) and the milliseconds elapsed in that day; the
    time zone is a fixed offset, so daylight-saving jumps do not occur.
    An invalid `Date` (one whose time is `NaN`) is `None`. */
module Calendar {
  import opened Wrappers
  import opened Text
  import opened Js
  import opened Clock

  const MsPerMinute: int := 60000
  const MsPerHour: int := 3600000
  const MsPerDay: int := 86400000

  type MsOfDay = x: int | 0 <= x < 86400000

  datatype DateTime = DateTime(day: int, ms: MsOfDay)

  /** `getTime()`: milliseconds since the local epoch. */
  function Time(d: DateTime): int {
    d.day * MsPerDay + d.ms
  }

  /** `new Date(t)`. */
  function FromTime(t: int): (d: DateTime)
    ensures Time(d) == t
  {
    DateTime(t / MsPerDay, t % MsPerDay)
  }

  /** A date-time is determined by its time value. */
  lemma FromTimeOfTime(d: DateTime)
    ensures FromTime(Time(d)) == d
  {
    UniqueDivMod(Time(d), MsPerDay, d.day, d.ms);
  }

  /** `getDay()`: 0 for Sunday … 6 for Saturday. */
  function Weekday(day: int): (w: int)
    ensures 0 <= w < 7
  {
    (day + 4) % 7
  }

  /** Moving `k` days moves the weekday by `k` modulo 7. */
  lemma WeekdayAfter(day: int, k: int)
    ensures Weekday(day + k) == (Weekday(day) + k) % 7
  {
    var q := (day + 4) / 7;
    var w := Weekday(day);
    assert day + 4 == 7 * q + w;
    var q2 := (w + k) / 7;
    var w2 := (w + k) % 7;
    assert w + k == 7 * q2 + w2;
    UniqueDivMod(day + k + 4, 7, q + q2, w2);
  }

  /** `getHours()` and `getMinutes()`. */
  function Hours(d: DateTime): (h: int)
    ensures 0 <= h < 24
  {
    d.ms / MsPerHour
  }

  function Minutes(d: DateTime): (m: int)
    ensures 0 <= m < 60
  {
    (d.ms / MsPerMinute) % 60
  }

  /** `new Date(d.getTime() + n * 60 * 1000)`, and equally
      `d.setMinutes(d.getMinutes() + n)`. */
  function AddMinutes(d: DateTime, n: int): (r: DateTime)
    ensures Time(r) == Time(d) + n * MsPerMinute
  {
    FromTime(Time(d) + n * MsPerMinute)
  }

  /** `setHours(h, m, 0, 0)` on a date of day `day`: hours and minutes
      outside their ranges carry into neighbouring days. */
  function SetClock(day: int, h: int, m: int): (d: DateTime)
    ensures Time(d) == day * MsPerDay + h * MsPerHour + m * MsPerMinute
  {
    FromTime(day * MsPerDay + h * MsPerHour + m * MsPerMinute)
  }

  /** An in-range hour and minute set on a day stay on that day and read
      back unchanged. */
  lemma ClockOfDay(day: int, h: int, m: int)
    ensures 0 <= h < 24 && 0 <= m < 60 ==>
      var d := SetClock(day, h, m);
      d.day == day && Hours(d) == h && Minutes(d) == m
  {
    if 0 <= h < 24 && 0 <= m < 60 {
      ClockOfDayInRange(day, h, m);
    }
  }

  lemma ClockOfDayInRange(day: int, h: int, m: int)
    requires 0 <= h < 24 && 0 <= m < 60
    ensures var d := SetClock(day, h, m);
      d.day == day && Hours(d) == h && Minutes(d) == m
  {
    var ms := h * MsPerHour + m * MsPerMinute;
    assert 0 <= ms < MsPerDay;
    UniqueDivMod(day * MsPerDay + ms, MsPerDay, day, ms);
    UniqueDivMod(ms, MsPerHour, h, m * MsPerMinute);
    UniqueDivMod(ms, MsPerMinute, h * 60 + m, 0);
    UniqueDivMod(h * 60 + m, 60, h, m);
  }

  // ---------------------------------------------------------------------
  // src/utils/dates.ts
  // ---------------------------------------------------------------------

  const ArabicDayNames: seq<string> :=
    ["الأحد", "الإثنين", "الثلاثاء", "الأربعاء", "الخميس", "الجمعة", "السبت"]

  /** How many days `getStartOfWeek` steps back: `(day - weekStartsOn + 7) % 7`. */
  function WeekShift(d: DateTime, weekStartsOn: int): (k: int)
    ensures 0 <= weekStartsOn < 7 ==> 0 <= k < 7 && (Weekday(d.day) - k) % 7 == weekStartsOn
    ensures -7 < k < 7
  {
    JsRem(Weekday(d.day) - weekStartsOn + 7, 7)
  }

  /** `getStartOfWeek(date, weekStartsOn)`: midnight of the latest day on or
      before `date` that falls on `weekStartsOn`. */
  function StartOfWeek(d: DateTime, weekStartsOn: int): (r: DateTime)
    ensures r.ms == 0
    ensures 0 <= weekStartsOn < 7 ==>
      Weekday(r.day) == weekStartsOn && d.day - 6 <= r.day <= d.day
  {
    var k := WeekShift(d, weekStartsOn);
    WeekdayAfter(d.day, -k);
    DateTime(d.day - k, 0)
  }

  /** Taking the start of a week twice changes nothing. */
  lemma StartOfWeekIdempotent(d: DateTime, weekStartsOn: int)
    requires 0 <= weekStartsOn < 7
    ensures StartOfWeek(StartOfWeek(d, weekStartsOn), weekStartsOn) == StartOfWeek(d, weekStartsOn)
  {
    var r := StartOfWeek(d, weekStartsOn);
    assert WeekShift(r, weekStartsOn) == 0;
  }

  /** The start of the week is the only midnight on `weekStartsOn` in the
      seven days ending with `date`. */
  lemma StartOfWeekUnique(d: DateTime, weekStartsOn: int, day: int)
    requires 0 <= weekStartsOn < 7
    requires d.day - 6 <= day <= d.day && Weekday(day) == weekStartsOn
    ensures day == StartOfWeek(d, weekStartsOn).day
  {
    var r := StartOfWeek(d, weekStartsOn);
    var gap := day - r.day;
    WeekdayAfter(r.day, gap);
    assert -6 <= gap <= 6;
    assert (weekStartsOn + gap) % 7 == weekStartsOn;
  }

  /** `getWeekDays(start)`: the seven days from `start`, each at the same
      time of day. */
  function WeekDays(start: DateTime): (days: seq<DateTime>)
    ensures |days| == 7 && days[0] == start
    ensures forall i | 0 <= i < 7 :: days[i].day == start.day + i && days[i].ms == start.ms
  {
    seq(7, i => DateTime(start.day + i, start.ms))
  }

  /** `isSameDay(a, b)`: same year, month and date, that is the same day. */
  predicate IsSameDay(a: DateTime, b: DateTime) {
    a.day == b.day
  }

  /** `getEndOfWeek(start)`: the last millisecond of the sixth day after
      `start`. */
  function EndOfWeek(start: DateTime): (r: DateTime)
    ensures Hours(r) == 23 && Minutes(r) == 59
    ensures Time(r) == (start.day + 7) * MsPerDay - 1
  {
    DateTime(start.day + 6, 86399999)
  }

  /** The end of the week falls on the last of the week's days. */
  lemma EndOfWeekIsLastWeekDay(start: DateTime)
    ensures IsSameDay(EndOfWeek(start), WeekDays(start)[6])
  {
  }

  /** `${pad2(getHours())}:${pad2(getMinutes())}`, which an invalid date
      renders as "NaN:NaN". */
  function FormatClock(d: Option<DateTime>): (s: string)
    ensures d.Some? ==> IsHhMm(s) && HourOf(s) == Hours(d.value) && MinuteOf(s) == Minutes(d.value)
    ensures d.None? ==> s == "NaN:NaN"
  {
    match d
    case None => "NaN:NaN"
    case Some(t) =>
      FormatHhMmShape(Hours(t), Minutes(t));
      FormatHhMm(Hours(t), Minutes(t))
  }

  /** `formatTime(iso)`, given what `new Date(iso)` parsed. */
  function FormatTime(parsed: Option<DateTime>): (s: string)
    ensures parsed.Some? ==> IsHhMm(s) && HourOf(s) == Hours(parsed.value) && MinuteOf(s) == Minutes(parsed.value)
    ensures parsed.None? ==> s == "NaN:NaN"
  {
    FormatClock(parsed)
  }

  /** `getEndTime(startsAt, durationMin)`, given what `new Date(startsAt)`
      parsed. */
  function GetEndTime(parsed: Option<DateTime>, durationMin: int): (s: string)
    ensures parsed.Some? ==> IsHhMm(s)
    ensures parsed.None? ==> s == "NaN:NaN"
  {
    match parsed
    case None => FormatClock(None)
    case Some(d) => FormatClock(Some(AddMinutes(d, durationMin)))
  }

  /** A session of no length ends when it starts. */
  lemma GetEndTimeZero(parsed: Option<DateTime>)
    ensures GetEndTime(parsed, 0) == FormatTime(parsed)
  {
    if parsed.Some? { FromTimeOfTime(parsed.value); }
  }

  /** Adding a whole number of days keeps the clock reading. */
  lemma GetEndTimeWholeDays(parsed: Option<DateTime>, days: int)
    ensures GetEndTime(parsed, days * 1440) == FormatTime(parsed)
  {
    if parsed.Some? {
      var d := parsed.value;
      var t := Time(d) + (days * 1440) * MsPerMinute;
      assert (days * 1440) * MsPerMinute == days * MsPerDay;
      assert t == (d.day + days) * MsPerDay + d.ms;
      UniqueDivMod(t, MsPerDay, d.day + days, d.ms);
      assert AddMinutes(d, days * 1440) == DateTime(d.day + days, d.ms);
    }
  }

  /** The clock reading in minutes after midnight. */
  function ClockMinutes(d: DateTime): (c: int)
    ensures 0 <= c < 1440
    ensures c == d.ms / MsPerMinute
  {
    var q := d.ms / MsPerMinute;
    UniqueDivMod(d.ms, MsPerHour, q / 60, (q % 60) * MsPerMinute + d.ms % MsPerMinute);
    Hours(d) * 60 + Minutes(d)
  }

  /** Moving `n` minutes moves the clock by `n` minutes around the day. */
  lemma {:induction false} ClockAfterMinutes(d: DateTime, n: int)
    ensures ClockMinutes(AddMinutes(d, n)) == (ClockMinutes(d) + n) % 1440
  {
    var c := d.ms / MsPerMinute;
    var s := d.ms % MsPerMinute;
    var k := (c + n) / 1440;
    var c2 := (c + n) % 1440;
    assert Time(d) + n * MsPerMinute == (d.day + k) * MsPerDay + (c2 * MsPerMinute + s);
    UniqueDivMod(Time(d) + n * MsPerMinute, MsPerDay, d.day + k, c2 * MsPerMinute + s);
    var e := AddMinutes(d, n);
    assert e.ms == c2 * MsPerMinute + s;
    UniqueDivMod(e.ms, MsPerMinute, c2, s);
  }

  /** `getEndTime` shows the clock `durationMin` minutes after the start. */
  lemma GetEndTimeClock(d: DateTime, durationMin: int)
    ensures var s := GetEndTime(Some(d), durationMin);
      IsHhMm(s) && HourOf(s) * 60 + MinuteOf(s) == (ClockMinutes(d) + durationMin) % 1440
  {
    ClockAfterMinutes(d, durationMin);
  }

  /** `formatArabicDayName(date)`. */
  function ArabicDayName(d: DateTime): (r: string)
    ensures forall i | 0 <= i < |ArabicDayNames| :: r == ArabicDayNames[i] <==> Weekday(d.day) == i
  {
    assert forall i, j | 0 <= i < j < |ArabicDayNames| :: ArabicDayNames[i] != ArabicDayNames[j];
    ArabicDayNames[Weekday(d.day)]
  }

  /** Two dates get the same Arabic day name exactly when they fall on the
      same weekday, which holds exactly when they are a whole number of
      weeks apart. */
  lemma ArabicDayNameIdentifiesWeekday(a: DateTime, b: DateTime)
    ensures ArabicDayName(a) == ArabicDayName(b) <==> Weekday(a.day) == Weekday(b.day)
    ensures ArabicDayName(a) == ArabicDayName(b) <==> (a.day - b.day) % 7 == 0
  {
    var wa, wb := Weekday(a.day), Weekday(b.day);
    assert forall i, j | 0 <= i < j < 7 :: ArabicDayNames[i] != ArabicDayNames[j];
    WeekdayAfter(b.day, a.day - b.day);
    assert wa == (wb + (a.day - b.day)) % 7;
    var q := (a.day - b.day) / 7;
    var r := (a.day - b.day) % 7;
    assert a.day - b.day == 7 * q + r;
    UniqueDivMod(wb + (a.day - b.day), 7, q + (wb + r) / 7, (wb + r) % 7);
  }
}
