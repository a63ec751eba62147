/** The "HH:mm" time field of the admin forms (`TimePickerField`) and the
    work period card: reading the text into today's date for the native
    picker, writing the picked time back as "HH:mm", and the 12-hour
    Arabic display. The work period card's copy of the display carries
    garbled period markers; `WorkPeriodCardTimeAsWritten` keeps them and
    `WorkPeriodCardTime` is the display with the intended letters. */
module TimeDisplay {
  import opened Wrappers
  import opened Js
  import opened Text
  import opened Clock
  import opened Calendar
  import opened Mojibake

  /** `x || 0` for a number that may be `NaN` (`None`). */
  function OrZero(x: Option<int>): (r: int)
    ensures x.Some? && x.value != 0 ==> r == x.value
    ensures x.None? || x.value == 0 ==> r == 0
  {
    Or(x, Some(0), 0).value
  }

  /** `parseTime`: today's date with its clock set by `setHours(h || 0,
      m || 0, 0, 0)`. Out-of-range parts carry into neighbouring days. */
  function ParseTime(timeStr: string, today: DateTime): (d: DateTime)
    ensures Time(d) == today.day * MsPerDay
      + OrZero(TimePart(timeStr, 0)) * MsPerHour + OrZero(TimePart(timeStr, 1)) * MsPerMinute
  {
    SetClock(today.day, OrZero(TimePart(timeStr, 0)), OrZero(TimePart(timeStr, 1)))
  }

  /** Text without a readable hour or minute is read as midnight's hour or
      minute zero. */
  lemma UnreadablePartsAreZero(timeStr: string, today: DateTime)
    requires TimePart(timeStr, 0).None? && TimePart(timeStr, 1).None?
    ensures ParseTime(timeStr, today) == DateTime(today.day, 0)
  {
    ClockOfDay(today.day, 0, 0);
  }

  /** `formatTime`: the picked clock as zero-padded "HH:mm". */
  function FormatTime24(d: DateTime): (s: string)
    ensures IsHhMm(s) && HourOf(s) == Hours(d) && MinuteOf(s) == Minutes(d)
  {
    FormatHhMmShape(Hours(d), Minutes(d));
    FormatHhMm(Hours(d), Minutes(d))
  }

  /** Opening the picker on a valid time and confirming it unchanged
      writes back the same text. */
  lemma {:induction false} PickerRoundTrip(s: string, today: DateTime)
    ensures IsHhMm(s) && HourOf(s) < 24 && MinuteOf(s) < 60 ==> FormatTime24(ParseTime(s, today)) == s
  {
    if IsHhMm(s) && HourOf(s) < 24 && MinuteOf(s) < 60 {
      var d := ParseTime(s, today);
      ParsedClock(s, today);
      assert FormatTime24(d) == FormatHhMm(HourOf(s), MinuteOf(s));
      HhMmIsFormatted(s);
    }
  }

  /** A valid time sets the picker's clock to its own hour and minute. */
  lemma {:induction false} ParsedClock(s: string, today: DateTime)
    ensures IsHhMm(s) && HourOf(s) < 24 && MinuteOf(s) < 60 ==>
      Hours(ParseTime(s, today)) == HourOf(s) && Minutes(ParseTime(s, today)) == MinuteOf(s)
  {
    if IsHhMm(s) && HourOf(s) < 24 && MinuteOf(s) < 60 {
      TimePartsOfHhMm(s);
      var h, m := HourOf(s) as int, MinuteOf(s) as int;
      assert OrZero(TimePart(s, 0)) == h && OrZero(TimePart(s, 1)) == m;
      assert ParseTime(s, today) == SetClock(today.day, h, m);
      ClockOfDay(today.day, h, m);
    }
  }

  /** `handleChange`: the new text handed to `onChange`, if a date was
      picked, and whether the picker stays open (Android closes it on any
      change). */
  function HandleChange(showPicker: bool, isAndroid: bool, selected: Option<DateTime>): (r: (Option<string>, bool))
    ensures r.0.Some? <==> selected.Some?
    ensures r.0.Some? ==> (IsHhMm(r.0.value)
      && HourOf(r.0.value) == Hours(selected.value) && MinuteOf(r.0.value) == Minutes(selected.value))
    ensures r.1 == (showPicker && !isAndroid)
  {
    var shown := if isAndroid then false else showPicker;
    match selected
    case None => (None, shown)
    case Some(d) => (Some(FormatTime24(d)), shown)
  }

  // ---------------------------------------------------------------------
  // formatDisplayTime
  // ---------------------------------------------------------------------

  /** `hours % 12 || 12` with `NaN` hours giving 12. */
  function DisplayHour(h: Option<int>): (r: int)
    ensures h.None? ==> r == 12
    ensures h.Some? && h.value >= 0 ==> 1 <= r <= 12 && r % 12 == h.value % 12
  {
    if h.None? then 12 else Or(Some(JsRem(h.value, 12)), Some(12), 0).value
  }

  /** `formatDisplayTime` with the given evening and morning markers:
      `None` where the minutes part is missing and `toString` throws. */
  function DisplayTime(timeStr: string, evening: string, morning: string): (r: Option<string>)
    ensures r.None? <==> ':' !in timeStr
    ensures IsHhMm(timeStr) ==> r == Some(
      IntToString(DisplayHour(Some(HourOf(timeStr)))) + ":" + timeStr[3..] + " "
      + (if HourOf(timeStr) >= 12 then evening else morning))
  {
    var parts := Split(timeStr, ':');
    assert ':' in timeStr ==> |parts| >= 2;
    if |parts| < 2 then None
    else
      var h := JsNumber(parts[0]);
      var m := JsNumber(parts[1]);
      var period := if h.Some? && h.value >= 12 then evening else morning;
      var minutes := if m.Some? then Pad2(m.value) else "NaN";
      var r := IntToString(DisplayHour(h)) + ":" + minutes + " " + period;
      if IsHhMm(timeStr) then
        TimePartsOfHhMm(timeStr);
        DigitPairsOfHhMm(timeStr);
        Pad2OfTwoDigits(timeStr[3..]);
        Some(r)
      else Some(r)
  }

  /** The display of a valid time ends with its half-day marker. */
  lemma EndsWithMarker(timeStr: string, evening: string, morning: string)
    ensures IsHhMm(timeStr) ==> (
      var r := DisplayTime(timeStr, evening, morning);
      var p := if HourOf(timeStr) >= 12 then evening else morning;
      r.Some? && |r.value| >= |p| && r.value[|r.value| - |p|..] == p)
  {
    if IsHhMm(timeStr) {
      var p := if HourOf(timeStr) >= 12 then evening else morning;
      var a := IntToString(DisplayHour(Some(HourOf(timeStr)))) + ":" + timeStr[3..] + " ";
      assert DisplayTime(timeStr, evening, morning).value == a + p;
      assert (a + p)[|a + p| - |p|..] == p;
    }
  }

  /** ... so with one-letter markers its last letter tells the half. */
  lemma LastLetterIsMarker(timeStr: string, evening: char, morning: char)
    ensures IsHhMm(timeStr) ==> (
      var r := DisplayTime(timeStr, [evening], [morning]);
      r.Some? && |r.value| > 0 && r.value[|r.value| - 1] == (if HourOf(timeStr) >= 12 then evening else morning))
  {
    EndsWithMarker(timeStr, [evening], [morning]);
    if IsHhMm(timeStr) {
      var r := DisplayTime(timeStr, [evening], [morning]).value;
      assert r[|r| - 1] == r[|r| - 1..][0];
    }
  }

  const Evening := "م"
  const Morning := "ص"

  /** The time field's display. */
  function PickerDisplay(timeStr: string): (r: Option<string>)
    ensures r.None? <==> ':' !in timeStr
    ensures IsHhMm(timeStr) ==> (r.Some? && |r.value| > 0 && r.value[|r.value| - 1] == (if HourOf(timeStr) >= 12 then 'م' else 'ص'))
  {
    LastLetterIsMarker(timeStr, 'م', 'ص');
    DisplayTime(timeStr, Evening, Morning)
  }

  /** Midnight shows as twelve in the morning and noon as twelve in the
      evening. */
  lemma {:induction false} MidnightAndNoon(s: string)
    requires IsHhMm(s)
    ensures s[..2] == "00" ==> PickerDisplay(s) == Some("12" + ":" + s[3..] + " " + Morning)
    ensures s[..2] == "12" ==> PickerDisplay(s) == Some("12" + ":" + s[3..] + " " + Evening)
  {
    var r := DisplayTime(s, Evening, Morning);
    var h := HourOf(s);
    assert r == Some(IntToString(DisplayHour(Some(h))) + ":" + s[3..] + " " + (if h >= 12 then Evening else Morning));
    TwelveOClock();
    if s[..2] == "00" {
      assert h == 0;
      assert r == Some("12" + ":" + s[3..] + " " + Morning);
    }
    if s[..2] == "12" {
      assert h == 12;
      assert r == Some("12" + ":" + s[3..] + " " + Evening);
    }
  }

  /** The hour digits of midnight and noon, and the twelve both show. */
  lemma TwelveOClock()
    ensures DecimalValue("00") == 0 && DecimalValue("12") == 12
    ensures DisplayHour(Some(0)) == 12 && DisplayHour(Some(12)) == 12
    ensures IntToString(12) == "12"
  {
    assert "00"[..1] == "0" && "12"[..1] == "1";
    assert NatToString(12) == NatToString(1) + [DigitChar(2)];
  }

  /** The display loses nothing: two valid 24-hour times that display
      alike are the same time. */
  lemma {:induction false} DisplayDeterminesTime(s1: string, s2: string, evening: string, morning: string)
    requires IsHhMm(s1) && IsHhMm(s2) && HourOf(s1) < 24 && HourOf(s2) < 24
    requires evening != morning
    ensures DisplayTime(s1, evening, morning) == DisplayTime(s2, evening, morning) ==> s1 == s2
  {
    if DisplayTime(s1, evening, morning) == DisplayTime(s2, evening, morning) {
      DisplayedParts(s1, s2, evening, morning);
      SameHour(HourOf(s1), HourOf(s2));
      HhMmIsFormatted(s1);
      HhMmIsFormatted(s2);
    }
  }

  /** Equal displays of two valid times show the same twelve-hour figure,
      minute digits and half of the day. */
  lemma {:induction false} DisplayedParts(s1: string, s2: string, evening: string, morning: string)
    requires IsHhMm(s1) && IsHhMm(s2)
    requires evening != morning
    ensures DisplayTime(s1, evening, morning) == DisplayTime(s2, evening, morning) ==>
      && IntToString(DisplayHour(Some(HourOf(s1)))) == IntToString(DisplayHour(Some(HourOf(s2))))
      && s1[3..] == s2[3..] && MinuteOf(s1) == MinuteOf(s2)
      && (HourOf(s1) >= 12 <==> HourOf(s2) >= 12)
  {
    if DisplayTime(s1, evening, morning) == DisplayTime(s2, evening, morning) {
      var h1, h2 := HourOf(s1), HourOf(s2);
      var p1 := if h1 >= 12 then evening else morning;
      var p2 := if h2 >= 12 then evening else morning;
      DisplayShapeInjective(IntToString(DisplayHour(Some(h1))), s1[3..], p1,
                            IntToString(DisplayHour(Some(h2))), s2[3..], p2);
    }
  }

  /** "h:mm p" read back: digits before the colon, a fixed-width middle
      and the marker after the space are all recovered. */
  lemma {:induction false} DisplayShapeInjective(a1: string, x1: string, y1: string, a2: string, x2: string, y2: string)
    requires AllDigits(a1) && AllDigits(a2) && |x1| == |x2|
    requires a1 + ":" + x1 + " " + y1 == a2 + ":" + x2 + " " + y2
    ensures a1 == a2 && x1 == x2 && y1 == y2
  {
    var r := a1 + ":" + x1 + " " + y1;
    ColonAfterDigits(r, a1);
    ColonAfterDigits(r, a2);
    SplitAt(a1 + ":" + x1 + " ", y1, a2 + ":" + x2 + " ", y2);
    SplitAt(a1 + ":" + x1, " ", a2 + ":" + x2, " ");
    SplitAt(a1 + ":", x1, a2 + ":", x2);
    SplitAt(a1, ":", a2, ":");
  }

  /** In text that starts with digits and then a colon, the first colon
      is the one after the digits. */
  lemma {:induction false} ColonAfterDigits(s: string, a: string)
    requires AllDigits(a) && |a| < |s| && s[..|a|] == a && s[|a|] == ':'
    ensures ':' in s && FirstIndex(s, ':') == |a|
    decreases |a|
  {
    if a != [] {
      assert s[0] == a[0] && IsDigit(a[0]);
      assert s[1..][..|a| - 1] == a[1..];
      ColonAfterDigits(s[1..], a[1..]);
    }
  }

  /** Equal concatenations with equally long heads have equal parts. */
  lemma SplitAt(x1: string, y1: string, x2: string, y2: string)
    requires x1 + y1 == x2 + y2 && |x1| == |x2|
    ensures x1 == x2 && y1 == y2
  {
    assert x1 == (x1 + y1)[..|x1|];
    assert x2 == (x2 + y2)[..|x2|];
    assert y1 == (x1 + y1)[|x1|..];
    assert y2 == (x2 + y2)[|x2|..];
  }

  /** Two hours of a day with the same twelve-hour reading and the same
      half are the same hour. */
  lemma SameHour(h1: nat, h2: nat)
    requires h1 < 24 && h2 < 24 && (h1 >= 12 <==> h2 >= 12)
    requires IntToString(DisplayHour(Some(h1))) == IntToString(DisplayHour(Some(h2)))
    ensures h1 == h2
  {
    var d1, d2 := DisplayHour(Some(h1)), DisplayHour(Some(h2));
    assert d1 == DecimalValue(IntToString(d1)) == DecimalValue(IntToString(d2)) == d2;
    assert h1 % 12 == h2 % 12;
    if h1 >= 12 {
      assert h1 % 12 == h1 - 12 && h2 % 12 == h2 - 12;
    } else {
      assert h1 % 12 == h1 && h2 % 12 == h2;
    }
  }

  // ---------------------------------------------------------------------
  // WorkPeriodCard
  // ---------------------------------------------------------------------

  /** The markers as they stand in the card's source text: "م" and "ص"
      encoded as UTF-8 and read back as ISO/IEC 8859-11. */
  const GarbledEvening := "\U{0E39}\U{0085}"
  const GarbledMorning := "\U{0E38}\U{0E15}"

  /** The card's display as written. */
  function WorkPeriodCardTimeAsWritten(timeStr: string): (r: Option<string>)
    ensures r.None? <==> ':' !in timeStr
    ensures IsHhMm(timeStr) ==> (r.Some? && |r.value| >= 2
      && r.value[|r.value| - 2..] == (if HourOf(timeStr) >= 12 then GarbledEvening else GarbledMorning))
  {
    EndsWithMarker(timeStr, GarbledEvening, GarbledMorning);
    DisplayTime(timeStr, GarbledEvening, GarbledMorning)
  }

  /** The garbled markers are exactly the misreading of the intended
      ones, and they are not Arabic letters. */
  lemma GarbledMarkersAreMisreadArabic()
    ensures Utf8(Evening) == [0xD9, 0x85] && ReadAsThai([0xD9, 0x85]) == GarbledEvening
    ensures Utf8(Morning) == [0xD8, 0xB5] && ReadAsThai([0xD8, 0xB5]) == GarbledMorning
    ensures !IsArabic(GarbledEvening[0]) && !IsArabic(GarbledMorning[0])
  { }

  /** One o'clock in the afternoon: the card shows a Thai vowel sign and a
      control character where the time field shows "م". */
  lemma {:induction false} OnePmOnTheCard(s: string)
    requires s == "13:00"
    ensures WorkPeriodCardTimeAsWritten(s) == Some("1" + ":" + "00" + " " + GarbledEvening)
    ensures PickerDisplay(s) == Some("1" + ":" + "00" + " " + Evening)
    ensures WorkPeriodCardTimeAsWritten(s) != PickerDisplay(s)
  {
    assert IsHhMm(s) && s[..2] == "13" && s[3..] == "00";
    assert DecimalValue("13") == 13 by { assert "13"[..1] == "1"; }
    assert DisplayHour(Some(13)) == 1;
    assert IntToString(1) == "1";
    var a := WorkPeriodCardTimeAsWritten(s).value;
    var b := PickerDisplay(s).value;
    assert a[|a| - 1] != b[|b| - 1];
  }

  /** The card's display with the intended markers: it ends in the
      Arabic letter for evening exactly from noon on, like the time field
      it mirrors. */
  function WorkPeriodCardTime(timeStr: string): (r: Option<string>)
    ensures r.None? <==> ':' !in timeStr
    ensures IsHhMm(timeStr) ==> (r.Some? && |r.value| > 0 && IsArabic(r.value[|r.value| - 1])
      && (r.value[|r.value| - 1] == 'م' <==> HourOf(timeStr) >= 12))
    ensures r == PickerDisplay(timeStr)
  {
    PickerDisplay(timeStr)
  }
}
