/** Turning the loosely typed session and booking records of the API into
    `SessionCore` values: weekday arithmetic, time-of-day normalisation,
    type inference from Arabic titles, occupancy clamping and the
    field-precedence chains of the mappers. */
module ScheduleMappers {
  import opened Wrappers
  import opened Text
  import opened Js
  import opened Clock
  import opened Calendar
  import opened ScheduleCore

  // ---------------------------------------------------------------------
  // Weekdays
  // ---------------------------------------------------------------------

  /** `dayIndexToWeekdayId`: `WEEKDAY_ORDER[((i % 7) + 7) % 7]` with
      JavaScript's truncating `%`. */
  function DayIndexToWeekdayId(i: int): (w: WeekdayId)
    ensures w == WeekdayOrder[i % 7]
  {
    var once := JsRem(i, 7);
    var normalized := JsRem(once + 7, 7);
    assert normalized == i % 7;
    WeekdayOrder[normalized]
  }

  /** The mapping repeats every seven days. */
  lemma DayIndexPeriodic(i: int)
    ensures DayIndexToWeekdayId(i) == DayIndexToWeekdayId(i + 7)
  {
    UniqueDivMod(i + 7, 7, i / 7 + 1, i % 7);
  }

  /** `weekdayIdToDayIndex`: `WEEKDAY_ORDER.indexOf(w)`. */
  function WeekdayIdToDayIndex(w: WeekdayId): (i: int)
    ensures 0 <= i < 7 && WeekdayOrder[i] == w
  {
    WeekdayOrderIsPermutation(w);
    IndexOf(WeekdayOrder, w)
  }

  /** Index to id and back normalises the index into 0..6. */
  lemma DayIndexRoundTrip(i: int)
    ensures WeekdayIdToDayIndex(DayIndexToWeekdayId(i)) == i % 7
  {
    WeekdayOrderIsPermutation(Sunday);
  }

  /** Id to index and back is the identity. */
  lemma WeekdayIdRoundTrip(w: WeekdayId)
    ensures DayIndexToWeekdayId(WeekdayIdToDayIndex(w)) == w
  {
    var i := WeekdayIdToDayIndex(w);
    SmallRem(i);
  }

  lemma SmallRem(i: int)
    requires 0 <= i < 7
    ensures i % 7 == i
  {
  }

  /** `getWeekdayFromISO`: the weekday of what `new Date(iso)` parsed;
      an invalid date yields `undefined`. */
  function WeekdayFromParsed(parsed: Option<DateTime>): (w: Option<WeekdayId>)
    ensures w.Some? <==> parsed.Some?
    ensures parsed.Some? ==> WeekdayIdToDayIndex(w.value) == Weekday(parsed.value.day)
  {
    match parsed
    case None => None
    case Some(d) =>
      var i := Weekday(d.day);
      DayIndexRoundTrip(i);
      SmallRem(i);
      Some(DayIndexToWeekdayId(i))
  }

  // ---------------------------------------------------------------------
  // formatTimeTo24h
  // ---------------------------------------------------------------------

  /** The two kinds of argument `formatTimeTo24h` accepts. A `Date` is
      given as the value it holds (`None` when invalid). */
  datatype TimeInput = DateInput(date: Option<DateTime>) | TextInput(text: string)

  /** `(\d{1,2}):(\d{2})` matches at `i` with a two-digit hour. */
  predicate TwoDigitHourAt(s: string, i: nat) {
    i + 5 <= |s| && IsDigit(s[i]) && IsDigit(s[i + 1]) && s[i + 2] == ':'
    && IsDigit(s[i + 3]) && IsDigit(s[i + 4])
  }

  /** `(\d{1,2}):(\d{2})` matches at `i` with a one-digit hour. */
  predicate OneDigitHourAt(s: string, i: nat) {
    i + 4 <= |s| && IsDigit(s[i]) && s[i + 1] == ':' && IsDigit(s[i + 2]) && IsDigit(s[i + 3])
  }

  predicate MatchesAt(s: string, i: nat) {
    TwoDigitHourAt(s, i) || OneDigitHourAt(s, i)
  }

  /** The two capture groups of a match. */
  datatype TimeMatch = TimeMatch(at: nat, hours: string, minutes: string)

  /** The groups the pattern captures when it matches at `at`: the greedy
      hour takes two digits when it can. */
  predicate CapturedAt(s: string, m: TimeMatch)
  {
    && MatchesAt(s, m.at)
    && (TwoDigitHourAt(s, m.at) ==> m.hours == [s[m.at], s[m.at + 1]] && m.minutes == [s[m.at + 3], s[m.at + 4]])
    && (!TwoDigitHourAt(s, m.at) ==> m.hours == [s[m.at]] && m.minutes == [s[m.at + 2], s[m.at + 3]])
  }

  /** The match at position `i`, if the pattern matches there. */
  function MatchAt(s: string, i: nat): (r: Option<TimeMatch>)
    ensures r.Some? <==> MatchesAt(s, i)
    ensures r.Some? ==> r.value.at == i && CapturedAt(s, r.value)
  {
    if TwoDigitHourAt(s, i) then Some(TimeMatch(i, [s[i], s[i + 1]], [s[i + 3], s[i + 4]]))
    else if OneDigitHourAt(s, i) then Some(TimeMatch(i, [s[i]], [s[i + 2], s[i + 3]]))
    else None
  }

  /** What the groups of a captured match are, read off the text. */
  lemma CapturedGroups(s: string, m: TimeMatch)
    requires CapturedAt(s, m)
    ensures 1 <= |m.hours| <= 2 && AllDigits(m.hours)
    ensures |m.minutes| == 2 && AllDigits(m.minutes)
    ensures TwoDigitHourAt(s, m.at) ==>
      m.hours == s[m.at..m.at + 2] && m.minutes == s[m.at + 3..m.at + 5]
    ensures !TwoDigitHourAt(s, m.at) ==>
      m.hours == [s[m.at]] && m.minutes == [s[m.at + 2], s[m.at + 3]]
  {
  }

  /** `s.match(/(\d{1,2}):(\d{2})/)` searching from position `from`: the
      leftmost match, where the greedy hour tries two digits first. */
  function MatchTime(s: string, from: nat): (r: Option<TimeMatch>)
    ensures r.None? <==> forall i | from <= i <= |s| :: !MatchesAt(s, i)
    ensures r.Some? ==> from <= r.value.at && MatchesAt(s, r.value.at)
    ensures r.Some? ==> forall i | from <= i < r.value.at :: !MatchesAt(s, i)
    ensures r.Some? ==> CapturedAt(s, r.value)
    ensures r.Some? ==> (1 <= |r.value.hours| <= 2) && AllDigits(r.value.hours)
    ensures r.Some? ==> |r.value.minutes| == 2 && AllDigits(r.value.minutes)
    ensures r.Some? && TwoDigitHourAt(s, r.value.at) ==>
      r.value.hours == s[r.value.at..r.value.at + 2] && r.value.minutes == s[r.value.at + 3..r.value.at + 5]
    ensures r.Some? && !TwoDigitHourAt(s, r.value.at) ==>
      var at := r.value.at;
      && r.value.hours == [s[at]] && r.value.minutes == [s[at + 2], s[at + 3]]
    decreases |s| - from
  {
    if from + 4 > |s| then None
    else
      match MatchAt(s, from)
      case Some(m) =>
        CapturedGroups(s, m);
        Some(m)
      case None =>
        MatchTime(s, from + 1)
  }

  /** `formatTimeTo24h(timeStr)`; `parse` is `new Date(text)`. */
  function FormatTimeTo24h(input: TimeInput, parse: string -> Option<DateTime>): (r: string)
    ensures input.DateInput? ==> r == FormatClock(input.date)
    ensures input.TextInput? ==> IsHhMm(r)
    ensures input.TextInput? && IsHhMm(input.text) ==> r == input.text
    ensures input.TextInput? && !IsHhMm(input.text) && parse(input.text).Some? ==>
      r == FormatClock(parse(input.text))
    ensures (input.TextInput? && !IsHhMm(input.text) && parse(input.text).None?
             && forall i | 0 <= i <= |input.text| :: !MatchesAt(input.text, i)) ==> r == "00:00"
    ensures input.TextInput? && !IsHhMm(input.text) && parse(input.text).None? && MatchTime(input.text, 0).Some? ==>
      r == MatchedClock(MatchTime(input.text, 0).value)
  {
    match input
    case DateInput(d) => FormatClock(d)
    case TextInput(s) =>
      if IsHhMm(s) then s
      else if parse(s).Some? then FormatClock(parse(s))
      else
        match MatchTime(s, 0)
        case Some(m) => MatchedClock(m)
        case None => "00:00"
  }

  /** Text that is neither "HH:mm" nor a date shows the first time written
      inside it, its hour padded to two digits. */
  lemma EmbeddedTimeShown(s: string, parse: string -> Option<DateTime>, at: nat)
    requires !IsHhMm(s) && parse(s).None?
    requires MatchesAt(s, at) && forall i | 0 <= i < at :: !MatchesAt(s, i)
    ensures TwoDigitHourAt(s, at) ==> FormatTimeTo24h(TextInput(s), parse) == s[at..at + 5]
    ensures !TwoDigitHourAt(s, at) ==> FormatTimeTo24h(TextInput(s), parse) == ['0'] + s[at..at + 4]
  {
    FirstMatchIsAt(s, at);
    var m := MatchTime(s, 0).value;
    if TwoDigitHourAt(s, at) {
      ClockOfTwoDigitMatch(s, m);
    } else {
      ClockOfOneDigitMatch(s, m);
    }
  }

  /** The search from the start finds the leftmost position that matches. */
  lemma FirstMatchIsAt(s: string, at: nat)
    requires MatchesAt(s, at) && forall i | 0 <= i < at :: !MatchesAt(s, i)
    ensures MatchTime(s, 0).Some? && MatchTime(s, 0).value.at == at
  {
    var m := MatchTime(s, 0);
    assert m.Some?;
    assert !(m.value.at < at);
    assert !(at < m.value.at);
  }

  lemma ClockOfTwoDigitMatch(s: string, m: TimeMatch)
    requires CapturedAt(s, m) && TwoDigitHourAt(s, m.at)
    ensures MatchedClock(m) == s[m.at..m.at + 5]
  {
    var r := MatchedClock(m);
    assert forall k | 0 <= k < 5 :: r[k] == s[m.at + k];
  }

  lemma ClockOfOneDigitMatch(s: string, m: TimeMatch)
    requires CapturedAt(s, m) && !TwoDigitHourAt(s, m.at)
    ensures MatchedClock(m) == ['0'] + s[m.at..m.at + 4]
  {
    var r := MatchedClock(m);
    assert forall k | 1 <= k < 5 :: r[k] == s[m.at + k - 1];
  }

  /** `${hours.padStart(2, '0')}:${minutes}` for the groups of a match. */
  function MatchedClock(m: TimeMatch): (r: string)
    requires 1 <= |m.hours| <= 2 && AllDigits(m.hours)
    requires |m.minutes| == 2 && AllDigits(m.minutes)
    ensures IsHhMm(r)
    ensures |m.hours| == 2 ==> r[0] == m.hours[0] && r[1] == m.hours[1]
    ensures |m.hours| == 1 ==> r[0] == '0' && r[1] == m.hours[0]
    ensures r[3] == m.minutes[0] && r[4] == m.minutes[1]
  {
    var h := PadStart2(m.hours);
    PadStart2Digits(m.hours);
    var r := h + ":" + m.minutes;
    assert r[0] == h[0] && r[1] == h[1] && r[2] == ':';
    assert r[3] == m.minutes[0] && r[4] == m.minutes[1];
    r
  }

  /** Formatting text twice gives what formatting it once gave. */
  lemma FormatTimeTo24hIdempotent(s: string, parse: string -> Option<DateTime>)
    ensures FormatTimeTo24h(TextInput(FormatTimeTo24h(TextInput(s), parse)), parse)
         == FormatTimeTo24h(TextInput(s), parse)
  {
  }

  /** `date.setMinutes(m)`: the same day, hour, seconds and milliseconds,
      with the minute field replaced; out-of-range minutes carry over. */
  function SetMinutes(d: DateTime, m: int): DateTime {
    FromTime(d.day * MsPerDay + Hours(d) * MsPerHour + m * MsPerMinute + d.ms % MsPerMinute)
  }

  /** Replacing the minute field by `minutes + n` moves the time by `n`
      minutes. */
  lemma SetMinutesAdds(d: DateTime, n: int)
    ensures SetMinutes(d, Minutes(d) + n) == AddMinutes(d, n)
  {
    var h, mi, rest := Hours(d), Minutes(d), d.ms % MsPerMinute;
    var q := d.ms / MsPerMinute;
    assert d.ms == q * MsPerMinute + rest;
    assert q == h * 60 + mi by {
      UniqueDivMod(d.ms, MsPerHour, h, d.ms % MsPerHour);
      UniqueDivMod(q, 60, q / 60, mi);
      assert d.ms == (q / 60) * MsPerHour + (q % 60) * MsPerMinute + rest;
      UniqueDivMod(d.ms, MsPerHour, q / 60, (q % 60) * MsPerMinute + rest);
    }
    assert d.ms == h * MsPerHour + mi * MsPerMinute + rest;
  }

  /** `calculateEndTime(startsAt, durationMin)`, given what `new Date(startsAt)`
      parsed: set the minutes forward, then format the `Date`. */
  function CalculateEndTime(parsed: Option<DateTime>, durationMin: int): (r: string)
    ensures r == GetEndTime(parsed, durationMin)
    ensures parsed.Some? <==> IsHhMm(r)
  {
    match parsed
    case None => FormatTimeTo24h(DateInput(None), _ => None)
    case Some(d) =>
      SetMinutesAdds(d, durationMin);
      FormatTimeTo24h(DateInput(Some(SetMinutes(d, Minutes(d) + durationMin))), _ => None)
  }

  // ---------------------------------------------------------------------
  // normalizeTimeOrder
  // ---------------------------------------------------------------------

  datatype TimeOrder = TimeOrder(startTime: string, endTime: string, wasReversed: bool)

  /** Start at or after end, as `startH * 60 + startM >= endH * 60 + endM`
      compares; a `NaN` side makes the comparison false. */
  predicate NotBefore(start: string, end: string) {
    var a, b := MinutesOf(start), MinutesOf(end);
    a.Some? && b.Some? && a.value >= b.value
  }

  /** `normalizeTimeOrder`. */
  function NormalizeTimeOrder(start: string, end: string): (r: TimeOrder)
    ensures (r.startTime, r.endTime) == (start, end) || (r.startTime, r.endTime) == (end, start)
    ensures r.wasReversed <==> NotBefore(start, end)
    ensures r.wasReversed ==> r.startTime == end && r.endTime == start
    ensures !r.wasReversed ==> r.startTime == start && r.endTime == end
  {
    if NotBefore(start, end) then TimeOrder(end, start, true) else TimeOrder(start, end, false)
  }

  /** After normalising, two readable times are in order: the start is
      strictly before the end unless they are the same minute. */
  lemma NormalizeTimeOrderOrders(start: string, end: string)
    requires MinutesOf(start).Some? && MinutesOf(end).Some?
    ensures var r := NormalizeTimeOrder(start, end);
      MinutesOf(r.startTime).value <= MinutesOf(r.endTime).value
      && (MinutesOf(start) != MinutesOf(end) ==> MinutesOf(r.startTime).value < MinutesOf(r.endTime).value)
  {
  }

  /** After normalising, the start is at or after the end only when the two
      readings are the same minute. */
  lemma NormalizedOutOfOrderOnlyWhenEqual(start: string, end: string)
    ensures var r := NormalizeTimeOrder(start, end);
      NotBefore(r.startTime, r.endTime) ==> MinutesOf(start) == MinutesOf(end)
  {
    var r := NormalizeTimeOrder(start, end);
    if r.wasReversed {
      if NotBefore(r.startTime, r.endTime) {
        NotBeforeBothWays(start, end);
      }
    } else {
      assert !NotBefore(r.startTime, r.endTime);
    }
  }

  lemma NotBeforeBothWays(a: string, b: string)
    requires NotBefore(a, b) && NotBefore(b, a)
    ensures MinutesOf(a) == MinutesOf(b)
  {
  }

  /** Normalising a normalised pair of distinct times reverses nothing. */
  lemma NormalizeTimeOrderSettles(start: string, end: string)
    requires MinutesOf(start) != MinutesOf(end)
    ensures var r := NormalizeTimeOrder(start, end);
      NormalizeTimeOrder(r.startTime, r.endTime) == TimeOrder(r.startTime, r.endTime, false)
  {
    var r := NormalizeTimeOrder(start, end);
    if r.wasReversed {
      assert MinutesOf(end).value < MinutesOf(start).value;
      assert !NotBefore(end, start);
    } else {
      assert !NotBefore(start, end);
    }
  }

  // ---------------------------------------------------------------------
  // inferSessionType
  // ---------------------------------------------------------------------

  const Pilates := "بيلاتس"
  const Apparatus := "أجهزة"
  const Mat := "مات"
  const Yoga1 := "يوغا"
  const Yoga2 := "يوجا"
  const Strength1 := "قوة"
  const Strength2 := "تمارين"

  /** The keyword checks run on `title.toLowerCase()`. */
  function InferFromKeywords(lower: string): (t: SessionType)
    ensures Contains(lower, Pilates) ==> t == PilatesReformer || t == PilatesMat
    ensures (!Contains(lower, Pilates) && !Contains(lower, Yoga1) && !Contains(lower, Yoga2)
             && !Contains(lower, Strength1) && !Contains(lower, Strength2)) ==> t == Other
    ensures t == PilatesMat ==> Contains(lower, Pilates) && Contains(lower, Mat) && !Contains(lower, Apparatus)
  {
    if Contains(lower, Pilates) && Contains(lower, Apparatus) then PilatesReformer
    else if Contains(lower, Pilates) && Contains(lower, Mat) then PilatesMat
    else if Contains(lower, Pilates) then PilatesReformer
    else if Contains(lower, Yoga1) || Contains(lower, Yoga2) then Yoga
    else if Contains(lower, Strength1) || Contains(lower, Strength2) then Strength
    else Other
  }

  /** A keyword without Latin capitals occurs in the lower-cased title
      exactly where it occurs in the title. */
  lemma ContainsLowered(s: string, k: string)
    requires forall j | 0 <= j < |k| :: !('A' <= k[j] <= 'Z') && !('a' <= k[j] <= 'z')
    ensures Contains(ToLower(s), k) <==> Contains(s, k)
  {
    var l := ToLower(s);
    if Contains(l, k) {
      var i :| 0 <= i <= |l| - |k| && OccursAt(l, k, i);
      assert OccursAt(s, k, i) by {
        forall j | 0 <= j < |k| ensures s[i + j] == k[j] {
          assert l[i..i + |k|][j] == k[j];
        }
      }
    }
    if Contains(s, k) {
      var i :| 0 <= i <= |s| - |k| && OccursAt(s, k, i);
      assert OccursAt(l, k, i) by {
        forall j | 0 <= j < |k| ensures l[i + j] == k[j] {
          assert s[i..i + |k|][j] == k[j];
        }
      }
    }
  }

  /** `inferSessionType(title)`. */
  function InferSessionType(title: string): (t: SessionType)
    ensures TypeFromArabic(title).Some? ==> t == TypeFromArabic(title).value
    ensures TypeFromArabic(title).None? ==> t == InferFromKeywords(ToLower(title))
  {
    match TypeFromArabic(title)
    case Some(t) => t
    case None => InferFromKeywords(ToLower(title))
  }

  /** Stated on the title itself: a title naming Pilates is one of the
      Pilates types, and a title with none of the keywords is 'other'. */
  lemma InferSessionTypeKeywords(title: string)
    ensures Contains(title, Pilates) ==> InferSessionType(title) in {PilatesReformer, PilatesMat}
    ensures TypeFromArabic(title).None? && !Contains(title, Pilates) && !Contains(title, Yoga1)
      && !Contains(title, Yoga2) && !Contains(title, Strength1) && !Contains(title, Strength2)
      ==> InferSessionType(title) == Other
  {
    if TypeFromArabic(title).Some? && Contains(title, Pilates) {
      TableTitlesWithoutPilates(title);
    }
    ContainsLowered(title, Pilates);
    ContainsLowered(title, Yoga1);
    ContainsLowered(title, Yoga2);
    ContainsLowered(title, Strength1);
    ContainsLowered(title, Strength2);
  }

  /** A string in which the first two letters of `k` are never adjacent
      does not contain `k`. */
  lemma NoLeadingPairNoOccurrence(s: string, k: string)
    requires |k| >= 2
    requires forall i | 0 <= i < |s| - 1 :: !(s[i] == k[0] && s[i + 1] == k[1])
    ensures !Contains(s, k)
  {
    forall i | 0 <= i <= |s| - |k| ensures !OccursAt(s, k, i) {
      assert s[i..i + |k|][0] == s[i] && s[i..i + |k|][1] == s[i + 1];
    }
  }

  /** The only table titles containing 'بيلاتس' are the Pilates ones. */
  lemma TableTitlesWithoutPilates(title: string)
    requires TypeFromArabic(title).Some? && Contains(title, Pilates)
    ensures TypeFromArabic(title).value in {PilatesReformer, PilatesMat}
  {
    if title == "تمارين القوة" || title == "يوغا صباحية" || title == "يوغا" || title == "تمارين" {
      NoLeadingPairNoOccurrence(title, Pilates);
      assert false;
    }
  }

  /** Every label of the table infers back to its own type. */
  lemma InferSessionTypeOfLabel(t: SessionType)
    requires t != Other
    ensures InferSessionType(TypeLabel(t)) == t
  {
    TypeLabelRoundTrip(t);
  }

  // ---------------------------------------------------------------------
  // clampOccupiedCount
  // ---------------------------------------------------------------------

  datatype Clamped = Clamped(occupiedCount: int, wasClamped: bool)

  /** `clampOccupiedCount(occupied, total)`. */
  function ClampOccupiedCount(occupied: int, total: int): (r: Clamped)
    ensures total >= 0 ==> 0 <= r.occupiedCount <= total
    ensures r.wasClamped <==> !(0 <= occupied <= total)
    ensures !r.wasClamped ==> r.occupiedCount == occupied
  {
    if occupied > total then Clamped(total, true)
    else if occupied < 0 then Clamped(0, true)
    else Clamped(occupied, false)
  }

  /** Clamping a clamped count changes nothing. */
  lemma ClampIdempotent(occupied: int, total: int)
    requires total >= 0
    ensures ClampOccupiedCount(ClampOccupiedCount(occupied, total).occupiedCount, total)
         == Clamped(ClampOccupiedCount(occupied, total).occupiedCount, false)
  {
  }

  // ---------------------------------------------------------------------
  // mapApiToSessionCore
  // ---------------------------------------------------------------------

  /** The fields of an API session record the mapper reads; `None` is a
      missing (`undefined` or `null`) field. */
  datatype ApiSession = ApiSession(
    id: Option<string>,
    startsAt: Option<string>, startsAtSnake: Option<string>, startTime: Option<string>,
    endTime: Option<string>, endsAtSnake: Option<string>, endsAt: Option<string>,
    durationMin: Option<int>, durationMinSnake: Option<int>, duration: Option<int>,
    title: Option<string>, titleAr: Option<string>, name: Option<string>,
    sessionType: Option<string>,
    capacity: Option<int>, capacityTotal: Option<int>, totalCapacitySnake: Option<int>,
    bookedCount: Option<int>, bookedCountSnake: Option<int>, occupiedCount: Option<int>,
    availableSeats: Option<int>, availableSeatsSnake: Option<int>,
    instructorName: Option<string>, instructorNameSnake: Option<string>, instructor: Option<string>,
    locationName: Option<string>, locationNameSnake: Option<string>, location: Option<string>,
    status: Option<string>)

  /** `startsAt || starts_at || startTime || ''`. */
  function StartsAt(api: ApiSession): (s: string)
    ensures Truthy(api.startsAt, "") ==> s == api.startsAt.value
    ensures !Truthy(api.startsAt, "") && Truthy(api.startsAtSnake, "") ==> s == api.startsAtSnake.value
    ensures !Truthy(api.startsAt, "") && !Truthy(api.startsAtSnake, "") && Truthy(api.startTime, "") ==>
      s == api.startTime.value
    ensures !Truthy(api.startsAt, "") && !Truthy(api.startsAtSnake, "") && !Truthy(api.startTime, "") ==> s == ""
  {
    Or(api.startsAt, Or(api.startsAtSnake, Or(api.startTime, Some(""), ""), ""), "").value
  }

  /** `capacity || capacityTotal || total_capacity || 0`. */
  function Capacity(api: ApiSession): (c: int)
    ensures Truthy(api.capacity, 0) ==> c == api.capacity.value
    ensures !Truthy(api.capacity, 0) && Truthy(api.capacityTotal, 0) ==> c == api.capacityTotal.value
    ensures !Truthy(api.capacity, 0) && !Truthy(api.capacityTotal, 0) ==> c == api.totalCapacitySnake.GetOr(0)
  {
    Or(api.capacity, Or(api.capacityTotal, Or(api.totalCapacitySnake, Some(0), 0), 0), 0).value
  }

  /** The occupancy before clamping: the first count that is a number,
      else capacity minus the first seats figure that is a number, else 0. */
  function RawOccupied(api: ApiSession, capacity: int): (n: int)
    ensures api.bookedCount.Some? ==> n == api.bookedCount.value
    ensures api.bookedCount.None? && api.bookedCountSnake.Some? ==> n == api.bookedCountSnake.value
    ensures api.bookedCount.None? && api.bookedCountSnake.None? && api.occupiedCount.Some? ==>
      n == api.occupiedCount.value
    ensures api.bookedCount.None? && api.bookedCountSnake.None? && api.occupiedCount.None? ==>
      n == (if api.availableSeats.Some? then capacity - api.availableSeats.value
            else if api.availableSeatsSnake.Some? then capacity - api.availableSeatsSnake.value
            else 0)
  {
    if api.bookedCount.Some? then api.bookedCount.value
    else if api.bookedCountSnake.Some? then api.bookedCountSnake.value
    else if api.occupiedCount.Some? then api.occupiedCount.value
    else if api.availableSeats.Some? then capacity - api.availableSeats.value
    else if api.availableSeatsSnake.Some? then capacity - api.availableSeatsSnake.value
    else 0
  }

  /** The end time: a given end time formatted, else start plus the first
      truthy duration, else start plus 60 minutes. */
  function EndTimeOf(api: ApiSession, startsAt: string, parse: string -> Option<DateTime>): (s: string)
    ensures var e := Or(api.endTime, Or(api.endsAtSnake, api.endsAt, ""), "");
      Truthy(e, "") ==> s == FormatTimeTo24h(TextInput(e.value), parse)
    ensures var e := Or(api.endTime, Or(api.endsAtSnake, api.endsAt, ""), "");
      var d := Or(api.durationMin, Or(api.durationMinSnake, api.duration, 0), 0);
      !Truthy(e, "") ==> s == GetEndTime(parse(startsAt), if Truthy(d, 0) then d.value else 60)
  {
    var e := Or(api.endTime, Or(api.endsAtSnake, api.endsAt, ""), "");
    var d := Or(api.durationMin, Or(api.durationMinSnake, api.duration, 0), 0);
    if Truthy(e, "") then FormatTimeTo24h(TextInput(e.value), parse)
    else if Truthy(d, 0) then CalculateEndTime(parse(startsAt), d.value)
    else CalculateEndTime(parse(startsAt), 60)
  }

  /** `title || titleAr || name || ''`. */
  function TitleOf(api: ApiSession): (t: string)
    ensures Truthy(api.title, "") ==> t == api.title.value
    ensures !Truthy(api.title, "") && Truthy(api.titleAr, "") ==> t == api.titleAr.value
    ensures !Truthy(api.title, "") && !Truthy(api.titleAr, "") ==> t == api.name.GetOr("")
  {
    Or(api.title, Or(api.titleAr, Or(api.name, Some(""), ""), ""), "").value
  }

  /** `mapApiToSessionCore(api)`; `parse` is `new Date(text)`. */
  function MapApiToSessionCore(api: ApiSession, parse: string -> Option<DateTime>): (s: SessionCore)
    ensures s.capacityTotal == Capacity(api)
    ensures s.capacityTotal >= 0 ==> 0 <= s.occupiedCount <= s.capacityTotal
    ensures s.occupiedCount == ClampOccupiedCount(RawOccupied(api, s.capacityTotal), s.capacityTotal).occupiedCount
    ensures s.id == (if Truthy(api.id, "") then api.id.value else "")
    ensures s.titleAr == TitleOf(api)
    ensures s.typeKey == (if Truthy(api.sessionType, "") then api.sessionType.value
                          else TypeKey(InferSessionType(TitleOf(api))))
    ensures s.dateIso == Some(StartsAt(api))
    ensures s.weekday == WeekdayFromParsed(parse(StartsAt(api)))
    ensures IsHhMm(s.startTime)
    ensures var st := FormatTimeTo24h(TextInput(StartsAt(api)), parse);
      var et := EndTimeOf(api, StartsAt(api), parse);
      (s.startTime, s.endTime) == (st, et) || (s.startTime, s.endTime) == (et, st)
    ensures var o := NormalizeTimeOrder(FormatTimeTo24h(TextInput(StartsAt(api)), parse), EndTimeOf(api, StartsAt(api), parse));
      s.startTime == o.startTime && s.endTime == o.endTime
    ensures Truthy(api.instructorName, "") ==> s.instructorName == api.instructorName
    ensures !Truthy(api.instructorName, "") && Truthy(api.instructorNameSnake, "") ==>
      s.instructorName == api.instructorNameSnake
    ensures !Truthy(api.instructorName, "") && !Truthy(api.instructorNameSnake, "") ==>
      s.instructorName == api.instructor
    ensures Truthy(api.locationName, "") ==> s.locationName == api.locationName
    ensures !Truthy(api.locationName, "") && Truthy(api.locationNameSnake, "") ==>
      s.locationName == api.locationNameSnake
    ensures !Truthy(api.locationName, "") && !Truthy(api.locationNameSnake, "") ==>
      s.locationName == api.location
    ensures s.status == api.status
  {
    var startsAt := StartsAt(api);
    var startTime := FormatTimeTo24h(TextInput(startsAt), parse);
    var endTime := EndTimeOf(api, startsAt, parse);
    var ordered := NormalizeTimeOrder(startTime, endTime);
    assert !IsHhMm(endTime) ==> !ordered.wasReversed by {
      if !IsHhMm(endTime) { MinutesOfMalformedEnd(api, startsAt, parse, endTime); }
    }
    var title := TitleOf(api);
    var typeKey := if Truthy(api.sessionType, "") then api.sessionType.value
                   else TypeKey(InferSessionType(title));
    var capacity := Capacity(api);
    var occupied := ClampOccupiedCount(RawOccupied(api, capacity), capacity).occupiedCount;
    SessionCore(
      id := Or(api.id, Some(""), "").value,
      weekday := WeekdayFromParsed(parse(startsAt)),
      dateIso := Some(startsAt),
      startTime := ordered.startTime,
      endTime := ordered.endTime,
      typeKey := typeKey,
      titleAr := title,
      instructorName := Or(api.instructorName, Or(api.instructorNameSnake, api.instructor, ""), ""),
      locationName := Or(api.locationName, Or(api.locationNameSnake, api.location, ""), ""),
      capacityTotal := capacity,
      occupiedCount := occupied,
      status := api.status)
  }

  /** The only end time that is not "HH:mm" is "NaN:NaN", which never
      compares as earlier. */
  lemma MinutesOfMalformedEnd(api: ApiSession, startsAt: string, parse: string -> Option<DateTime>, endTime: string)
    requires endTime == EndTimeOf(api, startsAt, parse) && !IsHhMm(endTime)
    ensures MinutesOf(endTime).None?
  {
    assert endTime == "NaN:NaN";
    NaNClockUnreadable();
  }

  /** "NaN:NaN" reads as `NaN` minutes. */
  lemma NaNClockUnreadable()
    ensures MinutesOf("NaN:NaN").None?
  {
    var s := "NaN:NaN";
    assert ':' in s by { assert s[3] == ':'; }
    assert FirstIndex(s, ':') == 3 by {
      var i := FirstIndex(s, ':');
      assert s[i] == ':';
    }
    assert s[..3] == "NaN";
    assert Split(s, ':')[0] == "NaN";
    assert TimePart(s, 0) == JsNumber("NaN");
    var t := "NaN";
    assert Trim(t) == t by { assert !IsJsSpace(t[0]) && !IsJsSpace(t[2]); }
    assert !AllDigits(t) by { assert !IsDigit(t[0]); }
    assert t[0] != '-' && t[0] != '+';
  }

  // ---------------------------------------------------------------------
  // Bookings and admin session details
  // ---------------------------------------------------------------------

  datatype ApiUser = ApiUser(name: Option<string>, phone: Option<string>)

  datatype ApiBooking = ApiBooking(
    id: Option<string>, reservationId: Option<string>, reservationIdSnake: Option<string>,
    customerName: Option<string>, customerNameSnake: Option<string>, name: Option<string>,
    user: Option<ApiUser>,
    phone: Option<string>, phoneNumber: Option<string>, phoneNumberSnake: Option<string>,
    bedNumber: Option<int>, bedNumberSnake: Option<int>, bed: Option<int>,
    attended: Option<bool>, attendance: Option<bool>,
    createdAt: Option<string>, createdAtSnake: Option<string>,
    status: Option<string>)

  datatype BookingDetails = BookingDetails(
    id: string, customerName: string, phone: Option<string>, bedNumber: Option<int>,
    attended: Option<bool>, createdAt: Option<string>, status: Option<string>)

  /** `api.user?.name` and `api.user?.phone`. */
  function UserName(api: ApiBooking): Option<string> {
    if api.user.Some? then api.user.value.name else None
  }

  function UserPhone(api: ApiBooking): Option<string> {
    if api.user.Some? then api.user.value.phone else None
  }

  /** `mapApiToBookingDetails(api)`. */
  function MapApiToBookingDetails(api: ApiBooking): (b: BookingDetails)
    ensures Truthy(api.id, "") ==> b.id == api.id.value
    ensures !Truthy(api.id, "") && Truthy(api.reservationId, "") ==> b.id == api.reservationId.value
    ensures !Truthy(api.id, "") && !Truthy(api.reservationId, "") && Truthy(api.reservationIdSnake, "") ==>
      b.id == api.reservationIdSnake.value
    ensures b.id == "" <==>
      !Truthy(api.id, "") && !Truthy(api.reservationId, "") && !Truthy(api.reservationIdSnake, "")
    ensures Truthy(api.customerName, "") ==> b.customerName == api.customerName.value
    ensures !Truthy(api.customerName, "") && Truthy(api.customerNameSnake, "") ==>
      b.customerName == api.customerNameSnake.value
    ensures !Truthy(api.customerName, "") && !Truthy(api.customerNameSnake, "") && Truthy(api.name, "") ==>
      b.customerName == api.name.value
    ensures !Truthy(api.customerName, "") && !Truthy(api.customerNameSnake, "") && !Truthy(api.name, "") ==>
      b.customerName == UserName(api).GetOr("")
    ensures b.customerName == "" ==>
      (!Truthy(api.customerName, "") && !Truthy(api.customerNameSnake, "")
       && !Truthy(api.name, "") && !Truthy(UserName(api), ""))
    ensures Truthy(api.phone, "") ==> b.phone == api.phone
    ensures !Truthy(api.phone, "") && Truthy(api.phoneNumber, "") ==> b.phone == api.phoneNumber
    ensures !Truthy(api.phone, "") && !Truthy(api.phoneNumber, "") && Truthy(api.phoneNumberSnake, "") ==>
      b.phone == api.phoneNumberSnake
    ensures !Truthy(api.phone, "") && !Truthy(api.phoneNumber, "") && !Truthy(api.phoneNumberSnake, "") ==>
      b.phone == UserPhone(api)
    ensures Truthy(api.bedNumber, 0) ==> b.bedNumber == api.bedNumber
    ensures !Truthy(api.bedNumber, 0) && Truthy(api.bedNumberSnake, 0) ==> b.bedNumber == api.bedNumberSnake
    ensures !Truthy(api.bedNumber, 0) && !Truthy(api.bedNumberSnake, 0) ==> b.bedNumber == api.bed
    ensures api.attended.Some? ==> b.attended == api.attended
    ensures api.attended.None? ==> b.attended == api.attendance
    ensures Truthy(api.createdAt, "") ==> b.createdAt == api.createdAt
    ensures !Truthy(api.createdAt, "") ==> b.createdAt == api.createdAtSnake
    ensures b.status == api.status
  {
    BookingDetails(
      id := Or(api.id, Or(api.reservationId, Or(api.reservationIdSnake, Some(""), ""), ""), "").value,
      customerName := Or(api.customerName, Or(api.customerNameSnake, Or(api.name, Or(UserName(api), Some(""), ""), ""), ""), "").GetOr(""),
      phone := Or(api.phone, Or(api.phoneNumber, Or(api.phoneNumberSnake, UserPhone(api), ""), ""), ""),
      bedNumber := Or(api.bedNumber, Or(api.bedNumberSnake, api.bed, 0), 0),
      attended := Nullish(api.attended, Nullish(api.attendance, None)),
      createdAt := Or(api.createdAt, api.createdAtSnake, ""),
      status := api.status)
  }

  datatype AdminSessionDetails = AdminSessionDetails(core: SessionCore, bookings: seq<BookingDetails>)

  /** `api.bookings || api.reservations || []`: an array is truthy even
      when empty, so a present `bookings` wins. */
  function RawBookings(bookings: Option<seq<ApiBooking>>, reservations: Option<seq<ApiBooking>>): seq<ApiBooking> {
    if bookings.Some? then bookings.value
    else if reservations.Some? then reservations.value
    else []
  }

  /** The details record: the session with its mapped bookings; a count of
      zero is replaced by the number of bookings, clamped to the capacity. */
  function WithBookings(core: SessionCore, raw: seq<ApiBooking>): (r: AdminSessionDetails)
    ensures |r.bookings| == |raw|
    ensures forall i | 0 <= i < |raw| :: r.bookings[i] == MapApiToBookingDetails(raw[i])
    ensures r.core.(occupiedCount := core.occupiedCount) == core
    ensures core.occupiedCount == 0 && |raw| > 0 ==>
      r.core.occupiedCount == ClampOccupiedCount(|raw|, core.capacityTotal).occupiedCount
    ensures core.occupiedCount != 0 || |raw| == 0 ==> r.core.occupiedCount == core.occupiedCount
    ensures core.capacityTotal >= 0 && 0 <= core.occupiedCount <= core.capacityTotal ==>
      0 <= r.core.occupiedCount <= r.core.capacityTotal
  {
    var mapped := seq(|raw|, i requires 0 <= i < |raw| => MapApiToBookingDetails(raw[i]));
    var occupied := if core.occupiedCount == 0 && |mapped| > 0
                    then ClampOccupiedCount(|mapped|, core.capacityTotal).occupiedCount
                    else core.occupiedCount;
    AdminSessionDetails(core.(occupiedCount := occupied), mapped)
  }

  /** `mapApiToAdminSessionDetails(api)`: the bookings come from
      `bookings`, else `reservations`, else none. */
  function MapApiToAdminSessionDetails(
    api: ApiSession, bookings: Option<seq<ApiBooking>>, reservations: Option<seq<ApiBooking>>,
    parse: string -> Option<DateTime>): (r: AdminSessionDetails)
    ensures |r.bookings| == |RawBookings(bookings, reservations)|
    ensures r.core.capacityTotal >= 0 ==> 0 <= r.core.occupiedCount <= r.core.capacityTotal
  {
    WithBookings(MapApiToSessionCore(api, parse), RawBookings(bookings, reservations))
  }
}
