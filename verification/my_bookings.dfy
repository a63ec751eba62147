/** The consumer's bookings list: the 48-hour cancellation rule, the status
    a reservation card shows, the Arabic 12-hour clock, the date range of
    the past tab, and the details and cancel-confirmation dialogs.

    Times are milliseconds since the epoch; a start that does not parse is
    `None` (JavaScript's `NaN`, which compares false with everything). */
module MyBookings {
  import opened Wrappers
  import opened Js
  import opened Text
  import opened Calendar
  import opened UtcDate

  const CancelCutoffHours: int := 48

  /** `canCancelReservation`: the session starts at least 48 hours from
      now, on the hour boundary included. */
  function CanCancelReservation(start: Option<int>, now: int): (ok: bool)
    ensures ok <==> start.Some? && start.value - now >= CancelCutoffHours * MsPerHour
  {
    match start
    case None => false
    case Some(t) =>
      var hoursUntil := ((t - now) as real) / (MsPerHour as real);
      assert hoursUntil * (MsPerHour as real) == (t - now) as real;
      hoursUntil >= CancelCutoffHours as real
  }

  datatype ReservationStatus = Upcoming | Attended | Missed

  /** `sessionDate <= now`: false for an unparsable start. */
  predicate IsPast(start: Option<int>, now: int) {
    start.Some? && start.value <= now
  }

  /** `getReservationStatus`: upcoming for a booked session not yet begun,
      attended whenever the studio marked it so, missed otherwise
      (cancelled sessions included). */
  function StatusOf(start: Option<int>, now: int, status: string): (s: ReservationStatus)
    ensures s == Upcoming <==> !IsPast(start, now) && status == "booked"
    ensures s == Attended <==> status == "attended"
    ensures s == Missed <==> status != "attended" && (IsPast(start, now) || status != "booked")
  {
    if !IsPast(start, now) && status == "booked" then Upcoming
    else if status == "attended" then Attended
    else if status == "canceled" then Missed
    else Missed
  }

  /** `canCancel`: an upcoming reservation at least 48 hours away. */
  function CanCancel(start: Option<int>, now: int, status: string): (ok: bool)
    ensures ok <==> status == "booked" && start.Some? && start.value - now >= CancelCutoffHours * MsPerHour
  {
    StatusOf(start, now, status) == Upcoming && CanCancelReservation(start, now)
  }

  /** Only a booked reservation whose session lies two days or more ahead
      can be cancelled; in particular a card that is not upcoming never
      offers it. */
  lemma CancelOnlyUpcoming(start: Option<int>, now: int, status: string)
    ensures CanCancel(start, now, status) ==> StatusOf(start, now, status) == Upcoming
    ensures CanCancel(start, now, status) <==>
      status == "booked" && start.Some? && start.value - now >= CancelCutoffHours * MsPerHour
  {
  }

  /** A booked reservation whose start does not parse is listed as
      upcoming but cannot be cancelled. */
  lemma UnparsableBookedIsUpcoming(now: int)
    ensures StatusOf(None, now, "booked") == Upcoming && !CanCancel(None, now, "booked")
  {
  }

  // ---------------------------------------------------------------------
  // formatArabicTime
  // ---------------------------------------------------------------------

  const Evening := " مساءً"
  const Morning := " صباحاً"

  /** `hours % 12 || 12`. */
  function Hour12(h: int): (r: int)
    requires 0 <= h < 24
    ensures 1 <= r <= 12 && r % 12 == h % 12
  {
    Or(Some(h % 12), Some(12), 0).value
  }

  /** `formatArabicTime`: "hh:mm" on a 12-hour clock followed by the
      evening or morning word. An invalid date reads "12:NaN" in the
      morning. */
  function FormatArabicTime(parsed: Option<DateTime>): (r: string)
    ensures parsed.None? ==> r == "12:NaN" + Morning
    ensures parsed.Some? ==>
      var d := parsed.value;
      && |r| > 5 && AllDigits(r[..2]) && AllDigits(r[3..5]) && r[2] == ':'
      && 1 <= DecimalValue(r[..2]) <= 12 && DecimalValue(r[..2]) % 12 == Hours(d) % 12
      && DecimalValue(r[3..5]) == Minutes(d)
      && r[5..] == (if Hours(d) >= 12 then Evening else Morning)
  {
    match parsed
    case None =>
      Pad2Exact(12);
      assert Pad2(12) == "12";
      Pad2(12) + ":" + "NaN" + Morning
    case Some(d) =>
      var h := Hour12(Hours(d));
      Pad2Digits(h);
      Pad2Digits(Minutes(d));
      var r := Pad2(h) + ":" + Pad2(Minutes(d)) + (if Hours(d) >= 12 then Evening else Morning);
      assert r[..2] == Pad2(h) && r[3..5] == Pad2(Minutes(d));
      r
  }

  /** The text gives back the clock reading: two times shown alike have
      the same hour and minute. */
  lemma ArabicTimeDeterminesClock(a: DateTime, b: DateTime)
    requires FormatArabicTime(Some(a)) == FormatArabicTime(Some(b))
    ensures Hours(a) == Hours(b) && Minutes(a) == Minutes(b)
  {
    var r := FormatArabicTime(Some(a));
    assert DecimalValue(r[..2]) % 12 == Hours(a) % 12 == Hours(b) % 12;
    assert DecimalValue(r[3..5]) == Minutes(a) == Minutes(b);
    assert r[5..] == (if Hours(a) >= 12 then Evening else Morning) == (if Hours(b) >= 12 then Evening else Morning);
    assert |Evening| != |Morning|;
    SameHalfSameHour(Hours(a), Hours(b));
  }

  /** An hour of the day is fixed by its 12-hour reading and its half. */
  lemma SameHalfSameHour(x: int, y: int)
    requires 0 <= x < 24 && 0 <= y < 24
    requires x % 12 == y % 12 && (x >= 12) == (y >= 12)
    ensures x == y
  {
  }

  /** `formatTimeRange`: start and end in the Arabic clock; an invalid start
      makes `toISOString` throw. */
  function FormatTimeRange(parsed: Option<DateTime>, durationMin: int): (r: Option<string>)
    ensures r.Some? <==> parsed.Some?
    ensures r.Some? ==> FormatArabicTime(parsed) <= r.value
  {
    match parsed
    case None => None
    case Some(d) =>
      Some(FormatArabicTime(parsed) + " - " + FormatArabicTime(Some(AddMinutes(d, durationMin))))
  }

  /** The range shows the start, " - ", and then the clock `durationMin`
      minutes later, wrapping around midnight. */
  lemma {:induction false} RangeEndsAfterDuration(d: DateTime, n: int)
    ensures var start := FormatArabicTime(Some(d));
      var r := FormatTimeRange(Some(d), n).value;
      && |r| >= |start| + 3
      && r[..|start|] == start && r[|start|..|start| + 3] == " - "
      && exists e: DateTime :: ClockMinutes(e) == (ClockMinutes(d) + n) % 1440
           && r[|start| + 3..] == FormatArabicTime(Some(e))
  {
    var e := AddMinutes(d, n);
    ClockAfterMinutes(d, n);
    var start, end := FormatArabicTime(Some(d)), FormatArabicTime(Some(e));
    assert FormatTimeRange(Some(d), n).value == start + " - " + end;
    RangeParts(start, end);
    assert ClockMinutes(e) == (ClockMinutes(d) + n) % 1440 && (start + " - " + end)[|start| + 3..] == end;
  }

  /** The pieces of "start - end". */
  lemma RangeParts(start: string, end: string)
    ensures var r := start + " - " + end;
      |r| >= |start| + 3 && r[..|start|] == start && r[|start|..|start| + 3] == " - " && r[|start| + 3..] == end
  {
  }

  /** A session of no length shows the same time on both sides. */
  lemma TimeRangeOfZeroDuration(d: DateTime)
    ensures FormatTimeRange(Some(d), 0) == Some(FormatArabicTime(Some(d)) + " - " + FormatArabicTime(Some(d)))
  {
    FromTimeOfTime(d);
  }

  /** The card's session type: the first non-empty of the type label, the
      type and the title, else the default name. */
  function SessionTypeLabel(typeLabel: Option<string>, kind: Option<string>, title: Option<string>): (r: string)
    ensures r != ""
    ensures Truthy(typeLabel, "") ==> r == typeLabel.value
    ensures !Truthy(typeLabel, "") && Truthy(kind, "") ==> r == kind.value
    ensures !Truthy(typeLabel, "") && !Truthy(kind, "") && Truthy(title, "") ==> r == title.value
    ensures !Truthy(typeLabel, "") && !Truthy(kind, "") && !Truthy(title, "") ==> r == "بيلاتس أجهزة"
  {
    Or(typeLabel, Or(kind, Or(title, Some("بيلاتس أجهزة"), ""), ""), "").value
  }

  // ---------------------------------------------------------------------
  // getPastTabDateRange
  // ---------------------------------------------------------------------

  const IsraelOffsetHours: int := 2
  const WeekdayAbbreviations: seq<string> := ["Sun", "Mon", "Tue", "Wed", "Thu", "Fri", "Sat"]

  /** The weekday number of the formatter's short weekday, Sunday when it
      is not recognised. */
  function DayOfWeekOf(weekday: string): (w: int)
    ensures 0 <= w < 7
    ensures weekday in WeekdayAbbreviations ==> WeekdayAbbreviations[w] == weekday
    ensures weekday !in WeekdayAbbreviations ==> w == 0
  {
    var i := IndexOf(WeekdayAbbreviations, weekday);
    if i >= 0 then i else 0
  }

  /** `Date.UTC(year, month, day) - offset`: midnight in the studio's zone. */
  function LocalMidnight(year: int, month: int, day: int): int {
    MakeDay(year, month, day) * MsPerDay - IsraelOffsetHours * MsPerHour
  }

  datatype DateRange = DateRange(from: int, to: int)

  /** `getPastTabDateRange`, from the studio-zone date parts of now: from
      the start of the month, or from the start of the week when that week
      began in the previous month, up to the start of the next month. */
  function PastTabDateRange(year: int, month: int, day: int, dayOfWeek: int): (r: DateRange)
    ensures var monthStart := LocalMidnight(year, month, 1);
      && r.from <= monthStart < r.to
      && (r.from < monthStart <==> day - dayOfWeek < 1)
      && monthStart - r.from == (if day - dayOfWeek < 1 then 1 - (day - dayOfWeek) else 0) * MsPerDay
      && 28 * MsPerDay <= r.to - monthStart <= 31 * MsPerDay
      && r.to - monthStart == DaysInMonth(year + month / 12, month % 12) * MsPerDay
  {
    var monthStart := LocalMidnight(year, month, 1);
    var monthEnd := LocalMidnight(year, month + 1, 1);
    var weekStart := LocalMidnight(year, month, day - dayOfWeek);
    NextMonthStart(year, month);
    DayOffset(year, month, day - dayOfWeek);
    DateRange(if weekStart < monthStart then weekStart else monthStart, monthEnd)
  }

  // ---------------------------------------------------------------------
  // The details and cancel-confirmation dialogs
  // ---------------------------------------------------------------------

  datatype Details = Details(reservationId: string, canCancel: bool, isUpcoming: bool)

  datatype Dialogs = Dialogs(selected: Option<Details>, detailsVisible: bool, cancelVisible: bool)

  const NoDialogs := Dialogs(None, false, false)

  /** A press reaches only the top-most surface: the list when no dialog is
      open, the details dialog when the confirmation is closed. The cancel
      button is live only when the booking can be cancelled. */
  datatype Event =
    | CardPressed(details: Details)
    | CancelPressed
    | ConfirmCancel(succeeded: bool)
    | CloseCancel
    | CloseDetails

  /** One event, with the cancellation request it sends, if any. A failed
      cancellation only raises an alert. */
  function Step(s: Dialogs, e: Event): (r: (Dialogs, Option<string>))
    ensures r.1.Some? ==> s.cancelVisible && s.selected.Some? && r.1.value == s.selected.value.reservationId
  {
    match e
    case CardPressed(b) =>
      if !s.detailsVisible && !s.cancelVisible then (Dialogs(Some(b), true, false), None) else (s, None)
    case CancelPressed =>
      if s.detailsVisible && !s.cancelVisible && s.selected.Some? && s.selected.value.canCancel
      then (s.(cancelVisible := true), None) else (s, None)
    case ConfirmCancel(ok) =>
      if !s.cancelVisible || s.selected.None? then (s, None)
      else (if ok then NoDialogs else s, Some(s.selected.value.reservationId))
    case CloseCancel =>
      (s.(cancelVisible := false), None)
    case CloseDetails =>
      if s.detailsVisible && !s.cancelVisible then (NoDialogs, None) else (s, None)
  }

  /** The details dialog is open exactly when a booking is selected, and the
      confirmation is only ever open over a booking that can be cancelled. */
  predicate DialogsConsistent(s: Dialogs) {
    && (s.detailsVisible <==> s.selected.Some?)
    && (s.cancelVisible ==> s.detailsVisible && s.selected.value.canCancel)
  }

  function Run(s: Dialogs, events: seq<Event>): (r: (Dialogs, seq<string>))
    decreases |events|
  {
    if events == [] then (s, [])
    else
      var (t, sent) := Step(s, events[0]);
      var (u, rest) := Run(t, events[1..]);
      (u, (if sent.Some? then [sent.value] else []) + rest)
  }

  /** Whatever the user does, every cancellation request names a booking
      that the 48-hour rule allowed to be cancelled. */
  lemma {:induction false} OnlyCancellableBookingsAreCancelled(s: Dialogs, events: seq<Event>, allowed: set<string>)
    requires DialogsConsistent(s)
    requires forall i | 0 <= i < |events| :: events[i].CardPressed? && events[i].details.canCancel ==>
      events[i].details.reservationId in allowed
    requires s.selected.Some? && s.selected.value.canCancel ==> s.selected.value.reservationId in allowed
    ensures DialogsConsistent(Run(s, events).0)
    ensures forall i | 0 <= i < |Run(s, events).1| :: Run(s, events).1[i] in allowed
    decreases |events|
  {
    if events != [] {
      var (t, sent) := Step(s, events[0]);
      assert DialogsConsistent(t);
      assert t.selected.Some? && t.selected.value.canCancel ==> t.selected.value.reservationId in allowed;
      OnlyCancellableBookingsAreCancelled(t, events[1..], allowed);
    }
  }
}
