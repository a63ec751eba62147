/** The consumer schedule: the current week from Sunday, opened on today's
    tab, listing the selected day's sessions in start-time order; pressing
    an open session goes straight to the booking wizard's bed step. */
module ScheduleScreen {
  import opened Wrappers
  import opened Js
  import opened Text
  import opened Calendar
  import opened Sorting
  import opened WeekView
  import opened SessionCards
  import BookingWizard

  /** The displayed week: seven days from the Sunday on or before today. */
  function Week(today: DateTime): (days: seq<DateTime>)
    ensures |days| == 7
    ensures forall i | 0 <= i < 7 :: Weekday(days[i].day) == i
    ensures exists i | 0 <= i < 7 :: IsSameDay(days[i], today)
  {
    var start := StartOfWeek(today, 0);
    var days := WeekDays(start);
    assert forall i | 0 <= i < 7 :: Weekday(days[i].day) == i by {
      forall i | 0 <= i < 7 ensures Weekday(days[i].day) == i {
        WeekdayAfter(start.day, i);
      }
    }
    assert IsSameDay(days[today.day - start.day], today);
    days
  }

  /** The tab selected when the screen opens is today's. */
  function InitialDayIndex(today: DateTime): (i: int)
    ensures 0 <= i < 7 && IsSameDay(Week(today)[i], today)
  {
    TodayIndex(Week(today), today)
  }

  /** Today's tab sits at today's weekday number, Sunday first. */
  lemma InitialDayIsWeekday(today: DateTime)
    ensures InitialDayIndex(today) == Weekday(today.day)
  {
    TodayIndexIsWeekday(today);
  }

  /** `new Date(session.startsAt)`, as the oracle parsed it. */
  function SessionStart(parse: string -> Option<DateTime>): ScheduleSession -> Option<DateTime> {
    (s: ScheduleSession) => parse(s.startsAt)
  }

  /** Whether some session falls on `date`. */
  function HasSessionsOn(sessions: seq<ScheduleSession>, parse: string -> Option<DateTime>): DateTime -> bool {
    (date: DateTime) => exists i | 0 <= i < |sessions| :: OnDay(SessionStart(parse), date, sessions[i])
  }

  /** `daysWithSessions`: a tab per day, each one enabled. */
  function Tabs(today: DateTime, sessions: seq<ScheduleSession>, parse: string -> Option<DateTime>): (tabs: seq<DayItem>)
    ensures |tabs| == 7
    ensures forall i | 0 <= i < 7 :: tabs[i].date == Week(today)[i] && tabs[i].enabled
  {
    DayTabs(Week(today), HasSessionsOn(sessions, parse))
  }

  /** `filteredSessions`: the selected day's sessions, earliest first. */
  function Filtered(today: DateTime, selectedDayIndex: int, sessions: seq<ScheduleSession>, parse: string -> Option<DateTime>): (r: seq<ScheduleSession>)
    requires 0 <= selectedDayIndex < 7
    ensures forall i | 0 <= i < |r| :: OnDay(SessionStart(parse), Week(today)[selectedDayIndex], r[i])
    ensures forall i, j | 0 <= i < j < |r| ::
      parse(r[i].startsAt).Some? && parse(r[j].startsAt).Some?
      && Time(parse(r[i].startsAt).value) <= Time(parse(r[j].startsAt).value)
  {
    var r := DayList(sessions, SessionStart(parse), Week(today)[selectedDayIndex]);
    assert forall i, j | 0 <= i < j < |r| ::
      parse(r[i].startsAt).Some? && parse(r[j].startsAt).Some?
      && Time(parse(r[i].startsAt).value) <= Time(parse(r[j].startsAt).value) by {
      forall i, j | 0 <= i < j < |r|
        ensures parse(r[i].startsAt).Some? && parse(r[j].startsAt).Some?
          && Time(parse(r[i].startsAt).value) <= Time(parse(r[j].startsAt).value) {
        assert OnDay(SessionStart(parse), Week(today)[selectedDayIndex], r[i]);
        assert OnDay(SessionStart(parse), Week(today)[selectedDayIndex], r[j]);
        DayListChronological(sessions, SessionStart(parse), Week(today)[selectedDayIndex], i, j);
      }
    }
    r
  }

  /** A session is listed under a tab exactly when it starts on that day,
      and as often as it appears in the fetched list. */
  lemma FilteredContents(today: DateTime, selectedDayIndex: int, sessions: seq<ScheduleSession>, parse: string -> Option<DateTime>, s: ScheduleSession)
    requires 0 <= selectedDayIndex < 7
    ensures multiset(Filtered(today, selectedDayIndex, sessions, parse))[s]
         == if OnDay(SessionStart(parse), Week(today)[selectedDayIndex], s) then multiset(sessions)[s] else 0
  {
    DayListContents(sessions, SessionStart(parse), Week(today)[selectedDayIndex], s, 0);
  }

  /** `handleSessionPress` / `handleBookPress`: the wizard's parameters, or
      nothing when the card ignores the press. */
  function PressSession(s: ScheduleSession, onBookButton: bool): (p: Option<BookingWizard.Params>)
    ensures p.Some? <==> !CardFull(s)
    ensures p.Some? ==> p.value.startStep == Some(3) && p.value.preselectedSessionId == Some(s.id)
    ensures p.Some? ==> p.value.preselectedDate == Some(BeforeFirst(s.startsAt, 'T'))
    ensures p.Some? ==> p.value.preselectedDate.value <= s.startsAt && 'T' !in p.value.preselectedDate.value
  {
    match CardPress(s, onBookButton)
    case Ignore => None
    case _ => Some(BookingWizard.Params(Some(3), Some(BeforeFirst(s.startsAt, 'T')), Some(s.id)))
  }

  /** Entering from the schedule opens the wizard at the bed step with the
      pressed session chosen; its back button then leaves the wizard at
      once instead of walking back through the day and session steps. */
  lemma {:induction false} ScheduleEntrySkipsToBeds(s: ScheduleSession, onBookButton: bool)
    requires !CardFull(s) && s.id != ""
    ensures var w := BookingWizard.Init(PressSession(s, onBookButton).value);
      && w.entry == BookingWizard.FromSchedule
      && w.step == 3 && w.sessionId == Some(s.id) && w.bed.None?
      && BookingWizard.Consistent(w)
      && BookingWizard.Back(w).1
  {
    var p := PressSession(s, onBookButton).value;
    BookingWizard.InitConsistent(p);
  }
}
