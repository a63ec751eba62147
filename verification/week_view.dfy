/** The week strip shared by the consumer schedule and the admin schedule:
    the index of today within the displayed week, the day tabs, and the
    list of entries on the selected day in start-time order. */
module WeekView {
  import opened Wrappers
  import opened Calendar
  import opened Sorting

  /** `days.findIndex(d => isSameDay(d, today))`: -1 when no day matches. */
  function FindSameDay(days: seq<DateTime>, today: DateTime): (i: int)
    ensures -1 <= i < |days|
    ensures i >= 0 ==> IsSameDay(days[i], today)
    ensures forall j | 0 <= j < |days| && (i < 0 || j < i) :: !IsSameDay(days[j], today)
  {
    if days == [] then -1
    else if IsSameDay(days[0], today) then 0
    else
      var i := FindSameDay(days[1..], today);
      if i < 0 then -1 else i + 1
  }

  /** `todayIndex`: the position of today in the week, or 0 when today is
      not in it. */
  function TodayIndex(weekDays: seq<DateTime>, today: DateTime): (i: int)
    ensures 0 <= i && (|weekDays| > 0 ==> i < |weekDays|)
    ensures (exists j | 0 <= j < |weekDays| :: IsSameDay(weekDays[j], today)) ==>
      IsSameDay(weekDays[i], today) && forall j | 0 <= j < i :: !IsSameDay(weekDays[j], today)
    ensures (forall j | 0 <= j < |weekDays| :: !IsSameDay(weekDays[j], today)) ==> i == 0
  {
    var index := FindSameDay(weekDays, today);
    if index >= 0 then index else 0
  }

  /** In the week that starts on the Sunday on or before today, today sits
      at its weekday number. */
  lemma TodayIndexIsWeekday(today: DateTime)
    ensures TodayIndex(WeekDays(StartOfWeek(today, 0)), today) == Weekday(today.day)
  {
    var start := StartOfWeek(today, 0);
    var days := WeekDays(start);
    var k := today.day - start.day;
    assert 0 <= k < 7;
    assert IsSameDay(days[k], today);
    WeekdayAfter(start.day, k);
    assert Weekday(today.day) == k;
  }

  datatype DayItem = DayItem(date: DateTime, name: string, enabled: bool)

  /** The day tabs: one per day of the week, named after its weekday,
      enabled whether or not anything happens that day. */
  function DayTabs(weekDays: seq<DateTime>, hasEntries: DateTime -> bool): (tabs: seq<DayItem>)
    ensures |tabs| == |weekDays|
    ensures forall i | 0 <= i < |tabs| ::
      tabs[i].date == weekDays[i] && tabs[i].name == ArabicDayName(weekDays[i]) && tabs[i].enabled
  {
    seq(|weekDays|, i requires 0 <= i < |weekDays| =>
      DayItem(weekDays[i], ArabicDayName(weekDays[i]), hasEntries(weekDays[i]) || true))
  }

  /** `isSameDay(new Date(startsAt), date)`: an entry whose start does not
      parse is on no day. */
  predicate OnDay<T>(start: T -> Option<DateTime>, date: DateTime, x: T) {
    start(x).Some? && IsSameDay(start(x).value, date)
  }

  /** `new Date(startsAt).getTime()`, for entries whose start parsed. */
  function StartKey<T>(start: T -> Option<DateTime>, x: T): int {
    if start(x).Some? then Time(start(x).value) else 0
  }

  /** `entries.filter(on the selected day).sort(by start time)`. */
  function DayList<T>(entries: seq<T>, start: T -> Option<DateTime>, date: DateTime): (r: seq<T>)
    ensures forall i | 0 <= i < |r| :: OnDay(start, date, r[i])
    ensures SortedBy(r, x => StartKey(start, x))
  {
    var onDay := Filter(entries, x => OnDay(start, date, x));
    var r := SortBy(onDay, x => StartKey(start, x));
    assert forall i | 0 <= i < |r| :: OnDay(start, date, r[i]) by {
      forall i | 0 <= i < |r| ensures OnDay(start, date, r[i]) {
        assert r[i] in multiset(onDay);
        var k :| 0 <= k < |onDay| && onDay[k] == r[i];
      }
    }
    r
  }

  /** The day list holds every entry of the selected day, as many times as
      the source list does, and nothing else; entries starting at the same
      instant keep their order. */
  lemma DayListContents<T>(entries: seq<T>, start: T -> Option<DateTime>, date: DateTime, x: T, t: int)
    ensures multiset(DayList(entries, start, date))[x] == (if OnDay(start, date, x) then multiset(entries)[x] else 0)
    ensures WithKey(DayList(entries, start, date), y => StartKey(start, y), t)
         == WithKey(Filter(entries, y => OnDay(start, date, y)), y => StartKey(start, y), t)
  {
    FilterCount(entries, y => OnDay(start, date, y), x);
    SortByStable(Filter(entries, y => OnDay(start, date, y)), y => StartKey(start, y), t);
  }

  /** Every entry of the day list starts on the selected day, and an
      earlier entry never starts after a later one. */
  lemma DayListChronological<T>(entries: seq<T>, start: T -> Option<DateTime>, date: DateTime, i: int, j: int)
    requires 0 <= i < j < |DayList(entries, start, date)|
    ensures var r := DayList(entries, start, date);
      start(r[i]).value.day == date.day && Time(start(r[i]).value) <= Time(start(r[j]).value)
  {
    var r := DayList(entries, start, date);
    assert OnDay(start, date, r[i]) && OnDay(start, date, r[j]);
    assert StartKey(start, r[i]) <= StartKey(start, r[j]);
  }
}
