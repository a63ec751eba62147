/** The admin schedule screen: the slot list of the selected day, the slot
    cards, the seven modals of which at most one is ever visible, and the
    local bookings list of the open slot.

    Requests to the server are reduced to whether they succeeded; a
    request's own effects (refetching the week, reloading a slot's
    bookings) arrive as separate events. */
module AdminSchedule {
  import opened Wrappers
  import opened Text
  import opened Js
  import opened Clock
  import opened Calendar
  import opened Sorting
  import opened WeekView
  import opened ScheduleCore
  import AdminForms

  datatype LocalBooking = LocalBooking(id: string, customerName: string, phone: string, bedNumber: Option<int>)

  datatype AdminSlot = AdminSlot(
    id: string, title: string, startsAt: string, durationMin: int,
    capacity: int, bookedCount: int, slotType: string, bookings: seq<LocalBooking>)

  /** The slot a fetched session is shown as: its title doubles as its
      type, the start is the ISO date or '', the duration is a fixed 60
      minutes and the bookings are loaded later. */
  function SlotOfSession(s: SessionCore): (slot: AdminSlot)
    ensures slot.id == s.id && slot.title == s.titleAr && slot.slotType == s.titleAr
    ensures slot.capacity == s.capacityTotal && slot.bookedCount == s.occupiedCount
    ensures slot.bookings == []
    ensures slot.startsAt == (if Truthy(s.dateIso, "") then s.dateIso.value else "")
    ensures slot.durationMin == 60
  {
    AdminSlot(s.id, s.titleAr, Or(s.dateIso, Some(""), "").value, 60,
              s.capacityTotal, s.occupiedCount, s.titleAr, [])
  }

  // ---------------------------------------------------------------------
  // Slot list and slot card
  // ---------------------------------------------------------------------

  /** `new Date(slot.startsAt)`. */
  function SlotStart(parse: string -> Option<DateTime>): AdminSlot -> Option<DateTime> {
    (s: AdminSlot) => parse(s.startsAt)
  }

  /** `sortedSlots`: the slots whose start falls on the selected day, in
      order of start time; `parse` is `new Date(startsAt)`. */
  function SortedSlots(slots: seq<AdminSlot>, parse: string -> Option<DateTime>, selected: DateTime): (r: seq<AdminSlot>)
    ensures forall i | 0 <= i < |r| ::
      parse(r[i].startsAt).Some? && IsSameDay(parse(r[i].startsAt).value, selected)
    ensures forall i, j | 0 <= i < j < |r| ::
      Time(parse(r[i].startsAt).value) <= Time(parse(r[j].startsAt).value)
  {
    var r := DayList(slots, SlotStart(parse), selected);
    assert forall i | 0 <= i < |r| :: OnDay(SlotStart(parse), selected, r[i]);
    assert SortedBy(r, x => StartKey(SlotStart(parse), x));
    r
  }

  /** The sorted list holds each slot of the selected day as often as the
      fetched list does, and no other slot. */
  lemma SortedSlotsArePermutation(slots: seq<AdminSlot>, parse: string -> Option<DateTime>, selected: DateTime, x: AdminSlot)
    ensures var onDay := parse(x.startsAt).Some? && IsSameDay(parse(x.startsAt).value, selected);
      multiset(SortedSlots(slots, parse, selected))[x] == (if onDay then multiset(slots)[x] else 0)
  {
    DayListContents(slots, SlotStart(parse), selected, x, 0);
  }

  /** `isFull` of a slot card. */
  predicate SlotIsFull(slot: AdminSlot) {
    slot.bookedCount >= slot.capacity
  }

  datatype SlotCard = SlotCard(timeRange: string, badge: string, full: bool)

  /** `renderSlotCard`: the time range, and the full / available badge. */
  function CardOf(slot: AdminSlot, parse: string -> Option<DateTime>): (c: SlotCard)
    ensures c.full <==> slot.bookedCount >= slot.capacity
    ensures c.badge == FullText <==> c.full
    ensures c.badge == AvailableText <==> !c.full
    ensures parse(slot.startsAt).Some? ==>
      |c.timeRange| == 13 && IsHhMm(c.timeRange[..5]) && c.timeRange[5..8] == " - " && IsHhMm(c.timeRange[8..])
    ensures parse(slot.startsAt).Some? ==>
      c.timeRange[..5] == FormatTime(parse(slot.startsAt))
      && c.timeRange[8..] == GetEndTime(parse(slot.startsAt), slot.durationMin)
  {
    var p := parse(slot.startsAt);
    var full := SlotIsFull(slot);
    var start, end := FormatTime(p), GetEndTime(p, slot.durationMin);
    RangeShape(start, end);
    SlotCard(start + " - " + end, if full then FullText else AvailableText, full)
  }

  /** The pieces of "start - end" for two five-character times. */
  lemma RangeShape(start: string, end: string)
    ensures IsHhMm(start) && IsHhMm(end) ==>
      var r := start + " - " + end;
      |r| == 13 && r[..5] == start && r[5..8] == " - " && r[8..] == end
  {
  }

  /** A fetched session's card shows the same badge the shared availability
      rule gives the session, and, when its date parses, the session's
      start time and the time an hour later. */
  lemma CardAgreesWithSession(s: SessionCore, parse: string -> Option<DateTime>)
    ensures CardOf(SlotOfSession(s), parse).full == IsFull(s)
    ensures CardOf(SlotOfSession(s), parse).badge == AvailabilityBadge(s).text
    ensures Truthy(s.dateIso, "") && parse(s.dateIso.value).Some? ==>
      var c := CardOf(SlotOfSession(s), parse);
      var start := parse(s.dateIso.value);
      && c.timeRange[..5] == FormatTime(start)
      && c.timeRange[8..] == GetEndTime(start, 60)
  {
  }

  // ---------------------------------------------------------------------
  // Adding a session
  // ---------------------------------------------------------------------

  /** `endMinutes - startMinutes`: the end's minute of the day less the
      start's, `NaN` (`None`) exactly when either of them is, that is when
      a part of either time does not read as a number. */
  function DurationOf(startTime: string, endTime: string): (d: Option<int>)
    ensures d.Some? <==> MinutesOf(startTime).Some? && MinutesOf(endTime).Some?
    ensures d.Some? ==> d.value == MinutesOf(endTime).value - MinutesOf(startTime).value
  {
    var h1, m1 := TimePart(startTime, 0), TimePart(startTime, 1);
    var h2, m2 := TimePart(endTime, 0), TimePart(endTime, 1);
    if h1.Some? && m1.Some? && h2.Some? && m2.Some? then
      Some((h2.value * 60 + m2.value) - (h1.value * 60 + m1.value))
    else None
  }

  /** `new Date(weekDays[dayIndex])` with `setHours(hours, minutes, 0, 0)`:
      invalid when the day index is outside the week or a part is `NaN`;
      hours and minutes beyond their range roll over into later days. */
  function StartOfNewSession(weekDays: seq<DateTime>, dayIndex: int, startTime: string): (r: Option<DateTime>)
    ensures r.Some? ==> 0 <= dayIndex < |weekDays|
    ensures IsHhMm(startTime) && HourOf(startTime) < 24 && MinuteOf(startTime) < 60 && 0 <= dayIndex < |weekDays| ==>
      r.Some? && r.value.day == weekDays[dayIndex].day
      && Hours(r.value) == HourOf(startTime) && Minutes(r.value) == MinuteOf(startTime)
  {
    PartsWhenHhMm(startTime);
    var h, m := TimePart(startTime, 0), TimePart(startTime, 1);
    if !(0 <= dayIndex < |weekDays|) || h.None? || m.None? then None
    else
      var base := weekDays[dayIndex];
      ClockOfDay(base.day, h.value, m.value);
      Some(SetClock(base.day, h.value, m.value))
  }

  lemma PartsWhenHhMm(s: string)
    ensures IsHhMm(s) ==>
      TimePart(s, 0) == Some(HourOf(s) as int) && TimePart(s, 1) == Some(MinuteOf(s) as int)
      && MinutesOf(s) == Some(HourOf(s) * 60 + MinuteOf(s))
  {
    if IsHhMm(s) { TimePartsOfHhMm(s); }
  }

  datatype CreateSessionRequest = CreateSessionRequest(title: string, startsAt: DateTime, durationMin: Option<int>, capacity: int)

  /** What `handleAddSessionSubmit` sends; `None` when the start is an
      invalid date, whose `toISOString()` throws before anything is sent. */
  function CreateRequestOf(weekDays: seq<DateTime>, s: AdminForms.NewSession): (r: Option<CreateSessionRequest>)
    ensures r.Some? <==> StartOfNewSession(weekDays, s.dayIndex, s.startTime).Some?
    ensures r.Some? ==> r.value.title == s.sessionType && r.value.capacity == s.capacity
    ensures r.Some? ==> r.value.startsAt == StartOfNewSession(weekDays, s.dayIndex, s.startTime).value
    ensures r.Some? ==> r.value.durationMin == DurationOf(s.startTime, s.endTime)
  {
    match StartOfNewSession(weekDays, s.dayIndex, s.startTime)
    case None => None
    case Some(start) => Some(CreateSessionRequest(s.sessionType, start, DurationOf(s.startTime, s.endTime), s.capacity))
  }

  /** A session submitted from the add-session form, whose times were typed
      through the time inputs and whose day was picked from the day options,
      always produces a request with a positive duration. */
  lemma SubmittedSessionHasPositiveDuration(
    form: AdminForms.SessionForm, startText: string, endText: string,
    weekDays: seq<DateTime>, s: AdminForms.NewSession)
    requires form.startTime == AdminForms.FormatTimeInput(startText)
    requires form.endTime == AdminForms.FormatTimeInput(endText)
    requires form.selectedDay.Some? && form.selectedDay.value in AdminForms.DayOptions
    requires |weekDays| == 7
    requires AdminForms.HandleSubmit(form).1 == Some(s)
    ensures CreateRequestOf(weekDays, s).Some?
    ensures CreateRequestOf(weekDays, s).value.durationMin.Some?
    ensures CreateRequestOf(weekDays, s).value.durationMin.value > 0
  {
    AdminForms.SubmittedTimesOrdered(form, startText, endText);
    AdminForms.OptionRanges();
    TimePartsOfHhMm(s.startTime);
    TimePartsOfHhMm(s.endTime);
  }

  // ---------------------------------------------------------------------
  // Modals
  // ---------------------------------------------------------------------

  datatype Modal = Details | EditBooking | AddBooking | EditSession | CancelSession | DeleteBooking | AddSession

  datatype Modals = Modals(
    details: bool, editBooking: bool, addBooking: bool, editSession: bool,
    cancelSession: bool, deleteBooking: bool, addSession: bool)

  function Visible(m: Modals, w: Modal): bool {
    match w
    case Details => m.details
    case EditBooking => m.editBooking
    case AddBooking => m.addBooking
    case EditSession => m.editSession
    case CancelSession => m.cancelSession
    case DeleteBooking => m.deleteBooking
    case AddSession => m.addSession
  }

  /** No two different modals are visible together. */
  predicate AtMostOneOpen(m: Modals) {
    forall v, w | Visible(m, v) && Visible(m, w) :: v == w
  }

  /** `closeAllModals()`. */
  const AllClosed := Modals(false, false, false, false, false, false, false)

  /** `closeAllModals()` followed by showing `w`: what every opener does. */
  function Open(w: Modal): (r: Modals)
    ensures Visible(r, w) && forall v | v != w :: !Visible(r, v)
    ensures AtMostOneOpen(r)
  {
    match w
    case Details => AllClosed.(details := true)
    case EditBooking => AllClosed.(editBooking := true)
    case AddBooking => AllClosed.(addBooking := true)
    case EditSession => AllClosed.(editSession := true)
    case CancelSession => AllClosed.(cancelSession := true)
    case DeleteBooking => AllClosed.(deleteBooking := true)
    case AddSession => AllClosed.(addSession := true)
  }

  // ---------------------------------------------------------------------
  // Screen state and its handlers
  // ---------------------------------------------------------------------

  datatype Screen = Screen(
    modals: Modals, selectedSlot: Option<AdminSlot>,
    slotBookings: seq<LocalBooking>, selectedBooking: Option<LocalBooking>)

  const InitialScreen := Screen(AllClosed, None, [], None)

  datatype Event =
    | ViewDetails(slot: AdminSlot)
    | CloseDetails
    | EditBookingPressed(booking: LocalBooking)
    | BookingSaved
    | AddBookingPressed
    | AddBookingDone(ok: bool)
    | EditSessionPressed
    | SessionSaveDone(ok: bool)
    | CancelSessionPressed
    | CancelSessionDone(ok: bool)
    | DeleteBookingPressed(booking: LocalBooking)
    | DeleteBookingDone(ok: bool)
    | AddSessionPressed
    | AddSessionDone(ok: bool)
    | Dismissed(which: Modal)
    | BookingsLoaded(bookings: seq<LocalBooking>)

  /** `b => b.id !== id`. */
  function Keeps(id: string): LocalBooking -> bool {
    (b: LocalBooking) => b.id != id
  }

  /** `prev.filter(b => b.id !== id)`. */
  function RemoveBooking(bookings: seq<LocalBooking>, id: string): (r: seq<LocalBooking>)
    ensures forall i | 0 <= i < |r| :: r[i].id != id
    ensures forall b :: multiset(r)[b] == (if b.id != id then multiset(bookings)[b] else 0)
  {
    var r := Filter(bookings, Keeps(id));
    forall b ensures multiset(r)[b] == (if b.id != id then multiset(bookings)[b] else 0) {
      FilterCount(bookings, Keeps(id), b);
    }
    r
  }

  /** Removing the same booking twice removes nothing more. */
  lemma RemoveBookingIdempotent(bookings: seq<LocalBooking>, id: string)
    ensures RemoveBooking(RemoveBooking(bookings, id), id) == RemoveBooking(bookings, id)
  {
    NoMatchFilterIsIdentity(RemoveBooking(bookings, id), id);
  }

  lemma {:induction false} NoMatchFilterIsIdentity(bookings: seq<LocalBooking>, id: string)
    requires forall i | 0 <= i < |bookings| :: bookings[i].id != id
    ensures Filter(bookings, Keeps(id)) == bookings
  {
    if bookings != [] {
      NoMatchFilterIsIdentity(bookings[1..], id);
      assert [bookings[0]] + bookings[1..] == bookings;
    }
  }

  /** A request outcome reporting failure. */
  predicate Failed(e: Event) {
    (e.AddBookingDone? || e.SessionSaveDone? || e.CancelSessionDone? || e.DeleteBookingDone? || e.AddSessionDone?)
    && !e.ok
  }

  /** One user action or request outcome. A failed request leaves the
      screen as it was; the mock-data branch of adding a session is not
      taken, the real API being switched on. */
  function Step(s: Screen, e: Event): (r: Screen)
    ensures Failed(e) ==> r == s
    ensures !(e.ViewDetails? || e.DeleteBookingDone? || e.BookingsLoaded?) ==> r.slotBookings == s.slotBookings
    ensures e.DeleteBookingDone? ==> |r.slotBookings| <= |s.slotBookings|
  {
    match e
    case ViewDetails(slot) =>
      Screen(Open(Details), Some(slot), slot.bookings, s.selectedBooking)
    case CloseDetails =>
      s.(modals := AllClosed, selectedSlot := None)
    case EditBookingPressed(b) =>
      s.(modals := Open(EditBooking), selectedBooking := Some(b))
    case BookingSaved =>
      s.(modals := AllClosed, selectedBooking := None)
    case AddBookingPressed =>
      s.(modals := Open(AddBooking))
    case AddBookingDone(ok) =>
      if s.selectedSlot.None? || !ok then s else s.(modals := AllClosed)
    case EditSessionPressed =>
      s.(modals := Open(EditSession))
    case SessionSaveDone(ok) =>
      if !ok then s else s.(modals := AllClosed)
    case CancelSessionPressed =>
      s.(modals := Open(CancelSession))
    case CancelSessionDone(ok) =>
      if s.selectedSlot.None? || !ok then s else s.(modals := AllClosed, selectedSlot := None)
    case DeleteBookingPressed(b) =>
      s.(modals := Open(DeleteBooking), selectedBooking := Some(b))
    case DeleteBookingDone(ok) =>
      if s.selectedSlot.None? || s.selectedBooking.None? || !ok then s
      else
        s.(slotBookings := RemoveBooking(s.slotBookings, s.selectedBooking.value.id),
           modals := AllClosed, selectedBooking := None)
    case AddSessionPressed =>
      s.(modals := Open(AddSession))
    case AddSessionDone(ok) =>
      if !ok then s else s.(modals := AllClosed)
    case Dismissed(w) =>
      if w == Details then s.(modals := AllClosed, selectedSlot := None)
      else if w == EditBooking || w == DeleteBooking then s.(modals := AllClosed, selectedBooking := None)
      else s.(modals := AllClosed)
    case BookingsLoaded(bookings) =>
      s.(slotBookings := bookings)
  }

  /** Every handler either opens exactly one modal, closes them all, or
      leaves the modals as they were. */
  lemma StepModals(s: Screen, e: Event)
    ensures var r := Step(s, e);
      r.modals == s.modals || r.modals == AllClosed || exists w :: r.modals == Open(w)
    ensures AtMostOneOpen(s.modals) ==> AtMostOneOpen(Step(s, e).modals)
  {
    match e
    case ViewDetails(_) => assert Step(s, e).modals == Open(Details);
    case EditBookingPressed(_) => assert Step(s, e).modals == Open(EditBooking);
    case AddBookingPressed => assert Step(s, e).modals == Open(AddBooking);
    case EditSessionPressed => assert Step(s, e).modals == Open(EditSession);
    case CancelSessionPressed => assert Step(s, e).modals == Open(CancelSession);
    case DeleteBookingPressed(_) => assert Step(s, e).modals == Open(DeleteBooking);
    case AddSessionPressed => assert Step(s, e).modals == Open(AddSession);
    case _ =>
  }

  /** The screen after a sequence of events. */
  function Run(s: Screen, events: seq<Event>): Screen
    decreases |events|
  {
    if events == [] then s else Run(Step(s, events[0]), events[1..])
  }

  /** Starting with every modal closed, at most one modal is ever visible. */
  lemma {:induction false} AtMostOneModal(s: Screen, events: seq<Event>)
    requires AtMostOneOpen(s.modals)
    ensures AtMostOneOpen(Run(s, events).modals)
    decreases |events|
  {
    if events != [] {
      StepModals(s, events[0]);
      AtMostOneModal(Step(s, events[0]), events[1..]);
    }
  }

  /** Confirming a deletion that succeeds drops exactly the bookings with
      the chosen id, keeps the others in order, and closes every modal. */
  lemma DeleteBookingEffect(s: Screen, b: LocalBooking)
    requires s.selectedSlot.Some? && s.selectedBooking == Some(b)
    ensures var r := Step(s, DeleteBookingDone(true));
      r.modals == AllClosed && r.selectedBooking.None? && r.selectedSlot == s.selectedSlot
      && r.slotBookings == Filter(s.slotBookings, Keeps(b.id))
      && forall x :: multiset(r.slotBookings)[x] == (if x.id != b.id then multiset(s.slotBookings)[x] else 0)
  {
  }
}
