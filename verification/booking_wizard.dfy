/** The consumer booking wizard: day, then session, then bed, then
    confirmation. It groups the fetched sessions into the fourteen days
    from today, keeps the selections consistent as the user moves through
    the steps, and sends a reservation only when a session and a bed are
    chosen.

    `parse` is `new Date(startsAt)` and `dateKey` is the date part of
    `toISOString()` (the UTC calendar date), both supplied from outside. */
module BookingWizard {
  import opened Wrappers
  import opened Js
  import opened Calendar
  import opened Sorting

  datatype SessionItem = SessionItem(
    id: string, title: string, startsAt: string, durationMin: int,
    capacity: int, bookedCount: int, availableSeats: int)

  datatype DayGroup = DayGroup(date: string, dayName: string, sessionsCount: int, hasAvailable: bool)

  /** `formatDateKey(new Date(startsAt)) === k`. */
  function InGroup(parse: string -> Option<DateTime>, dateKey: DateTime -> string, k: string): SessionItem -> bool {
    (s: SessionItem) => parse(s.startsAt).Some? && dateKey(parse(s.startsAt).value) == k
  }

  /** Every start parses; `toISOString()` throws on an invalid date, so
      grouping and filtering fail otherwise. */
  predicate AllStartsParse(sessions: seq<SessionItem>, parse: string -> Option<DateTime>) {
    forall i | 0 <= i < |sessions| :: parse(sessions[i].startsAt).Some?
  }

  /** The `i`-th day from `now`, at the same time of day. */
  function DayAfter(now: DateTime, i: int): DateTime {
    DateTime(now.day + i, now.ms)
  }

  /** How many sessions fall in the group with key `k`. */
  function CountIn(sessions: seq<SessionItem>, parse: string -> Option<DateTime>, dateKey: DateTime -> string, k: string): (n: nat)
    ensures n == |Filter(sessions, InGroup(parse, dateKey, k))|
  {
    if sessions == [] then 0
    else (if InGroup(parse, dateKey, k)(sessions[0]) then 1 else 0) + CountIn(sessions[1..], parse, dateKey, k)
  }

  /** Whether some session of the group has a free seat. */
  function AnyAvailable(sessions: seq<SessionItem>, parse: string -> Option<DateTime>, dateKey: DateTime -> string, k: string): (b: bool)
    ensures b <==> exists j | 0 <= j < |sessions| ::
      InGroup(parse, dateKey, k)(sessions[j]) && sessions[j].availableSeats > 0
  {
    if sessions == [] then false
    else
      var rest := AnyAvailable(sessions[1..], parse, dateKey, k);
      assert rest <==> exists j | 1 <= j < |sessions| ::
        InGroup(parse, dateKey, k)(sessions[j]) && sessions[j].availableSeats > 0 by {
        forall j | 1 <= j < |sessions| ensures sessions[j] == sessions[1..][j - 1] { }
      }
      (InGroup(parse, dateKey, k)(sessions[0]) && sessions[0].availableSeats > 0) || rest
  }

  /** `dayGroups`: the fourteen days from today, each with the number of
      sessions on it and whether one of them has a free seat. */
  function DayGroups(now: DateTime, sessions: seq<SessionItem>, parse: string -> Option<DateTime>, dateKey: DateTime -> string): (r: Option<seq<DayGroup>>)
    ensures r.Some? <==> AllStartsParse(sessions, parse)
    ensures r.Some? ==> |r.value| == 14
    ensures r.Some? ==> forall i | 0 <= i < 14 ::
      var g := r.value[i];
      g.date == dateKey(DayAfter(now, i)) && g.dayName == ArabicDayName(DayAfter(now, i))
      && g.sessionsCount == |Filter(sessions, InGroup(parse, dateKey, g.date))|
      && (g.hasAvailable <==> exists j | 0 <= j < |sessions| ::
            InGroup(parse, dateKey, g.date)(sessions[j]) && sessions[j].availableSeats > 0)
  {
    if !AllStartsParse(sessions, parse) then None
    else
      Some(seq(14, i requires 0 <= i < 14 =>
        var k := dateKey(DayAfter(now, i));
        DayGroup(k, ArabicDayName(DayAfter(now, i)), CountIn(sessions, parse, dateKey, k), AnyAvailable(sessions, parse, dateKey, k))))
  }

  /** A day with a free seat has at least one session. */
  lemma AvailableDayHasSessions(now: DateTime, sessions: seq<SessionItem>, parse: string -> Option<DateTime>, dateKey: DateTime -> string, i: int)
    requires DayGroups(now, sessions, parse, dateKey).Some? && 0 <= i < 14
    ensures var g := DayGroups(now, sessions, parse, dateKey).value[i];
      g.hasAvailable ==> g.sessionsCount > 0
  {
    var g := DayGroups(now, sessions, parse, dateKey).value[i];
    if g.hasAvailable {
      var j :| 0 <= j < |sessions| && InGroup(parse, dateKey, g.date)(sessions[j]) && sessions[j].availableSeats > 0;
      assert sessions[j] in Filter(sessions, InGroup(parse, dateKey, g.date));
    }
  }

  /** `sessionsForSelectedDate`: no date, no sessions. */
  function SessionsForDate(sessions: seq<SessionItem>, selectedDate: Option<string>, parse: string -> Option<DateTime>, dateKey: DateTime -> string): (r: Option<seq<SessionItem>>)
    ensures !Truthy(selectedDate, "") ==> r == Some([])
    ensures Truthy(selectedDate, "") ==> (r.Some? <==> AllStartsParse(sessions, parse))
    ensures r.Some? && selectedDate.Some? ==> forall i | 0 <= i < |r.value| ::
      parse(r.value[i].startsAt).Some? && dateKey(parse(r.value[i].startsAt).value) == selectedDate.value
    ensures r.Some? && Truthy(selectedDate, "") ==> forall x ::
      multiset(r.value)[x] == if InGroup(parse, dateKey, selectedDate.value)(x) then multiset(sessions)[x] else 0
  {
    if !Truthy(selectedDate, "") then Some([])
    else if !AllStartsParse(sessions, parse) then None
    else
      var p := InGroup(parse, dateKey, selectedDate.value);
      var r := Filter(sessions, p);
      assert forall i | 0 <= i < |r| :: p(r[i]);
      forall x ensures multiset(r)[x] == if p(x) then multiset(sessions)[x] else 0 {
        FilterCount(sessions, p, x);
      }
      Some(r)
  }

  /** The session list of step 2 is as long as the count step 1 showed
      for the chosen day. */
  lemma StepTwoListsTheCountedSessions(now: DateTime, sessions: seq<SessionItem>, parse: string -> Option<DateTime>, dateKey: DateTime -> string, i: int)
    requires DayGroups(now, sessions, parse, dateKey).Some? && 0 <= i < 14
    requires DayGroups(now, sessions, parse, dateKey).value[i].date != ""
    ensures var g := DayGroups(now, sessions, parse, dateKey).value[i];
      var list := SessionsForDate(sessions, Some(g.date), parse, dateKey);
      list.Some? && |list.value| == g.sessionsCount
  {
  }

  // ---------------------------------------------------------------------
  // The step machine
  // ---------------------------------------------------------------------

  datatype Entry = FromSchedule | FromMain

  datatype Params = Params(startStep: Option<int>, preselectedDate: Option<string>, preselectedSessionId: Option<string>)

  datatype Wizard = Wizard(entry: Entry, step: int, date: Option<string>, sessionId: Option<string>, bed: Option<int>)

  /** The screen's first state, from its navigation parameters. */
  function Init(p: Params): (w: Wizard)
    requires p.startStep.Some? ==> 1 <= p.startStep.value <= 4
    ensures w.entry == FromSchedule <==> Truthy(p.preselectedSessionId, "")
    ensures w.step == (if p.startStep.Some? then p.startStep.value else 1)
    ensures w.date.Some? <==> Truthy(p.preselectedDate, "")
    ensures w.sessionId.Some? <==> Truthy(p.preselectedSessionId, "")
    ensures w.bed.None?
  {
    Wizard(
      if Truthy(p.preselectedSessionId, "") then FromSchedule else FromMain,
      Or(p.startStep, Some(1), 0).value,
      Or(p.preselectedDate, None, ""),
      Or(p.preselectedSessionId, None, ""),
      None)
  }

  /** `handleDateSelect`: a new date clears the session and the bed. */
  function SelectDate(w: Wizard, date: string): (r: Wizard)
    ensures r.date == Some(date) && r.sessionId.None? && r.bed.None?
    ensures r.step == w.step && r.entry == w.entry
  {
    w.(date := Some(date), sessionId := None, bed := None)
  }

  /** `handleSessionSelect`: a new session clears the bed. */
  function SelectSession(w: Wizard, id: string): (r: Wizard)
    ensures r.sessionId == Some(id) && r.bed.None? && r.date == w.date
    ensures r.step == w.step && r.entry == w.entry
  {
    w.(sessionId := Some(id), bed := None)
  }

  /** `handleNext`: one step forward when the current step's choice is
      made. */
  function Next(w: Wizard): (r: Wizard)
    ensures r.step == w.step || r.step == w.step + 1
    ensures r.step == w.step + 1 <==>
      (w.step == 1 && Truthy(w.date, "")) || (w.step == 2 && Truthy(w.sessionId, ""))
      || (w.step == 3 && Truthy(w.bed, 0))
    ensures r.step <= 4 || r.step == w.step
    ensures r.date == w.date && r.sessionId == w.sessionId && r.bed == w.bed && r.entry == w.entry
  {
    if w.step == 1 && Truthy(w.date, "") then w.(step := 2)
    else if w.step == 2 && Truthy(w.sessionId, "") then w.(step := 3)
    else if w.step == 3 && Truthy(w.bed, 0) then w.(step := 4)
    else w
  }

  /** `handleBack`: the state afterwards, and whether the screen was left. */
  function Back(w: Wizard): (r: (Wizard, bool))
    ensures r.1 <==> (w.entry == FromSchedule && w.step == 3) || (!(w.entry == FromSchedule && w.step == 4) && w.step <= 1)
    ensures r.1 ==> r.0 == w
    ensures !r.1 ==> r.0 == w.(step := if w.entry == FromSchedule && w.step == 4 then 3 else w.step - 1)
  {
    if w.entry == FromSchedule && w.step == 3 then (w, true)
    else if w.entry == FromSchedule && w.step == 4 then (w.(step := 3), false)
    else if w.step > 1 then (w.(step := w.step - 1), false)
    else (w, true)
  }

  /** `canProceed()`: at step 1 the chosen day must have a session. */
  function CanProceed(w: Wizard, groups: seq<DayGroup>): (ok: bool)
    ensures w.step == 1 ==> (ok <==> Truthy(w.date, "") && exists i | 0 <= i < |groups| ::
      groups[i].date == w.date.value && (forall j | 0 <= j < i :: groups[j].date != w.date.value) && groups[i].sessionsCount > 0)
    ensures w.step == 2 ==> (ok <==> Truthy(w.sessionId, ""))
    ensures w.step == 3 ==> (ok <==> Truthy(w.bed, 0))
    ensures w.step == 4 ==> ok
    ensures !(1 <= w.step <= 4) ==> !ok
  {
    if w.step == 1 then
      Truthy(w.date, "") &&
      (var i := FindGroup(groups, w.date.value); 0 <= i < |groups| && groups[i].sessionsCount > 0)
    else if w.step == 2 then Truthy(w.sessionId, "")
    else if w.step == 3 then Truthy(w.bed, 0)
    else w.step == 4
  }

  /** `groups.findIndex(d => d.date === date)`, or `|groups|` when none. */
  function FindGroup(groups: seq<DayGroup>, date: string): (i: nat)
    ensures i <= |groups|
    ensures i < |groups| ==> groups[i].date == date
    ensures forall j | 0 <= j < i :: groups[j].date != date
  {
    if groups == [] then 0
    else if groups[0].date == date then 0
    else 1 + FindGroup(groups[1..], date)
  }

  datatype Reservation = Reservation(sessionId: string, bedNumber: int)

  /** `handleConfirmBooking`: the reservation sent, if any. */
  function Confirm(w: Wizard): (r: Option<Reservation>)
    ensures r.Some? <==> Truthy(w.sessionId, "") && Truthy(w.bed, 0)
    ensures r.Some? ==> r.value == Reservation(w.sessionId.value, w.bed.value)
  {
    if !Truthy(w.sessionId, "") || !Truthy(w.bed, 0) then None
    else Some(Reservation(w.sessionId.value, w.bed.value))
  }

  /** What the user can do: the day cards, session cards and bed cards of
      steps 1 to 3, the next button, the back button. */
  datatype Event =
    | DayPressed(group: DayGroup)
    | SessionPressed(session: SessionItem)
    | BedPressed(bed: int, bookedBeds: seq<int>)
    | NextPressed(groups: seq<DayGroup>)
    | BackPressed

  /** One event. A day card without sessions, a full session card and a
      booked bed ignore presses; the next button is disabled unless the
      step can proceed; leaving the screen keeps the last state. */
  function Step(w: Wizard, e: Event): Wizard {
    match e
    case DayPressed(g) =>
      if w.step == 1 && g.sessionsCount > 0 then SelectDate(w, g.date) else w
    case SessionPressed(s) =>
      if w.step == 2 && !(s.availableSeats <= 0) then SelectSession(w, s.id) else w
    case BedPressed(b, booked) =>
      if w.step == 3 && b !in booked then w.(bed := Some(b)) else w
    case NextPressed(groups) =>
      if w.step != 4 && CanProceed(w, groups) then Next(w) else w
    case BackPressed =>
      Back(w).0
  }

  /** The wizard's invariant: a step from 1 to 4, a session chosen from
      step 3 on, and a bed chosen at step 4. */
  predicate Consistent(w: Wizard) {
    && 1 <= w.step <= 4
    && (w.step >= 3 ==> Truthy(w.sessionId, ""))
    && (w.step == 4 ==> Truthy(w.bed, 0))
  }

  /** The entries that start consistently: no step, step 1 (the main
      screen's "book" button), step 2, or step 3 with a session (a
      schedule card). Step 4 never does, since no bed is passed in. */
  predicate ConsistentEntry(p: Params) {
    || p.startStep.None? || p.startStep == Some(1) || p.startStep == Some(2)
    || (p.startStep == Some(3) && Truthy(p.preselectedSessionId, ""))
  }

  /** Opening the wizard starts in a consistent state exactly for those
      entries. */
  lemma InitConsistent(p: Params)
    requires p.startStep.Some? ==> 1 <= p.startStep.value <= 4
    ensures Consistent(Init(p)) <==> ConsistentEntry(p)
  {
  }

  /** Every event keeps the wizard consistent. */
  lemma StepConsistent(w: Wizard, e: Event)
    requires Consistent(w)
    ensures Consistent(Step(w, e))
  {
  }

  function Run(w: Wizard, events: seq<Event>): Wizard
    decreases |events|
  {
    if events == [] then w else Run(Step(w, events[0]), events[1..])
  }

  /** However the user moves through the wizard, confirming at step 4
      always sends a reservation for the chosen session and bed. */
  lemma {:induction false} ConfirmAlwaysSendsAtLastStep(p: Params, events: seq<Event>)
    requires ConsistentEntry(p)
    ensures var w := Run(Init(p), events);
      1 <= w.step <= 4 && (w.step == 4 ==> Confirm(w).Some?)
  {
    InitConsistent(p);
    RunConsistent(Init(p), events);
  }

  lemma {:induction false} RunConsistent(w: Wizard, events: seq<Event>)
    requires Consistent(w)
    ensures Consistent(Run(w, events))
    decreases |events|
  {
    if events != [] {
      StepConsistent(w, events[0]);
      RunConsistent(Step(w, events[0]), events[1..]);
    }
  }
}
