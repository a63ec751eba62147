/** The admin's session and booking forms: adding a session (time-field
    normalisation, the time check, the submit guard), adding a booking
    (the bed grid and its booked-bed guard), and editing a session or a
    booking (initialisation, the save guard, trimming and the fallback to
    the old number when the new one does not parse). */
module AdminForms {
  import opened Wrappers
  import opened Text
  import opened Js
  import opened Clock

  // ---------------------------------------------------------------------
  // AddSessionModal
  // ---------------------------------------------------------------------

  const SessionTypeOptions: seq<string> := ["بيلاتس أجهزة", "بيلاتس مات", "يوغا صباحية", "تمارين القوة"]

  /** Day options, Sunday (0) first. */
  const DayOptions: seq<int> := seq(7, i => i)

  /** `Array.from({ length: 12 }, (_, i) => i + 1)`. */
  const CapacityOptions: seq<int> := seq(12, i => i + 1)

  /** The day options are exactly 0..6 and the capacity options exactly
      1..12, each once and in increasing order. */
  lemma OptionRanges()
    ensures forall d :: d in DayOptions <==> 0 <= d <= 6
    ensures forall c :: c in CapacityOptions <==> 1 <= c <= 12
    ensures DayOptions[0] == 0
    ensures forall i, j | 0 <= i < j < |CapacityOptions| :: CapacityOptions[i] < CapacityOptions[j]
  {
    forall d | 0 <= d <= 6 ensures d in DayOptions { assert DayOptions[d] == d; }
    forall c | 1 <= c <= 12 ensures c in CapacityOptions { assert CapacityOptions[c - 1] == c; }
  }

  /** `formatTimeInput(text)`: the digits of `text`; from the third digit
      on, the first two, a colon, and at most two more. */
  function FormatTimeInput(text: string): (r: string)
    ensures |r| <= 5
    ensures forall i | 0 <= i < |r| && i != 2 :: IsDigit(r[i])
    ensures |r| > 2 ==> r[2] == ':'
    ensures |r| <= 2 <==> |KeepDigits(text)| <= 2
  {
    var d := KeepDigits(text);
    if |d| <= 2 then d else d[..2] + ":" + d[2..if |d| < 4 then |d| else 4]
  }

  /** The digits of the result are the first four digits typed. */
  lemma FormatTimeInputDigits(text: string)
    ensures var d := KeepDigits(text);
      KeepDigits(FormatTimeInput(text)) == d[..if |d| < 4 then |d| else 4]
  {
    var d := KeepDigits(text);
    if |d| > 2 {
      var k := if |d| < 4 then |d| else 4;
      var a, b := d[..2], d[2..k];
      assert AllDigits(a) by { forall i | 0 <= i < |a| ensures IsDigit(a[i]) { assert a[i] == d[i]; } }
      assert AllDigits(b) by { forall i | 0 <= i < |b| ensures IsDigit(b[i]) { assert b[i] == d[2 + i]; } }
      assert FormatTimeInput(text) == a + ":" + b;
      DigitsAroundColon(a, b);
      assert d[..k] == a + b;
    } else {
      assert d[..|d|] == d;
    }
  }

  lemma DigitsAroundColon(a: string, b: string)
    requires AllDigits(a) && AllDigits(b)
    ensures KeepDigits(a + ":" + b) == a + b
  {
    var colon := ":";
    assert !IsDigit(colon[0]) && colon[1..] == [];
    assert KeepDigits(colon) == KeepDigits(colon[1..]) == [];
    KeepDigitsConcat(a + colon, b);
    KeepDigitsConcat(a, colon);
    var ka, kb := KeepDigits(a), KeepDigits(b);
    assert ka == a && kb == b;
    assert KeepDigits(a + colon) == a + [] == a;
  }

  /** Formatting a formatted field changes nothing. */
  lemma FormatTimeInputIdempotent(text: string)
    ensures FormatTimeInput(FormatTimeInput(text)) == FormatTimeInput(text)
  {
    FormatTimeInputDigits(text);
  }

  /** A field is complete (5 characters) exactly when four digits were
      typed, and a complete field is a well-formed "HH:mm". */
  lemma FormatTimeInputComplete(text: string)
    ensures |FormatTimeInput(text)| == 5 <==> |KeepDigits(text)| >= 4
    ensures |FormatTimeInput(text)| == 5 ==> IsHhMm(FormatTimeInput(text))
  {
  }

  /** `validateTime(start, end)`: true when a side is empty or does not
      read as a time; otherwise the end must be strictly after the start. */
  function ValidateTime(start: string, end: string): (ok: bool)
    ensures (start == "" || end == "") ==> ok
    ensures (MinutesOf(start).None? || MinutesOf(end).None?) ==> ok
    ensures (start != "" && end != "" && MinutesOf(start).Some? && MinutesOf(end).Some?) ==>
      (ok <==> MinutesOf(end).value > MinutesOf(start).value)
  {
    if start == "" || end == "" then true
    else
      var s, e := MinutesOf(start), MinutesOf(end);
      if s.None? || e.None? then true else e.value > s.value
  }

  const TimeErrorText := "وقت النهاية يجب أن يكون بعد وقت البداية"

  datatype SessionForm = SessionForm(
    sessionType: string, selectedDay: Option<int>, startTime: string, endTime: string,
    capacity: Option<int>, timeError: string,
    typeDropdownOpen: bool, dayDropdownOpen: bool, capacityDropdownOpen: bool)

  /** The empty form `resetForm()` restores. */
  const EmptySessionForm := SessionForm("", None, "", "", None, "", false, false, false)

  /** `handleStartTimeChange(text)`. */
  function ChangeStartTime(form: SessionForm, text: string): (r: SessionForm)
    ensures r.startTime == FormatTimeInput(text) && r.endTime == form.endTime
    ensures r.sessionType == form.sessionType && r.selectedDay == form.selectedDay && r.capacity == form.capacity
    ensures form.endTime != "" && r.startTime != "" ==> (r.timeError == "" <==> ValidateTime(r.startTime, r.endTime))
    ensures form.endTime == "" || r.startTime == "" ==> r.timeError == form.timeError
  {
    var formatted := FormatTimeInput(text);
    var error := if form.endTime != "" && formatted != "" then
      (if !ValidateTime(formatted, form.endTime) then TimeErrorText else "")
    else form.timeError;
    form.(startTime := formatted, timeError := error)
  }

  /** `handleEndTimeChange(text)`. */
  function ChangeEndTime(form: SessionForm, text: string): (r: SessionForm)
    ensures r.endTime == FormatTimeInput(text) && r.startTime == form.startTime
    ensures r.sessionType == form.sessionType && r.selectedDay == form.selectedDay && r.capacity == form.capacity
    ensures form.startTime != "" && r.endTime != "" ==> (r.timeError == "" <==> ValidateTime(r.startTime, r.endTime))
    ensures form.startTime == "" || r.endTime == "" ==> r.timeError == form.timeError
  {
    var formatted := FormatTimeInput(text);
    var error := if form.startTime != "" && formatted != "" then
      (if !ValidateTime(form.startTime, formatted) then TimeErrorText else "")
    else form.timeError;
    form.(endTime := formatted, timeError := error)
  }

  /** `isFormValid()`. */
  predicate IsFormValid(form: SessionForm) {
    && form.sessionType != ""
    && form.selectedDay.Some?
    && |form.startTime| == 5
    && |form.endTime| == 5
    && form.capacity.Some?
    && ValidateTime(form.startTime, form.endTime)
  }

  datatype NewSession = NewSession(sessionType: string, dayIndex: int, startTime: string, endTime: string, capacity: int)

  /** `handleSubmit()`: the form afterwards and what reached `onSubmit`. */
  function HandleSubmit(form: SessionForm): (r: (SessionForm, Option<NewSession>))
    ensures r.1.Some? <==> IsFormValid(form)
    ensures r.1.Some? ==>
      r.0 == EmptySessionForm
      && r.1.value == NewSession(form.sessionType, form.selectedDay.value, form.startTime, form.endTime, form.capacity.value)
    ensures r.1.None? ==> r.0 == form
  {
    if !IsFormValid(form) then (form, None)
    else (EmptySessionForm, Some(NewSession(form.sessionType, form.selectedDay.value, form.startTime, form.endTime, form.capacity.value)))
  }

  /** A form that can be submitted, whose time fields were filled through
      the time inputs, has well-formed times with the end strictly after
      the start; `HandleSubmit` passes those times on unchanged. */
  lemma SubmittedTimesOrdered(form: SessionForm, startText: string, endText: string)
    requires form.startTime == FormatTimeInput(startText) && form.endTime == FormatTimeInput(endText)
    requires IsFormValid(form)
    ensures IsHhMm(form.startTime) && IsHhMm(form.endTime)
    ensures MinutesOf(form.startTime).Some? && MinutesOf(form.endTime).Some?
    ensures MinutesOf(form.endTime).value > MinutesOf(form.startTime).value
  {
    CompleteFieldIsHhMm(form.startTime, startText);
    CompleteFieldIsHhMm(form.endTime, endText);
    HhMmTimesOrdered(form.startTime, form.endTime);
  }

  lemma HhMmTimesOrdered(a: string, b: string)
    requires IsHhMm(a) && IsHhMm(b) && ValidateTime(a, b)
    ensures MinutesOf(a).Some? && MinutesOf(b).Some? && MinutesOf(b).value > MinutesOf(a).value
  {
    TimePartsOfHhMm(a);
    TimePartsOfHhMm(b);
  }

  lemma CompleteFieldIsHhMm(field: string, text: string)
    requires field == FormatTimeInput(text) && |field| == 5
    ensures IsHhMm(field)
  {
    FormatTimeInputComplete(text);
  }

  /** `handleClose()`: the form is reset. */
  function HandleCloseSession(form: SessionForm): (r: SessionForm)
    ensures !IsFormValid(r) && r.startTime == "" && r.timeError == ""
  {
    EmptySessionForm
  }

  // ---------------------------------------------------------------------
  // AddBookingModal
  // ---------------------------------------------------------------------

  /** `Array.from({ length: capacity }, (_, i) => i + 1)`; a length below
      zero counts as zero. */
  function Beds(capacity: int): (beds: seq<int>)
    ensures |beds| == (if capacity > 0 then capacity else 0)
    ensures forall i | 0 <= i < |beds| :: beds[i] == i + 1
  {
    seq(if capacity > 0 then capacity else 0, i => i + 1)
  }

  /** The grid holds each bed 1..capacity exactly once. */
  lemma BedsAreOneToCapacity(capacity: int)
    ensures forall b :: b in Beds(capacity) <==> 1 <= b <= capacity
    ensures forall i, j | 0 <= i < j < |Beds(capacity)| :: Beds(capacity)[i] != Beds(capacity)[j]
  {
    var beds := Beds(capacity);
    forall b | 1 <= b <= capacity ensures b in beds { assert beds[b - 1] == b; }
  }

  /** A session created with a capacity picked from the capacity options
      gets a booking grid of between one and twelve beds, numbered
      1..capacity, each once. */
  lemma CapacityOptionBedGrid(capacity: int)
    requires capacity in CapacityOptions
    ensures 1 <= |Beds(capacity)| == capacity <= 12
    ensures forall b :: b in Beds(capacity) <==> 1 <= b <= capacity
    ensures forall i, j | 0 <= i < j < |Beds(capacity)| :: Beds(capacity)[i] != Beds(capacity)[j]
  {
    OptionRanges();
    BedsAreOneToCapacity(capacity);
  }

  datatype BookingForm = BookingForm(customerName: string, phone: string, selectedBed: Option<int>)

  const EmptyBookingForm := BookingForm("", "", None)

  /** Pressing a bed: a booked bed is disabled and ignored. */
  function PressBed(form: BookingForm, bed: int, bookedBeds: seq<int>): (r: BookingForm)
    ensures bed in bookedBeds ==> r == form
    ensures bed !in bookedBeds ==> r == form.(selectedBed := Some(bed))
  {
    if bed in bookedBeds then form else form.(selectedBed := Some(bed))
  }

  /** The selected bed, if any, is on the grid and free. */
  predicate BedChoiceOk(form: BookingForm, capacity: int, bookedBeds: seq<int>) {
    form.selectedBed.Some? ==> 1 <= form.selectedBed.value <= capacity && form.selectedBed.value !in bookedBeds
  }

  datatype NewBooking = NewBooking(customerName: string, phone: string, bedNumber: int)

  /** `handleAdd()`: `onAdd` gets the trimmed name and phone and the bed
      only when the trimmed name is non-empty and a bed is chosen; the
      form is then cleared. */
  function HandleAddBooking(form: BookingForm): (r: (BookingForm, Option<NewBooking>))
    ensures r.1.Some? <==> Trim(form.customerName) != "" && Truthy(form.selectedBed, 0)
    ensures r.1.Some? ==>
      r.0 == EmptyBookingForm
      && r.1.value == NewBooking(Trim(form.customerName), Trim(form.phone), form.selectedBed.value)
    ensures r.1.None? ==> r.0 == form
  {
    if Trim(form.customerName) != "" && Truthy(form.selectedBed, 0) then
      (EmptyBookingForm, Some(NewBooking(Trim(form.customerName), Trim(form.phone), form.selectedBed.value)))
    else (form, None)
  }

  /** `handleClose()`. */
  function HandleCloseBooking(form: BookingForm): (r: BookingForm)
    ensures r.customerName == "" && r.phone == "" && r.selectedBed.None?
  {
    EmptyBookingForm
  }

  /** Every step of the booking form keeps the bed choice on the grid and
      free, so an added booking's bed is in 1..capacity and not booked. */
  lemma BookingFormKeepsBedChoice(form: BookingForm, capacity: int, bookedBeds: seq<int>, bed: int, name: string, phone: string)
    requires BedChoiceOk(form, capacity, bookedBeds)
    requires bed in Beds(capacity)
    ensures BedChoiceOk(PressBed(form, bed, bookedBeds), capacity, bookedBeds)
    ensures BedChoiceOk(form.(customerName := name, phone := phone), capacity, bookedBeds)
    ensures BedChoiceOk(HandleAddBooking(form).0, capacity, bookedBeds)
    ensures BedChoiceOk(HandleCloseBooking(form), capacity, bookedBeds)
    ensures var added := HandleAddBooking(form).1;
      added.Some? ==> 1 <= added.value.bedNumber <= capacity && added.value.bedNumber !in bookedBeds
  {
    BedsAreOneToCapacity(capacity);
  }

  // ---------------------------------------------------------------------
  // EditSessionModal and EditBookingModal
  // ---------------------------------------------------------------------

  datatype BookingRow = BookingRow(id: string, customerName: string, phone: string)

  datatype AdminSession = AdminSession(
    id: string, title: string, sessionType: string, capacity: int, startsAt: string,
    durationMin: int, bookedCount: Option<int>, bookings: Option<seq<BookingRow>>)

  datatype EditSessionForm = EditSessionForm(title: string, sessionType: string, capacity: string, durationMin: string)

  /** The effect on `session`: the fields are loaded from it, the numbers
      as their decimal text; without a session they stay. */
  function LoadSession(form: EditSessionForm, session: Option<AdminSession>): (r: EditSessionForm)
    ensures session.None? ==> r == form
    ensures session.Some? ==> r.title == session.value.title && r.sessionType == session.value.sessionType
    ensures session.Some? ==>
      ParseInt(r.capacity) == Some(session.value.capacity)
      && ParseInt(r.durationMin) == Some(session.value.durationMin)
  {
    match session
    case None => form
    case Some(s) =>
      ParseIntOfIntToString(s.capacity);
      ParseIntOfIntToString(s.durationMin);
      EditSessionForm(s.title, s.sessionType, IntToString(s.capacity), IntToString(s.durationMin))
  }

  /** `parseInt(text, 10) || previous`: the previous value when the text reads as
      `NaN` or 0. */
  function NumberOrOld(text: string, previous: int): (n: int)
    ensures ParseInt(text).Some? && ParseInt(text).value != 0 ==> n == ParseInt(text).value
    ensures ParseInt(text).None? || ParseInt(text).value == 0 ==> n == previous
  {
    Or(ParseInt(text), Some(previous), 0).value
  }

  /** `handleSave()` of the session editor: the session passed to `onSave`,
      if any. */
  function SaveSession(form: EditSessionForm, session: Option<AdminSession>): (r: Option<AdminSession>)
    ensures r.Some? <==> session.Some? && Trim(form.title) != "" && Trim(form.sessionType) != ""
                         && form.capacity != "" && form.durationMin != ""
    ensures r.Some? ==> r.value.title == Trim(form.title) && r.value.sessionType == Trim(form.sessionType)
    ensures r.Some? ==>
      r.value.capacity == NumberOrOld(form.capacity, session.value.capacity)
      && r.value.durationMin == NumberOrOld(form.durationMin, session.value.durationMin)
    ensures r.Some? ==>
      r.value.id == session.value.id && r.value.startsAt == session.value.startsAt
      && r.value.bookedCount == session.value.bookedCount && r.value.bookings == session.value.bookings
  {
    match session
    case None => None
    case Some(s) =>
      if Trim(form.title) != "" && Trim(form.sessionType) != "" && form.capacity != "" && form.durationMin != "" then
        Some(s.(title := Trim(form.title), sessionType := Trim(form.sessionType),
                capacity := NumberOrOld(form.capacity, s.capacity),
                durationMin := NumberOrOld(form.durationMin, s.durationMin)))
      else None
  }

  /** Saving straight after loading gives back the session, its title and
      type trimmed. */
  lemma SaveLoadedSession(form: EditSessionForm, s: AdminSession)
    requires Trim(s.title) != "" && Trim(s.sessionType) != ""
    ensures SaveSession(LoadSession(form, Some(s)), Some(s)) == Some(s.(title := Trim(s.title), sessionType := Trim(s.sessionType)))
  {
    var f := LoadSession(form, Some(s));
    assert f.capacity != "" && f.durationMin != "";
  }

  datatype EditBookingForm = EditBookingForm(customerName: string, phone: string)

  /** The effect on `booking`. */
  function LoadBooking(form: EditBookingForm, booking: Option<BookingRow>): (r: EditBookingForm)
    ensures booking.None? ==> r == form
    ensures booking.Some? ==> r.customerName == booking.value.customerName && r.phone == booking.value.phone
  {
    match booking
    case None => form
    case Some(b) => EditBookingForm(b.customerName, b.phone)
  }

  /** `handleSave()` of the booking editor. */
  function SaveBooking(form: EditBookingForm, booking: Option<BookingRow>): (r: Option<BookingRow>)
    ensures r.Some? <==> booking.Some? && Trim(form.customerName) != "" && Trim(form.phone) != ""
    ensures r.Some? ==> r.value == BookingRow(booking.value.id, Trim(form.customerName), Trim(form.phone))
  {
    match booking
    case None => None
    case Some(b) =>
      if Trim(form.customerName) != "" && Trim(form.phone) != "" then
        Some(b.(customerName := Trim(form.customerName), phone := Trim(form.phone)))
      else None
  }

  /** Saving straight after loading keeps a booking whose fields are
      already trimmed, and saving twice is the same as saving once. */
  lemma SaveLoadedBooking(form: EditBookingForm, b: BookingRow)
    requires Trim(b.customerName) == b.customerName != "" && Trim(b.phone) == b.phone != ""
    ensures SaveBooking(LoadBooking(form, Some(b)), Some(b)) == Some(b)
    ensures var once := SaveBooking(form, Some(b));
      once.Some? ==> SaveBooking(LoadBooking(form, once), once) == once
  {
    var once := SaveBooking(form, Some(b));
    if once.Some? {
      TrimIdempotent(form.customerName);
      TrimIdempotent(form.phone);
    }
  }
}
