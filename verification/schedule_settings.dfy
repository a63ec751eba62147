/** The weekly schedule-settings screen: turning days on and off with an
    optimistic update and rollback, saving one edited day, and the
    automatic session generator (duration choice, day selection, the
    request it sends and how the server's answer is reported).

    The server calls are parameters: whether saving succeeded, and the
    created/skipped counts the generator reports. */
module ScheduleSettings {
  import opened Wrappers
  import opened Text
  import opened Js
  import opened WorkPeriods

  // ---------------------------------------------------------------------
  // AutoGenerateSection
  // ---------------------------------------------------------------------

  /** The duration presets; 0 stands for a custom duration. */
  const DurationPresets: seq<int> := [45, 60, 90, 0]

  const MinDuration := 15
  const MaxDuration := 180

  const DurationError := "المدة يجب أن تكون بين 15 و 180 دقيقة"

  datatype GeneratorForm = GeneratorForm(
    selectedDuration: int, customDuration: string, selectedDays: seq<int>, durationError: Option<string>)

  const InitialGeneratorForm := GeneratorForm(60, "", [], None)

  /** Every preset other than the custom one is an allowed duration. */
  lemma PresetsInRange()
    ensures forall i | 0 <= i < |DurationPresets| ::
      DurationPresets[i] == 0 || MinDuration <= DurationPresets[i] <= MaxDuration
    ensures InitialGeneratorForm.selectedDuration in DurationPresets
  {
  }

  /** `parseInt(text, 10)` is `NaN` or outside 15..180. */
  predicate DurationInvalid(n: Option<int>) {
    n.None? || n.value < MinDuration || n.value > MaxDuration
  }

  /** `enabledDays`: the days that are on and have at least one period. */
  function EnabledDays(days: seq<DaySettings>): (r: seq<DaySettings>)
    ensures |r| <= |days|
    ensures forall d | d in r :: d in days && d.enabled && |d.workPeriods| > 0
    ensures forall d | d in days && d.enabled && |d.workPeriods| > 0 :: d in r
  {
    if days == [] then []
    else
      var rest := EnabledDays(days[1..]);
      assert forall d | d in days[1..] :: d in days;
      assert forall d | d in days :: d == days[0] || d in days[1..];
      if days[0].enabled && |days[0].workPeriods| > 0 then [days[0]] + rest else rest
  }

  /** `handleDurationSelect(value)`. */
  function SelectDuration(form: GeneratorForm, value: int): (r: GeneratorForm)
    ensures r.selectedDuration == value && r.durationError.None?
    ensures r.customDuration == form.customDuration && r.selectedDays == form.selectedDays
  {
    form.(selectedDuration := value, durationError := None)
  }

  /** The error `handleCustomDurationChange(text)` leaves: set exactly when
      the text is non-empty and not a whole number in 15..180. */
  function CustomDurationError(text: string): (e: Option<string>)
    ensures e.Some? <==> text != "" && !(ParseInt(text).Some? && MinDuration <= ParseInt(text).value <= MaxDuration)
    ensures e.Some? ==> e.value == DurationError
  {
    if text != "" && DurationInvalid(ParseInt(text)) then Some(DurationError) else None
  }

  /** `handleCustomDurationChange(text)`. */
  function ChangeCustomDuration(form: GeneratorForm, text: string): (r: GeneratorForm)
    ensures r.customDuration == text && r.durationError == CustomDurationError(text)
    ensures r.selectedDuration == form.selectedDuration && r.selectedDays == form.selectedDays
  {
    form.(customDuration := text, durationError := CustomDurationError(text))
  }

  /** A typed whole number in range clears the error. */
  lemma InRangeTextHasNoError(n: int)
    requires MinDuration <= n <= MaxDuration
    ensures CustomDurationError(IntToString(n)).None?
  {
    ParseIntOfIntToString(n);
  }

  /** `prev.filter((d) => d !== day)`. */
  function Without(xs: seq<int>, x: int): (r: seq<int>)
    ensures x !in r
    ensures forall y | y != x :: y in r <==> y in xs
    ensures x !in xs ==> r == xs
  {
    if xs == [] then []
    else if xs[0] == x then Without(xs[1..], x)
    else
      assert xs == [xs[0]] + xs[1..];
      [xs[0]] + Without(xs[1..], x)
  }

  /** `toggleDay(dayOfWeek)` on the selection. */
  function ToggleDay(selected: seq<int>, day: int): (r: seq<int>)
    ensures day in r <==> day !in selected
    ensures forall d | d != day :: d in r <==> d in selected
  {
    if day in selected then Without(selected, day) else selected + [day]
  }

  predicate NoDuplicates(xs: seq<int>) {
    forall i, j | 0 <= i < j < |xs| :: xs[i] != xs[j]
  }

  lemma {:induction false} WithoutNoDuplicates(xs: seq<int>, x: int)
    requires NoDuplicates(xs)
    ensures NoDuplicates(Without(xs, x))
  {
    if xs != [] {
      assert NoDuplicates(xs[1..]);
      WithoutNoDuplicates(xs[1..], x);
      if xs[0] != x {
        assert xs[0] !in xs[1..];
      }
    }
  }

  /** Toggling twice gives back the same days, and a selection built by
      toggling never holds a day twice; toggling an unselected day twice
      gives back the very same list. */
  lemma ToggleDayTwice(selected: seq<int>, day: int)
    requires NoDuplicates(selected)
    ensures NoDuplicates(ToggleDay(selected, day))
    ensures forall d :: d in ToggleDay(ToggleDay(selected, day), day) <==> d in selected
    ensures day !in selected ==> ToggleDay(ToggleDay(selected, day), day) == selected
  {
    if day in selected {
      WithoutNoDuplicates(selected, day);
    } else {
      assert ToggleDay(selected, day) == selected + [day];
      WithoutAppended(selected, day);
    }
  }

  lemma {:induction false} WithoutAppended(xs: seq<int>, x: int)
    requires x !in xs
    ensures Without(xs + [x], x) == xs
  {
    if xs != [] {
      assert (xs + [x])[1..] == xs[1..] + [x];
      WithoutAppended(xs[1..], x);
      assert xs == [xs[0]] + xs[1..];
    }
  }

  /** `enabledDays.map((d) => d.dayOfWeek)`. */
  function DaysOf(days: seq<DaySettings>): (r: seq<int>)
    ensures |r| == |days|
    ensures forall i | 0 <= i < |days| :: r[i] == days[i].dayOfWeek
  {
    seq(|days|, i requires 0 <= i < |days| => days[i].dayOfWeek)
  }

  /** `selectAllEnabled()`. */
  function SelectAllEnabled(form: GeneratorForm, days: seq<DaySettings>): (r: GeneratorForm)
    ensures r.selectedDays == DaysOf(EnabledDays(days))
    ensures r.selectedDuration == form.selectedDuration && r.customDuration == form.customDuration
    ensures r.durationError == form.durationError
  {
    form.(selectedDays := DaysOf(EnabledDays(days)))
  }

  /** After selecting all, a day number is selected exactly when some
      enabled day with periods carries it. */
  lemma SelectAllEnabledMembers(form: GeneratorForm, days: seq<DaySettings>, n: int)
    ensures n in SelectAllEnabled(form, days).selectedDays <==>
      exists i | 0 <= i < |days| :: days[i].enabled && |days[i].workPeriods| > 0 && days[i].dayOfWeek == n
  {
    var en := EnabledDays(days);
    var sel := DaysOf(en);
    if n in sel {
      var k :| 0 <= k < |sel| && sel[k] == n;
      assert en[k] in days;
    }
    if i :| 0 <= i < |days| && days[i].enabled && |days[i].workPeriods| > 0 && days[i].dayOfWeek == n {
      assert days[i] in en;
      var k :| 0 <= k < |en| && en[k] == days[i];
      assert sel[k] == n;
    }
  }

  /** What `handleGenerate()` does: sets the duration error, returns
      without a call, or calls `onGenerate(duration, days)`. */
  datatype GenerateOutcome =
    | DurationRejected(form: GeneratorForm)
    | NoDaysSelected
    | Generate(duration: int, days: seq<int>)

  /** `handleGenerate()`. */
  function HandleGenerate(form: GeneratorForm): (r: GenerateOutcome)
    ensures form.selectedDuration == 0 && DurationInvalid(ParseInt(form.customDuration)) ==>
      r == DurationRejected(form.(durationError := Some(DurationError)))
    ensures r.NoDaysSelected? <==>
      (form.selectedDays == [] && !(form.selectedDuration == 0 && DurationInvalid(ParseInt(form.customDuration))))
    ensures r.Generate? ==> r.days == form.selectedDays && r.days != []
    ensures r.Generate? && form.selectedDuration == 0 ==>
      ParseInt(form.customDuration) == Some(r.duration) && MinDuration <= r.duration <= MaxDuration
    ensures r.Generate? && form.selectedDuration != 0 ==> r.duration == form.selectedDuration
  {
    if form.selectedDuration == 0 && DurationInvalid(ParseInt(form.customDuration)) then
      DurationRejected(form.(durationError := Some(DurationError)))
    else
      var duration := if form.selectedDuration == 0 then ParseInt(form.customDuration).value else form.selectedDuration;
      if form.selectedDays == [] then NoDaysSelected else Generate(duration, form.selectedDays)
  }

  /** `canGenerate`. */
  function CanGenerate(form: GeneratorForm, generating: bool): (b: bool)
    ensures b ==> form.selectedDays != [] && !generating
    ensures b ==> (form.selectedDuration == 0 ==> form.customDuration != "" && form.durationError.None?)
    ensures (form.selectedDays != [] && !generating && form.selectedDuration != 0) ==> b
  {
    |form.selectedDays| > 0
    && (if form.selectedDuration == 0 then form.customDuration != "" && form.durationError.None? else true)
    && !generating
  }

  /** Whenever the button is enabled and the error shown reflects the typed
      text, pressing it generates with an allowed duration. */
  lemma EnabledButtonGenerates(form: GeneratorForm, generating: bool)
    requires form.selectedDuration in DurationPresets
    requires form.selectedDuration == 0 ==> form.durationError == CustomDurationError(form.customDuration)
    requires CanGenerate(form, generating)
    ensures HandleGenerate(form).Generate?
    ensures MinDuration <= HandleGenerate(form).duration <= MaxDuration
  {
  }

  // ---------------------------------------------------------------------
  // AdminScheduleSettingsScreen
  // ---------------------------------------------------------------------

  datatype Toast = SuccessToast | InfoToast | ErrorToast

  /** The optimistic list `handleToggleDay(dayOfWeek, enabled)` shows. */
  function SetDayEnabled(days: seq<DaySettings>, dayOfWeek: int, enabled: bool): (r: seq<DaySettings>)
    ensures |r| == |days|
    ensures forall i | 0 <= i < |days| ::
      r[i].dayOfWeek == days[i].dayOfWeek && r[i].workPeriods == days[i].workPeriods
    ensures forall i | 0 <= i < |days| ::
      r[i].enabled == (if days[i].dayOfWeek == dayOfWeek then enabled else days[i].enabled)
  {
    seq(|days|, i requires 0 <= i < |days| =>
      if days[i].dayOfWeek == dayOfWeek then ToggleEnabled(days[i], enabled) else days[i])
  }

  datatype ToggleResult = ToggleResult(days: seq<DaySettings>, toast: Toast)

  /** `handleToggleDay` once the save has answered: the new list on
      success, the list from before the toggle on failure. */
  function HandleToggleDay(days: seq<DaySettings>, dayOfWeek: int, enabled: bool, saved: bool): (r: ToggleResult)
    ensures saved ==> r.days == SetDayEnabled(days, dayOfWeek, enabled) && r.toast == SuccessToast
    ensures !saved ==> r.days == days && r.toast == ErrorToast
  {
    if saved then ToggleResult(SetDayEnabled(days, dayOfWeek, enabled), SuccessToast)
    else ToggleResult(days, ErrorToast)
  }

  /** Turning a day on and then off again, both saved, leaves every day
      that was off as it was. */
  lemma ToggleOnOffRestores(days: seq<DaySettings>, dayOfWeek: int)
    requires forall i | 0 <= i < |days| :: days[i].dayOfWeek == dayOfWeek ==> !days[i].enabled
    ensures HandleToggleDay(HandleToggleDay(days, dayOfWeek, true, true).days, dayOfWeek, false, true).days == days
  {
  }

  /** `localDays.map((d) => d.dayOfWeek === updatedDay.dayOfWeek ? updatedDay : d)`. */
  function ReplaceDay(days: seq<DaySettings>, updated: DaySettings): (r: seq<DaySettings>)
    ensures |r| == |days|
    ensures forall i | 0 <= i < |days| && days[i].dayOfWeek == updated.dayOfWeek :: r[i] == updated
    ensures forall i | 0 <= i < |days| && days[i].dayOfWeek != updated.dayOfWeek :: r[i] == days[i]
  {
    seq(|days|, i requires 0 <= i < |days| => if days[i].dayOfWeek == updated.dayOfWeek then updated else days[i])
  }

  /** Saving the same day twice is the same as saving it once, and saving
      a day back unchanged changes nothing when day numbers are distinct. */
  lemma ReplaceDayProperties(days: seq<DaySettings>, updated: DaySettings, k: int)
    requires 0 <= k < |days|
    requires forall i, j | 0 <= i < j < |days| :: days[i].dayOfWeek != days[j].dayOfWeek
    ensures ReplaceDay(ReplaceDay(days, updated), updated) == ReplaceDay(days, updated)
    ensures ReplaceDay(days, days[k]) == days
  {
  }

  /** The toast text chosen after a successful save. */
  datatype SaveMessage = PeriodAdded | SettingsSaved

  /** `days.find((d) => d.dayOfWeek === n)`. */
  function FindDay(days: seq<DaySettings>, n: int): (r: Option<DaySettings>)
    ensures r.Some? ==> r.value in days && r.value.dayOfWeek == n
    ensures r.None? <==> forall i | 0 <= i < |days| :: days[i].dayOfWeek != n
  {
    if days == [] then None
    else if days[0].dayOfWeek == n then Some(days[0])
    else
      var r := FindDay(days[1..], n);
      assert forall i | 1 <= i < |days| :: days[i] == days[1..][i - 1];
      r
  }

  datatype SaveResult = SaveResult(days: seq<DaySettings>, selected: Option<DaySettings>, toast: Toast, message: Option<SaveMessage>)

  /** `handleSaveDay(updatedDay)` once the save has answered. The new list
      stays either way; only success closes the editor. "Period added" is
      reported when the day now has more periods than before; a day that
      was not in the list compares against `undefined`, which is never
      smaller. */
  function HandleSaveDay(days: seq<DaySettings>, selected: Option<DaySettings>, updated: DaySettings, saved: bool): (r: SaveResult)
    ensures r.days == ReplaceDay(days, updated)
    ensures saved ==> r.selected.None? && r.toast == SuccessToast && r.message.Some?
    ensures !saved ==> r.selected == selected && r.toast == ErrorToast && r.message.None?
    ensures r.message == Some(PeriodAdded) <==>
      saved && FindDay(days, updated.dayOfWeek).Some?
      && |updated.workPeriods| > |FindDay(days, updated.dayOfWeek).value.workPeriods|
  {
    var before := FindDay(days, updated.dayOfWeek);
    var newDays := ReplaceDay(days, updated);
    if !saved then SaveResult(newDays, selected, ErrorToast, None)
    else if before.Some? && |updated.workPeriods| > |before.value.workPeriods| then
      SaveResult(newDays, None, SuccessToast, Some(PeriodAdded))
    else SaveResult(newDays, None, SuccessToast, Some(SettingsSaved))
  }

  /** `handleDayPress(day)`: only an enabled day opens the editor; a
      disabled one only shows a hint. */
  function HandleDayPress(selected: Option<DaySettings>, day: DaySettings): (r: (Option<DaySettings>, Option<Toast>))
    ensures day.enabled ==> r == (Some(day), None)
    ensures !day.enabled ==> r == (selected, Some(InfoToast))
    ensures r.1.None? <==> day.enabled
    ensures r.1.None? ==> r.0.Some? && r.0.value.enabled
  {
    if day.enabled then (Some(day), None) else (selected, Some(InfoToast))
  }

  /** Day numbers are distinct and every day's periods are well formed
      and sorted. */
  predicate DaysShaped(days: seq<DaySettings>) {
    && (forall i, j | 0 <= i < j < |days| :: days[i].dayOfWeek != days[j].dayOfWeek)
    && (forall i | 0 <= i < |days| :: WellFormed(days[i].workPeriods) && Sorted(days[i].workPeriods))
  }

  /** With distinct day numbers, looking a listed day up finds that day. */
  lemma FindListedDay(days: seq<DaySettings>, k: int)
    requires 0 <= k < |days|
    requires forall i, j | 0 <= i < j < |days| :: days[i].dayOfWeek != days[j].dayOfWeek
    ensures FindDay(days, days[k].dayOfWeek) == Some(days[k])
  {
  }

  /** Pressing a listed day: an enabled day opens the editor on itself, and
      whatever the editor hands back, saved or not, the list keeps its
      days in place with distinct numbers and well-formed sorted periods,
      with the edited day at the pressed position. Saving it back
      unedited changes nothing and closes the editor with the plain
      "settings saved" message. A disabled day opens nothing new and only
      shows a hint. */
  lemma PressEditSaveKeepsDays(days: seq<DaySettings>, selected: Option<DaySettings>, k: int,
                               previous: Option<DaySettings>, edits: seq<DayEdit>, saved: bool)
    requires 0 <= k < |days| && DaysShaped(days)
    ensures !days[k].enabled ==> HandleDayPress(selected, days[k]) == (selected, Some(InfoToast))
    ensures days[k].enabled ==>
      var pressed := HandleDayPress(selected, days[k]);
      && pressed == (Some(days[k]), None)
      && var updated := HandleSave(ApplyEdits(OpenEditor(previous, true, pressed.0).value, edits));
      && var r := HandleSaveDay(days, pressed.0, updated, saved);
      && |r.days| == |days| && r.days[k] == updated && DaysShaped(r.days)
      && (forall i | 0 <= i < |days| && i != k :: r.days[i] == days[i])
      && (edits == [] && saved ==> r.days == days && r.selected.None? && r.message == Some(SettingsSaved))
  {
    if days[k].enabled {
      EditingSessionKeepsDayShape(previous, days[k], edits);
      var updated := HandleSave(ApplyEdits(OpenEditor(previous, true, Some(days[k])).value, edits));
      var r := ReplaceDay(days, updated);
      forall i | 0 <= i < |days| && i != k ensures r[i] == days[i] {
        assert days[i].dayOfWeek != days[k].dayOfWeek;
      }
      if edits == [] {
        FindListedDay(days, k);
        ReplaceDayProperties(days, days[k], k);
      }
    }
  }

  datatype GenerateRange = GenerateRange(startDate: Option<string>, weeks: int)

  datatype GenerateRequest = GenerateRequest(durationMinutes: int, dayOfWeeks: seq<int>, range: GenerateRange)

  /** The request `handleGenerate` sends: always one week, with a start
      date only when a non-empty one is supplied. */
  function GenerateRequestOf(duration: int, selectedDays: seq<int>, startDate: Option<string>): (r: GenerateRequest)
    ensures r.durationMinutes == duration && r.dayOfWeeks == selectedDays && r.range.weeks == 1
    ensures r.range.startDate.Some? <==> Truthy(startDate, "")
    ensures r.range.startDate.Some? ==> r.range.startDate == startDate
  {
    GenerateRequest(duration, selectedDays, GenerateRange(if Truthy(startDate, "") then startDate else None, 1))
  }

  /** The request the generator section produces: it never passes a start
      date, and its duration is allowed whenever it came from a preset or
      the custom field. */
  lemma GeneratorRequestShape(form: GeneratorForm)
    requires form.selectedDuration in DurationPresets
    requires HandleGenerate(form).Generate?
    ensures var g := HandleGenerate(form);
      var req := GenerateRequestOf(g.duration, g.days, None);
      req.range == GenerateRange(None, 1) && req.dayOfWeeks != []
      && MinDuration <= req.durationMinutes <= MaxDuration
  {
  }

  /** The generator's answer: the created and skipped counts, or a
      rejected request. */
  datatype GeneratorAnswer = Generated(created: int, skipped: int) | GenerateFailed

  /** How the generator's answer is reported: a rejected request shows the
      error toast, otherwise success, info or nothing by the counts. */
  function ClassifyGenerateResult(outcome: GeneratorAnswer): (t: Option<Toast>)
    ensures t == Some(ErrorToast) <==> outcome.GenerateFailed?
    ensures t == Some(SuccessToast) <==> outcome.Generated? && outcome.created > 0
    ensures t == Some(InfoToast) <==> outcome.Generated? && outcome.created <= 0 && outcome.skipped > 0
    ensures t.None? <==> outcome.Generated? && outcome.created <= 0 && outcome.skipped <= 0
  {
    match outcome
    case GenerateFailed => Some(ErrorToast)
    case Generated(created, skipped) =>
      if created > 0 then Some(SuccessToast)
      else if skipped > 0 then Some(InfoToast)
      else None
  }
}
