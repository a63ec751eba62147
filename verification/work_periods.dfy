/** A day's work periods in the weekly schedule template, and the two
    editors that change them: the add-period form (which refuses a period
    that is empty or overlaps another) and the day-hours editor (toggle,
    add in start-time order, delete one period, clear the day).

    Times are "HH:mm" text compared as strings, as the source compares
    them; `localeCompare` on such text is taken to be the code-unit order
    `LexLess`. */
module WorkPeriods {
  import opened Wrappers
  import opened Text

  datatype WorkPeriod = WorkPeriod(id: string, startTime: string, endTime: string)

  datatype DaySettings = DaySettings(dayOfWeek: int, enabled: bool, workPeriods: seq<WorkPeriod>)

  /** `a <= b` on strings, equivalently `a.localeCompare(b) <= 0`. */
  predicate LexLeq(a: string, b: string) {
    !LexLess(b, a)
  }

  // ---------------------------------------------------------------------
  // periodsOverlap
  // ---------------------------------------------------------------------

  /** `periodsOverlap(p1, p2)`: each starts before the other ends. */
  predicate Overlap(p1: WorkPeriod, p2: WorkPeriod) {
    LexLess(p1.startTime, p2.endTime) && LexLess(p2.startTime, p1.endTime)
  }

  /** A period that starts strictly before it ends. */
  predicate Proper(p: WorkPeriod) {
    LexLess(p.startTime, p.endTime)
  }

  /** The instant `t` lies in the half-open period `[start, end)`. */
  predicate Within(p: WorkPeriod, t: string) {
    LexLeq(p.startTime, t) && LexLess(t, p.endTime)
  }

  /** Overlap is symmetric, and periods that meet end to start do not
      overlap. */
  lemma OverlapSymmetricBackToBack(p: WorkPeriod, q: WorkPeriod)
    ensures Overlap(p, q) <==> Overlap(q, p)
    ensures p.endTime == q.startTime ==> !Overlap(p, q) && !Overlap(q, p)
  {
    LexLessIrreflexive(p.endTime);
  }

  /** For proper periods, the overlap test holds exactly when some instant
      lies in both half-open periods. */
  lemma OverlapIffSharedInstant(p: WorkPeriod, q: WorkPeriod)
    requires Proper(p) && Proper(q)
    ensures Overlap(p, q) <==> exists t :: Within(p, t) && Within(q, t)
  {
    if Overlap(p, q) {
      LexLessTotal(p.startTime, q.startTime);
      if LexLess(p.startTime, q.startTime) {
        LexLessAsymmetric(p.startTime, q.startTime);
        LexLessIrreflexive(q.startTime);
        assert Within(p, q.startTime) && Within(q, q.startTime);
      } else {
        LexLessIrreflexive(p.startTime);
        assert Within(p, p.startTime) && Within(q, p.startTime);
      }
    }
    if t :| Within(p, t) && Within(q, t) {
      LeqLessTransitive(p.startTime, t, q.endTime);
      LeqLessTransitive(q.startTime, t, p.endTime);
    }
  }

  lemma LeqLessTransitive(a: string, b: string, c: string)
    requires LexLeq(a, b) && LexLess(b, c)
    ensures LexLess(a, c)
  {
    LexLessTotal(a, b);
    if LexLess(a, b) { LexLessTransitive(a, b, c); }
  }

  // ---------------------------------------------------------------------
  // Well-formed and sorted period lists
  // ---------------------------------------------------------------------

  /** Every period is proper and no two different positions overlap. */
  predicate WellFormed(ps: seq<WorkPeriod>) {
    && (forall i | 0 <= i < |ps| :: Proper(ps[i]))
    && (forall i, j | 0 <= i < j < |ps| :: !Overlap(ps[i], ps[j]))
  }

  /** Ordered by start time, as `sort((a, b) => a.startTime.localeCompare(b.startTime))`
      leaves them. */
  predicate Sorted(ps: seq<WorkPeriod>) {
    forall i, j | 0 <= i < j < |ps| :: LexLeq(ps[i].startTime, ps[j].startTime)
  }

  /** Inserts `p` after every period starting no later than it. */
  function Insert(ps: seq<WorkPeriod>, p: WorkPeriod): (r: seq<WorkPeriod>)
    ensures |r| == |ps| + 1
    ensures multiset(r) == multiset(ps) + multiset{p}
  {
    if ps == [] then [p]
    else if LexLess(p.startTime, ps[0].startTime) then
      assert ps == [ps[0]] + ps[1..];
      [p] + ps
    else
      assert ps == [ps[0]] + ps[1..];
      [ps[0]] + Insert(ps[1..], p)
  }

  /** Every element of `Insert(ps, p)` is `p` or an element of `ps`. */
  lemma InsertMember(ps: seq<WorkPeriod>, p: WorkPeriod, k: int)
    requires 0 <= k < |Insert(ps, p)|
    ensures Insert(ps, p)[k] == p || Insert(ps, p)[k] in ps
  {
    var r := Insert(ps, p);
    assert r[k] in multiset(r);
  }

  lemma {:induction false} InsertSorted(ps: seq<WorkPeriod>, p: WorkPeriod)
    requires Sorted(ps)
    ensures Sorted(Insert(ps, p))
  {
    if ps == [] {
    } else if LexLess(p.startTime, ps[0].startTime) {
      var r := Insert(ps, p);
      forall j | 1 <= j < |r| ensures LexLeq(p.startTime, r[j].startTime) {
        assert r[j] == ps[j - 1];
        if LexLess(ps[j - 1].startTime, p.startTime) {
          LexLessTransitive(ps[j - 1].startTime, p.startTime, ps[0].startTime);
          if j - 1 == 0 { LexLessIrreflexive(ps[0].startTime); }
          assert false;
        }
      }
    } else {
      var t := Insert(ps[1..], p);
      InsertSorted(ps[1..], p);
      forall k | 0 <= k < |t| ensures LexLeq(ps[0].startTime, t[k].startTime) {
        InsertMember(ps[1..], p, k);
        if t[k] != p {
          var m :| 0 <= m < |ps[1..]| && ps[1..][m] == t[k];
          assert ps[m + 1] == t[k];
        }
      }
    }
  }

  lemma {:induction false} InsertWellFormed(ps: seq<WorkPeriod>, p: WorkPeriod)
    requires WellFormed(ps) && Proper(p)
    requires forall i | 0 <= i < |ps| :: !Overlap(ps[i], p)
    ensures WellFormed(Insert(ps, p))
  {
    if ps == [] {
    } else if LexLess(p.startTime, ps[0].startTime) {
      var r := Insert(ps, p);
      forall j | 1 <= j < |r| ensures !Overlap(r[0], r[j]) {
        assert r[j] == ps[j - 1];
        OverlapSymmetricBackToBack(ps[j - 1], p);
      }
    } else {
      var t := Insert(ps[1..], p);
      InsertWellFormed(ps[1..], p);
      forall k | 0 <= k < |t| ensures !Overlap(ps[0], t[k]) && Proper(t[k]) {
        InsertMember(ps[1..], p, k);
        if t[k] != p {
          var m :| 0 <= m < |ps[1..]| && ps[1..][m] == t[k];
          assert ps[m + 1] == t[k];
        } else {
          OverlapSymmetricBackToBack(ps[0], p);
        }
      }
    }
  }

  /** A stable sort by start time: each period, taken in order, is
      inserted after every earlier one that starts no later. */
  function SortByStart(ps: seq<WorkPeriod>): (r: seq<WorkPeriod>)
    ensures |r| == |ps|
    ensures multiset(r) == multiset(ps)
    ensures Sorted(r)
  {
    if ps == [] then []
    else
      var init := SortByStart(ps[..|ps| - 1]);
      assert ps == ps[..|ps| - 1] + [ps[|ps| - 1]];
      InsertSorted(init, ps[|ps| - 1]);
      Insert(init, ps[|ps| - 1])
  }

  /** Inserting a period that starts no earlier than every other appends
      it. */
  lemma {:induction false} InsertLast(ps: seq<WorkPeriod>, p: WorkPeriod)
    requires forall i | 0 <= i < |ps| :: LexLeq(ps[i].startTime, p.startTime)
    ensures Insert(ps, p) == ps + [p]
  {
    if ps != [] {
      InsertLast(ps[1..], p);
      assert !LexLess(p.startTime, ps[0].startTime);
      assert ps == [ps[0]] + ps[1..];
    }
  }

  /** Sorting a sorted list changes nothing. */
  lemma {:induction false} SortSortedIsIdentity(ps: seq<WorkPeriod>)
    requires Sorted(ps)
    ensures SortByStart(ps) == ps
  {
    if ps != [] {
      var init := ps[..|ps| - 1];
      assert Sorted(init);
      SortSortedIsIdentity(init);
      InsertLast(init, ps[|ps| - 1]);
      assert init + [ps[|ps| - 1]] == ps;
    }
  }

  /** Sorting keeps a list well formed. */
  lemma {:induction false} SortWellFormed(ps: seq<WorkPeriod>)
    requires WellFormed(ps)
    ensures WellFormed(SortByStart(ps))
  {
    if ps != [] {
      var init := ps[..|ps| - 1];
      var last := ps[|ps| - 1];
      assert WellFormed(init);
      SortWellFormed(init);
      var sorted := SortByStart(init);
      forall i | 0 <= i < |sorted| ensures !Overlap(sorted[i], last) {
        assert sorted[i] in multiset(sorted);
        assert sorted[i] in init;
        var m :| 0 <= m < |init| && init[m] == sorted[i];
        assert ps[m] == sorted[i];
      }
      InsertWellFormed(sorted, last);
    }
  }

  // ---------------------------------------------------------------------
  // AddPeriodModal
  // ---------------------------------------------------------------------

  datatype PeriodForm = PeriodForm(startTime: string, endTime: string, error: Option<string>)

  /** The form's initial and reset state: 08:00 to 12:00, no error. */
  const InitialForm := PeriodForm("08:00", "12:00", None)

  const OrderError := "وقت البداية يجب أن يكون قبل وقت النهاية"
  const OverlapError := "هذه الفترة تتداخل مع فترة موجودة"

  /** The form after the effect on `visible`: hiding resets it. */
  function OnVisibility(form: PeriodForm, visible: bool): (r: PeriodForm)
    ensures visible ==> r == form
    ensures !visible ==> r.error.None? && Proper(WorkPeriod("", r.startTime, r.endTime))
  {
    if visible then form
    else
      assert LexLess(InitialForm.startTime, InitialForm.endTime) by {
        assert InitialForm.startTime[0] == '0' && InitialForm.endTime[0] == '1';
      }
      InitialForm
  }

  /** `period-${Date.now()}`, given the clock reading. */
  function PeriodId(now: int): string {
    "period-" + IntToString(now)
  }

  /** Some existing period overlaps the candidate
      (`existingPeriods.some((p) => periodsOverlap(p, newPeriod))`). */
  predicate HasOverlap(existing: seq<WorkPeriod>, candidate: WorkPeriod) {
    exists i | 0 <= i < |existing| :: Overlap(existing[i], candidate)
  }

  /** What `handleAdd` leaves behind: the form (with any error), the
      period passed to `onAdd`, and whether `onClose` was called. */
  datatype AddOutcome = AddOutcome(form: PeriodForm, added: Option<WorkPeriod>, closed: bool)

  /** `handleAdd()`. */
  function HandleAdd(form: PeriodForm, existing: seq<WorkPeriod>, now: int): (r: AddOutcome)
    ensures !LexLess(form.startTime, form.endTime) ==>
      r == AddOutcome(form.(error := Some(OrderError)), None, false)
    ensures LexLess(form.startTime, form.endTime) && HasOverlap(existing, WorkPeriod(PeriodId(now), form.startTime, form.endTime)) ==>
      r == AddOutcome(form.(error := Some(OverlapError)), None, false)
    ensures r.added.Some? <==> r.closed
    ensures r.added.Some? ==>
      r.added.value == WorkPeriod(PeriodId(now), form.startTime, form.endTime) && r.form == form
  {
    var candidate := WorkPeriod(PeriodId(now), form.startTime, form.endTime);
    if !LexLess(form.startTime, form.endTime) then AddOutcome(form.(error := Some(OrderError)), None, false)
    else if HasOverlap(existing, candidate) then AddOutcome(form.(error := Some(OverlapError)), None, false)
    else AddOutcome(form, Some(candidate), true)
  }

  /** A period reaches `onAdd` exactly when it is proper and overlaps no
      existing period; then appending it to a well-formed list keeps the
      list well formed. */
  lemma HandleAddKeepsWellFormed(form: PeriodForm, existing: seq<WorkPeriod>, now: int)
    requires WellFormed(existing)
    ensures var r := HandleAdd(form, existing, now);
      r.added.Some? ==> WellFormed(existing + [r.added.value])
    ensures var r := HandleAdd(form, existing, now);
      var candidate := WorkPeriod(PeriodId(now), form.startTime, form.endTime);
      r.added.Some? <==> (Proper(candidate) && forall i | 0 <= i < |existing| :: !Overlap(existing[i], candidate))
  {
    var r := HandleAdd(form, existing, now);
    if r.added.Some? {
      var s := existing + [r.added.value];
      forall i, j | 0 <= i < j < |s| ensures !Overlap(s[i], s[j]) {
        if j == |existing| {
          assert !HasOverlap(existing, r.added.value);
          assert s[i] == existing[i];
        }
      }
    }
  }

  /** A freshly reset form adds its 08:00–12:00 period to an empty day. */
  lemma ResetFormIsAccepted(form: PeriodForm, now: int)
    ensures HandleAdd(OnVisibility(form, false), [], now).added.Some?
  {
  }

  // ---------------------------------------------------------------------
  // DayHoursModal
  // ---------------------------------------------------------------------

  /** The modal's working copy after the effect on `visible` and `day`:
      a copy of `day` when the modal is shown with one, otherwise the
      previous copy. The caller's day is never written; only `HandleSave`
      hands the copy back. */
  function OpenEditor(local: Option<DaySettings>, visible: bool, day: Option<DaySettings>): (r: Option<DaySettings>)
    ensures visible && day.Some? ==> r == day
    ensures !(visible && day.Some?) ==> r == local
  {
    if visible && day.Some? then Some(day.value.(workPeriods := day.value.workPeriods)) else local
  }

  /** `handleSave()`: the working copy passed to `onSave`. */
  function HandleSave(local: DaySettings): (saved: DaySettings)
    ensures saved == local
  {
    local
  }

  /** `handleToggleEnabled(enabled)`. */
  function ToggleEnabled(d: DaySettings, enabled: bool): (r: DaySettings)
    ensures r.enabled == enabled
    ensures r.dayOfWeek == d.dayOfWeek && r.workPeriods == d.workPeriods
  {
    d.(enabled := enabled)
  }

  /** `handleAddPeriod(period)`: the periods plus the new one, sorted by
      start time. */
  function AddPeriod(d: DaySettings, p: WorkPeriod): (r: DaySettings)
    ensures r.dayOfWeek == d.dayOfWeek && r.enabled == d.enabled
    ensures |r.workPeriods| == |d.workPeriods| + 1
    ensures multiset(r.workPeriods) == multiset(d.workPeriods) + multiset{p}
    ensures Sorted(r.workPeriods)
  {
    d.(workPeriods := SortByStart(d.workPeriods + [p]))
  }

  /** On a sorted day, adding inserts the period in place. */
  lemma AddPeriodToSortedDay(d: DaySettings, p: WorkPeriod)
    requires Sorted(d.workPeriods)
    ensures AddPeriod(d, p).workPeriods == Insert(d.workPeriods, p)
  {
    var ps := d.workPeriods + [p];
    assert ps[..|ps| - 1] == d.workPeriods;
    SortSortedIsIdentity(d.workPeriods);
  }

  /** Adding a period accepted by the add-period form keeps the day's
      periods well formed. */
  lemma AddAcceptedPeriodKeepsWellFormed(d: DaySettings, form: PeriodForm, now: int)
    requires WellFormed(d.workPeriods)
    requires HandleAdd(form, d.workPeriods, now).added.Some?
    ensures WellFormed(AddPeriod(d, HandleAdd(form, d.workPeriods, now).added.value).workPeriods)
  {
    HandleAddKeepsWellFormed(form, d.workPeriods, now);
    SortWellFormed(d.workPeriods + [HandleAdd(form, d.workPeriods, now).added.value]);
  }

  /** `workPeriods.filter((p) => p.id !== periodId)`. */
  function RemoveId(ps: seq<WorkPeriod>, id: string): (r: seq<WorkPeriod>)
    ensures |r| <= |ps|
    ensures forall p | p in r :: p.id != id && p in ps
    ensures forall p: WorkPeriod | p.id != id :: multiset(r)[p] == multiset(ps)[p]
  {
    if ps == [] then []
    else
      assert ps == [ps[0]] + ps[1..];
      if ps[0].id != id then [ps[0]] + RemoveId(ps[1..], id) else RemoveId(ps[1..], id)
  }

  /** Filtering works piecewise, so the kept periods stay in their order. */
  lemma {:induction false} RemoveIdConcat(a: seq<WorkPeriod>, b: seq<WorkPeriod>, id: string)
    ensures RemoveId(a + b, id) == RemoveId(a, id) + RemoveId(b, id)
  {
    if a == [] {
      assert a + b == b;
    } else {
      assert (a + b)[1..] == a[1..] + b;
      RemoveIdConcat(a[1..], b, id);
    }
  }

  /** Removing an id that no period has changes nothing. */
  lemma {:induction false} RemoveAbsentId(ps: seq<WorkPeriod>, id: string)
    requires forall i | 0 <= i < |ps| :: ps[i].id != id
    ensures RemoveId(ps, id) == ps
  {
    if ps != [] {
      RemoveAbsentId(ps[1..], id);
      assert ps == [ps[0]] + ps[1..];
    }
  }

  /** Removing periods keeps a well-formed list well formed ... */
  lemma {:induction false} RemoveIdKeepsWellFormed(ps: seq<WorkPeriod>, id: string)
    requires WellFormed(ps)
    ensures WellFormed(RemoveId(ps, id))
  {
    if ps != [] {
      var tail := ps[1..];
      assert WellFormed(tail) by {
        forall i | 0 <= i < |tail| ensures tail[i] == ps[i + 1] { }
      }
      RemoveIdKeepsWellFormed(tail, id);
      if ps[0].id != id {
        var t := RemoveId(tail, id);
        forall k | 0 <= k < |t| ensures !Overlap(ps[0], t[k]) {
          var m :| 0 <= m < |tail| && tail[m] == t[k];
          assert ps[m + 1] == t[k];
        }
        ConsWellFormed(ps[0], t);
      }
    }
  }

  /** A proper period that overlaps none of a well-formed list can go in
      front of it. */
  lemma ConsWellFormed(p: WorkPeriod, t: seq<WorkPeriod>)
    requires Proper(p) && WellFormed(t)
    requires forall k | 0 <= k < |t| :: !Overlap(p, t[k])
    ensures WellFormed([p] + t)
  {
    var s := [p] + t;
    forall i, j | 0 <= i < j < |s| ensures !Overlap(s[i], s[j]) {
      assert s[j] == t[j - 1];
      if i > 0 {
        assert s[i] == t[i - 1];
      }
    }
  }

  /** ... and a sorted list sorted. */
  lemma {:induction false} RemoveIdKeepsSorted(ps: seq<WorkPeriod>, id: string)
    requires Sorted(ps)
    ensures Sorted(RemoveId(ps, id))
  {
    if ps != [] {
      assert Sorted(ps[1..]);
      RemoveIdKeepsSorted(ps[1..], id);
      if ps[0].id != id {
        var t := RemoveId(ps[1..], id);
        var r := [ps[0]] + t;
        assert r == RemoveId(ps, id);
        forall k | 0 <= k < |t| ensures LexLeq(ps[0].startTime, t[k].startTime) {
          assert t[k] in ps[1..];
        }
      }
    }
  }

  /** `handleDeletePeriod(periodId)`. */
  function DeletePeriod(d: DaySettings, id: string): (r: DaySettings)
    ensures r.dayOfWeek == d.dayOfWeek && r.enabled == d.enabled
    ensures forall p | p in r.workPeriods :: p.id != id
    ensures forall p: WorkPeriod | p.id != id :: multiset(r.workPeriods)[p] == multiset(d.workPeriods)[p]
  {
    d.(workPeriods := RemoveId(d.workPeriods, id))
  }

  /** `handleDeleteDay()`: the day is disabled and emptied. */
  function DeleteDay(d: DaySettings): (r: DaySettings)
    ensures r.dayOfWeek == d.dayOfWeek
    ensures !r.enabled && r.workPeriods == []
    ensures WellFormed(r.workPeriods) && Sorted(r.workPeriods)
  {
    d.(enabled := false, workPeriods := [])
  }

  /** Every editing step keeps a well-formed sorted day well formed and
      sorted, given that only accepted periods are added. */
  lemma EditsKeepDayShape(d: DaySettings, id: string, enabled: bool)
    requires WellFormed(d.workPeriods) && Sorted(d.workPeriods)
    ensures WellFormed(ToggleEnabled(d, enabled).workPeriods) && Sorted(ToggleEnabled(d, enabled).workPeriods)
    ensures WellFormed(DeletePeriod(d, id).workPeriods) && Sorted(DeletePeriod(d, id).workPeriods)
    ensures WellFormed(DeleteDay(d).workPeriods)
  {
    RemoveIdKeepsWellFormed(d.workPeriods, id);
    RemoveIdKeepsSorted(d.workPeriods, id);
  }

  /** What the modal lets the admin do to its working copy. A period is
      added through the add-period form, which checks it against the
      copy's own periods. */
  datatype DayEdit =
    | SwitchEnabled(enabled: bool)
    | AddFromForm(form: PeriodForm, now: int)
    | RemovePeriod(id: string)
    | ClearDay

  /** One edit of the working copy; a form that is not accepted leaves
      the copy as it is. */
  function ApplyEdit(d: DaySettings, e: DayEdit): DaySettings {
    match e
    case SwitchEnabled(enabled) => ToggleEnabled(d, enabled)
    case AddFromForm(form, now) =>
      var r := HandleAdd(form, d.workPeriods, now);
      if r.added.Some? then AddPeriod(d, r.added.value) else d
    case RemovePeriod(id) => DeletePeriod(d, id)
    case ClearDay => DeleteDay(d)
  }

  function ApplyEdits(d: DaySettings, edits: seq<DayEdit>): DaySettings
    decreases |edits|
  {
    if edits == [] then d else ApplyEdits(ApplyEdit(d, edits[0]), edits[1..])
  }

  /** One edit keeps the day's number and a well-formed sorted day so. */
  lemma ApplyEditKeepsDayShape(d: DaySettings, e: DayEdit)
    requires WellFormed(d.workPeriods) && Sorted(d.workPeriods)
    ensures var r := ApplyEdit(d, e);
      r.dayOfWeek == d.dayOfWeek && WellFormed(r.workPeriods) && Sorted(r.workPeriods)
  {
    match e
    case SwitchEnabled(enabled) =>
    case AddFromForm(form, now) =>
      if HandleAdd(form, d.workPeriods, now).added.Some? {
        AddAcceptedPeriodKeepsWellFormed(d, form, now);
      }
    case RemovePeriod(id) =>
      EditsKeepDayShape(d, id, d.enabled);
    case ClearDay =>
  }

  /** The modal works on a copy: opening it on a well-formed sorted day,
      editing in any way it offers and saving hands `onSave` a
      well-formed sorted day with the opened day's number; saving without
      edits hands back the opened day itself. Whatever copy an earlier
      opening left behind is replaced. */
  lemma {:induction false} EditingSessionKeepsDayShape(previous: Option<DaySettings>, day: DaySettings, edits: seq<DayEdit>)
    requires WellFormed(day.workPeriods) && Sorted(day.workPeriods)
    ensures OpenEditor(previous, true, Some(day)).Some?
    ensures var saved := HandleSave(ApplyEdits(OpenEditor(previous, true, Some(day)).value, edits));
      && saved.dayOfWeek == day.dayOfWeek
      && WellFormed(saved.workPeriods) && Sorted(saved.workPeriods)
      && (edits == [] ==> saved == day)
    decreases |edits|
  {
    if edits != [] {
      var copy := OpenEditor(previous, true, Some(day)).value;
      ApplyEditKeepsDayShape(copy, edits[0]);
      var next := ApplyEdit(copy, edits[0]);
      EditingSessionKeepsDayShape(Some(next), next, edits[1..]);
    }
  }
}
