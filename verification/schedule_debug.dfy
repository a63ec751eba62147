/** The development-time integrity checks on normalised sessions: one
    session's errors and warnings, the field-by-field comparison of the
    consumer and admin views of a session, and the batch summary. The
    console output is not modelled; each message is represented by the
    finding it reports. */
module ScheduleDebug {
  import opened Wrappers
  import opened Text
  import opened Clock
  import opened Calendar
  import opened ScheduleCore
  import opened ScheduleMappers
  import opened Sorting

  datatype Issue =
    | OccupiedOverCapacity(occupied: int, capacity: int)
    | StartNotBeforeEnd(startTime: string, endTime: string)
    | UnknownWeekday
    | MissingId
    | StartFormatInvalid(startTime: string)
    | EndFormatInvalid(endTime: string)
    | MissingTitle
    | NonPositiveCapacity(capacity: int)

  datatype ValidationResult = ValidationResult(
    sessionId: string, isValid: bool, warnings: seq<Issue>, errors: seq<Issue>)

  /** The comparison `startH * 60 + startM >= endH * 60 + endM`, which is
      false when either side is `NaN`. */
  predicate TimesOutOfOrder(s: SessionCore) {
    NotBefore(s.startTime, s.endTime)
  }

  /** `[x]` when `c` holds, else `[]`: one conditional `push`. */
  function PushIf(c: bool, x: Issue): (r: seq<Issue>)
    ensures x in r <==> c
    ensures forall y | y in r :: y == x
    ensures |r| <= 1
  {
    if c then [x] else []
  }

  /** The four checks of each list, given their outcomes. */
  function Collect(c1: bool, x1: Issue, c2: bool, x2: Issue, c3: bool, x3: Issue, c4: bool, x4: Issue): (r: seq<Issue>)
    ensures forall y | y in r :: y == x1 || y == x2 || y == x3 || y == x4
    ensures c1 ==> x1 in r
    ensures c2 ==> x2 in r
    ensures c3 ==> x3 in r
    ensures c4 ==> x4 in r
    ensures x1 in r ==> c1 || x1 == x2 || x1 == x3 || x1 == x4
    ensures x2 in r ==> c2 || x2 == x1 || x2 == x3 || x2 == x4
    ensures x3 in r ==> c3 || x3 == x1 || x3 == x2 || x3 == x4
    ensures x4 in r ==> c4 || x4 == x1 || x4 == x2 || x4 == x3
    ensures r == [] <==> !c1 && !c2 && !c3 && !c4
    ensures |r| <= 4
  {
    PushIf(c1, x1) + PushIf(c2, x2) + PushIf(c3, x3) + PushIf(c4, x4)
  }

  /** The errors `validateSession` pushes, in order. */
  function SessionErrors(s: SessionCore): (errors: seq<Issue>)
    ensures OccupiedOverCapacity(s.occupiedCount, s.capacityTotal) in errors <==> s.occupiedCount > s.capacityTotal
    ensures StartNotBeforeEnd(s.startTime, s.endTime) in errors <==> TimesOutOfOrder(s)
    ensures UnknownWeekday in errors <==> s.weekday.None?
    ensures MissingId in errors <==> s.id == ""
    ensures errors == [] <==> (s.occupiedCount <= s.capacityTotal && !TimesOutOfOrder(s) && s.weekday.Some? && s.id != "")
    ensures |errors| <= 4
    ensures forall e | e in errors :: e.OccupiedOverCapacity? || e.StartNotBeforeEnd? || e.UnknownWeekday? || e.MissingId?
  {
    Collect(
      s.occupiedCount > s.capacityTotal, OccupiedOverCapacity(s.occupiedCount, s.capacityTotal),
      TimesOutOfOrder(s), StartNotBeforeEnd(s.startTime, s.endTime),
      s.weekday.None?, UnknownWeekday,
      s.id == "", MissingId)
  }

  /** The warnings `validateSession` pushes, in order. */
  function SessionWarnings(s: SessionCore): (warnings: seq<Issue>)
    ensures StartFormatInvalid(s.startTime) in warnings <==> !IsHhMm(s.startTime)
    ensures EndFormatInvalid(s.endTime) in warnings <==> !IsHhMm(s.endTime)
    ensures MissingTitle in warnings <==> s.titleAr == ""
    ensures NonPositiveCapacity(s.capacityTotal) in warnings <==> s.capacityTotal <= 0
    ensures |warnings| <= 4
    ensures forall w | w in warnings :: w.StartFormatInvalid? || w.EndFormatInvalid? || w.MissingTitle? || w.NonPositiveCapacity?
  {
    Collect(
      !IsHhMm(s.startTime), StartFormatInvalid(s.startTime),
      !IsHhMm(s.endTime), EndFormatInvalid(s.endTime),
      s.titleAr == "", MissingTitle,
      s.capacityTotal <= 0, NonPositiveCapacity(s.capacityTotal))
  }

  /** `validateSession(session)`: valid exactly when no error was found,
      whatever the warnings. */
  function ValidateSession(s: SessionCore): (r: ValidationResult)
    ensures r.sessionId == s.id
    ensures r.errors == SessionErrors(s) && r.warnings == SessionWarnings(s)
    ensures r.isValid <==> (s.occupiedCount <= s.capacityTotal && !TimesOutOfOrder(s) && s.weekday.Some? && s.id != "")
  {
    var errors := SessionErrors(s);
    ValidationResult(s.id, errors == [], SessionWarnings(s), errors)
  }

  /** Warnings never decide validity: the title and the capacity sign
      (beyond the occupancy check) play no part in it. */
  lemma ValidityIgnoresWarnings(s: SessionCore, title: string)
    ensures ValidateSession(s.(titleAr := title)).isValid == ValidateSession(s).isValid
  {
  }

  /** A session built by the mapper from a record with a non-negative
      capacity never fails the occupancy check and always has a well-formed
      start time; it fails the time-order check only when start and end are
      the same minute. */
  lemma MappedSessionChecks(api: ApiSession, parse: string -> Option<DateTime>)
    requires Capacity(api) >= 0
    ensures var s := MapApiToSessionCore(api, parse);
      && OccupiedOverCapacity(s.occupiedCount, s.capacityTotal) !in SessionErrors(s)
      && StartFormatInvalid(s.startTime) !in SessionWarnings(s)
      && (StartNotBeforeEnd(s.startTime, s.endTime) in SessionErrors(s) ==> MinutesOf(s.startTime) == MinutesOf(s.endTime))
  {
    var s := MapApiToSessionCore(api, parse);
    var startsAt := StartsAt(api);
    var st := FormatTimeTo24h(TextInput(startsAt), parse);
    var et := EndTimeOf(api, startsAt, parse);
    var o := NormalizeTimeOrder(st, et);
    assert s.startTime == o.startTime && s.endTime == o.endTime;
    NormalizedOutOfOrderOnlyWhenEqual(st, et);
    if TimesOutOfOrder(s) {
      SameMinuteEitherWay(s.startTime, s.endTime, st, et);
    }
    assert IsHhMm(s.startTime);
    assert 0 <= s.occupiedCount <= s.capacityTotal;
  }

  lemma SameMinuteEitherWay(a: string, b: string, st: string, et: string)
    requires (a, b) == (st, et) || (a, b) == (et, st)
    requires MinutesOf(st) == MinutesOf(et)
    ensures MinutesOf(a) == MinutesOf(b)
  {
  }

  // ---------------------------------------------------------------------
  // compareSessions
  // ---------------------------------------------------------------------

  datatype Field = WeekdayField | StartTimeField | EndTimeField | CapacityField | OccupiedField | TitleField

  /** The fields compared, in the order they are checked. */
  const ComparedFields: seq<Field> :=
    [WeekdayField, StartTimeField, EndTimeField, CapacityField, OccupiedField, TitleField]

  datatype FieldValue = DayValue(day: Option<WeekdayId>) | TextValue(text: string) | NumberValue(n: int)

  function FieldOf(s: SessionCore, f: Field): FieldValue {
    match f
    case WeekdayField => DayValue(s.weekday)
    case StartTimeField => TextValue(s.startTime)
    case EndTimeField => TextValue(s.endTime)
    case CapacityField => NumberValue(s.capacityTotal)
    case OccupiedField => NumberValue(s.occupiedCount)
    case TitleField => TextValue(s.titleAr)
  }

  datatype Difference = Difference(field: Field, consumer: FieldValue, admin: FieldValue)

  datatype Comparison = Comparison(sessionId: string, matches: bool, differences: seq<Difference>)

  /** The differences among `fields`, in order. */
  function DifferencesIn(consumer: SessionCore, admin: SessionCore, fields: seq<Field>): (ds: seq<Difference>)
    ensures |ds| <= |fields|
    ensures forall d | d in ds ::
      (d.field in fields && d.consumer == FieldOf(consumer, d.field)
       && d.admin == FieldOf(admin, d.field) && d.consumer != d.admin)
    ensures forall f | f in fields :: FieldOf(consumer, f) != FieldOf(admin, f) ==>
      Difference(f, FieldOf(consumer, f), FieldOf(admin, f)) in ds
  {
    if fields == [] then []
    else
      var f := fields[0];
      var rest := DifferencesIn(consumer, admin, fields[1..]);
      if FieldOf(consumer, f) != FieldOf(admin, f)
      then [Difference(f, FieldOf(consumer, f), FieldOf(admin, f))] + rest
      else rest
  }

  /** No difference is found exactly when every listed field agrees. */
  lemma {:induction false} DifferencesEmptyIff(consumer: SessionCore, admin: SessionCore, fields: seq<Field>)
    ensures DifferencesIn(consumer, admin, fields) == [] <==>
      forall f | f in fields :: FieldOf(consumer, f) == FieldOf(admin, f)
  {
    if fields != [] {
      DifferencesEmptyIff(consumer, admin, fields[1..]);
      assert forall f | f in fields :: f == fields[0] || f in fields[1..];
    }
  }

  /** `compareSessions(consumer, admin)`. */
  function CompareSessions(consumer: SessionCore, admin: SessionCore): (r: Comparison)
    ensures r.sessionId == consumer.id
    ensures r.matches <==> r.differences == []
    ensures r.matches <==> forall f | f in ComparedFields :: FieldOf(consumer, f) == FieldOf(admin, f)
    ensures forall d | d in r.differences :: d.field in ComparedFields && d.consumer != d.admin
  {
    var ds := DifferencesIn(consumer, admin, ComparedFields);
    DifferencesEmptyIff(consumer, admin, ComparedFields);
    Comparison(consumer.id, ds == [], ds)
  }

  /** A session matches itself, and matching is symmetric. */
  lemma CompareSessionsReflexiveSymmetric(a: SessionCore, b: SessionCore)
    ensures CompareSessions(a, a).matches
    ensures CompareSessions(a, b).matches == CompareSessions(b, a).matches
  {
  }

  /** Two sessions match exactly when the six compared fields agree. */
  lemma CompareSessionsMatchesIff(a: SessionCore, b: SessionCore)
    ensures CompareSessions(a, b).matches <==>
      a.weekday == b.weekday && a.startTime == b.startTime && a.endTime == b.endTime
      && a.capacityTotal == b.capacityTotal && a.occupiedCount == b.occupiedCount && a.titleAr == b.titleAr
  {
    if CompareSessions(a, b).matches {
      assert WeekdayField in ComparedFields && StartTimeField in ComparedFields && EndTimeField in ComparedFields;
      assert CapacityField in ComparedFields && OccupiedField in ComparedFields && TitleField in ComparedFields;
    }
  }

  // ---------------------------------------------------------------------
  // validateSessions
  // ---------------------------------------------------------------------

  datatype Summary = Summary(totalCount: int, validCount: int, invalidCount: int, results: seq<ValidationResult>)

  /** How many results are valid: `results.filter(r => r.isValid).length`. */
  function CountValid(results: seq<ValidationResult>): (n: nat)
    ensures n <= |results|
  {
    if results == [] then 0
    else (if results[0].isValid then 1 else 0) + CountValid(results[1..])
  }

  /** Counting distributes over concatenation. */
  lemma {:induction false} CountValidAppend(a: seq<ValidationResult>, b: seq<ValidationResult>)
    ensures CountValid(a + b) == CountValid(a) + CountValid(b)
  {
    if a != [] {
      assert (a + b)[1..] == a[1..] + b;
      CountValidAppend(a[1..], b);
    } else {
      assert a + b == b;
    }
  }

  /** Every result is counted exactly when every result is valid, and none
      is counted exactly when none is valid. */
  lemma {:induction false} CountValidExtremes(results: seq<ValidationResult>)
    ensures CountValid(results) == |results| <==> forall i | 0 <= i < |results| :: results[i].isValid
    ensures CountValid(results) == 0 <==> forall i | 0 <= i < |results| :: !results[i].isValid
  {
    if results != [] {
      CountValidExtremes(results[1..]);
      assert forall i | 1 <= i < |results| :: results[i] == results[1..][i - 1];
    }
  }

  /** `sessions.map(validateSession)`. */
  function ValidateAll(sessions: seq<SessionCore>): (results: seq<ValidationResult>)
    ensures |results| == |sessions|
    ensures forall i | 0 <= i < |sessions| :: results[i] == ValidateSession(sessions[i])
  {
    Map(ValidateSession, sessions)
  }

  /** Validating two batches one after the other gives the results of
      validating them together. */
  lemma ValidateAllConcat(a: seq<SessionCore>, b: seq<SessionCore>)
    ensures ValidateAll(a + b) == ValidateAll(a) + ValidateAll(b)
  {
    MapConcat(ValidateSession, a, b);
  }

  /** `validateSessions(sessions)`. */
  function ValidateSessions(sessions: seq<SessionCore>): (r: Summary)
    ensures r.totalCount == |sessions|
    ensures r.results == ValidateAll(sessions)
    ensures r.validCount == CountValid(r.results)
    ensures 0 <= r.validCount <= r.totalCount
    ensures r.validCount + r.invalidCount == r.totalCount
  {
    var results := ValidateAll(sessions);
    var valid := CountValid(results);
    Summary(|sessions|, valid, |sessions| - valid, results)
  }

  /** Validating a batch in two parts counts the same as validating it
      whole. */
  lemma ValidateSessionsSplits(a: seq<SessionCore>, b: seq<SessionCore>)
    ensures ValidateSessions(a + b).validCount == ValidateSessions(a).validCount + ValidateSessions(b).validCount
  {
    ValidateAllConcat(a, b);
    CountValidAppend(ValidateAll(a), ValidateAll(b));
  }
}
