/** The shared session contract of the consumer and admin sides: weekday
    ids, session types and their Arabic labels, the normalised session
    record and the availability figures derived from it. */
module ScheduleCore {
  import opened Wrappers

  datatype WeekdayId = Sunday | Monday | Tuesday | Wednesday | Thursday | Friday | Saturday

  /** `WEEKDAY_ORDER`: Sunday first, as `Date.getDay()` counts. */
  const WeekdayOrder: seq<WeekdayId> :=
    [Sunday, Monday, Tuesday, Wednesday, Thursday, Friday, Saturday]

  /** The week order lists every weekday exactly once, Sunday first. */
  lemma WeekdayOrderIsPermutation(w: WeekdayId)
    ensures |WeekdayOrder| == 7 && WeekdayOrder[0] == Sunday
    ensures w in WeekdayOrder
    ensures forall i, j | 0 <= i < j < 7 :: WeekdayOrder[i] != WeekdayOrder[j]
  {
  }

  datatype SessionType = PilatesReformer | PilatesMat | Strength | Yoga | Other

  /** The stable key a session type is stored under. */
  function TypeKey(t: SessionType): string {
    match t
    case PilatesReformer => "pilates_reformer"
    case PilatesMat => "pilates_mat"
    case Strength => "strength"
    case Yoga => "yoga"
    case Other => "other"
  }

  /** `SESSION_TYPE_LABELS`. */
  function TypeLabel(t: SessionType): string {
    match t
    case PilatesReformer => "بيلاتس أجهزة"
    case PilatesMat => "بيلاتس مات"
    case Strength => "تمارين القوة"
    case Yoga => "يوغا صباحية"
    case Other => "أخرى"
  }

  /** `SESSION_TYPE_FROM_ARABIC[title]`: the reverse table, which also
      accepts three shortened titles. */
  function TypeFromArabic(title: string): Option<SessionType> {
    if title == "بيلاتس أجهزة" then Some(PilatesReformer)
    else if title == "بيلاتس مات" then Some(PilatesMat)
    else if title == "تمارين القوة" then Some(Strength)
    else if title == "يوغا صباحية" then Some(Yoga)
    else if title == "يوغا" then Some(Yoga)
    else if title == "بيلاتس" then Some(PilatesReformer)
    else if title == "تمارين" then Some(Strength)
    else None
  }

  /** Looking up a type's own label gives the type back, except for
      'other', whose label the reverse table does not list. */
  lemma TypeLabelRoundTrip(t: SessionType)
    ensures t != Other ==> TypeFromArabic(TypeLabel(t)) == Some(t)
    ensures t == Other ==> TypeFromArabic(TypeLabel(t)) == None
  {
  }

  /** Distinct types have distinct keys. */
  lemma TypeKeyInjective(a: SessionType, b: SessionType)
    ensures TypeKey(a) == TypeKey(b) ==> a == b
  {
  }

  /** `SessionCore`. The weekday is `None` when the start date did not
      parse (`WEEKDAY_ORDER[NaN]` is `undefined`); the type is the raw key
      because the mapper casts an API-supplied string without checking it. */
  datatype SessionCore = SessionCore(
    id: string,
    weekday: Option<WeekdayId>,
    dateIso: Option<string>,
    startTime: string,
    endTime: string,
    typeKey: string,
    titleAr: string,
    instructorName: Option<string>,
    locationName: Option<string>,
    capacityTotal: int,
    occupiedCount: int,
    status: Option<string>)

  /** `getAvailableSeats`: free places, never negative. */
  function AvailableSeats(s: SessionCore): (n: int)
    ensures n >= 0
    ensures s.occupiedCount <= s.capacityTotal ==> n == s.capacityTotal - s.occupiedCount
    ensures s.occupiedCount >= s.capacityTotal ==> n == 0
  {
    if s.capacityTotal - s.occupiedCount > 0 then s.capacityTotal - s.occupiedCount else 0
  }

  /** `isFull`. */
  predicate IsFull(s: SessionCore) {
    s.occupiedCount >= s.capacityTotal
  }

  /** A session is full exactly when it has no free place. */
  lemma IsFullIffNoSeats(s: SessionCore)
    ensures IsFull(s) <==> AvailableSeats(s) == 0
  {
  }

  const FullText := "ممتلئ"
  const AvailableText := "متاح"

  datatype Badge = Badge(text: string, isFull: bool)

  /** `getAvailabilityBadge`. */
  function AvailabilityBadge(s: SessionCore): (b: Badge)
    ensures b.isFull == IsFull(s)
    ensures b.text == FullText <==> IsFull(s)
    ensures b.text == AvailableText <==> AvailableSeats(s) > 0
  {
    var full := IsFull(s);
    Badge(if full then FullText else AvailableText, full)
  }

  /** `getOccupancyPercent`, as an exact rational. */
  function OccupancyPercent(s: SessionCore): (p: real)
    ensures p <= 100.0
    ensures s.capacityTotal <= 0 ==> p == 0.0
    ensures s.occupiedCount >= 0 ==> p >= 0.0
    ensures s.capacityTotal > 0 && s.occupiedCount <= s.capacityTotal ==>
      p * (s.capacityTotal as real) == (s.occupiedCount as real) * 100.0
    ensures s.capacityTotal > 0 && s.occupiedCount >= s.capacityTotal ==> p == 100.0
  {
    if s.capacityTotal <= 0 then 0.0
    else
      var ratio := (s.occupiedCount as real) / (s.capacityTotal as real) * 100.0;
      if ratio < 100.0 then ratio else 100.0
  }
}
