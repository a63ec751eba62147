/** The two session cards and the progress bar they draw: the consumer
    schedule's card (free places, fullness, occupancy bar and its colour
    variant) and the booking wizard's card (free share, bar colour, bar
    width). Percentages are exact rationals. */
module SessionCards {
  import opened Wrappers
  import opened Js
  import opened Text

  // ---------------------------------------------------------------------
  // Progress
  // ---------------------------------------------------------------------

  /** `Math.min(100, Math.max(0, value))`: the filled share of the bar. */
  function Clamp(value: real): (r: real)
    ensures 0.0 <= r <= 100.0
    ensures 0.0 <= value <= 100.0 ==> r == value
    ensures value < 0.0 ==> r == 0.0
    ensures value > 100.0 ==> r == 100.0
  {
    if value < 0.0 then 0.0 else if value > 100.0 then 100.0 else value
  }

  /** Clamping never moves a larger value below a smaller one, and a
      clamped value clamps to itself. */
  lemma ClampMonotoneIdempotent(a: real, b: real)
    ensures a <= b ==> Clamp(a) <= Clamp(b)
    ensures Clamp(Clamp(a)) == Clamp(a)
  {
  }

  // ---------------------------------------------------------------------
  // The consumer schedule's card
  // ---------------------------------------------------------------------

  /** A session as the schedule lists it; `availableSeats` may be missing. */
  datatype ScheduleSession = ScheduleSession(
    id: string, title: string, startsAt: string, durationMin: int,
    capacity: int, bookedCount: int, availableSeats: Option<int>)

  /** `session.availableSeats ?? (capacity - bookedCount)`. */
  function SeatsLeft(s: ScheduleSession): (n: int)
    ensures s.availableSeats.Some? ==> n == s.availableSeats.value
    ensures s.availableSeats.None? ==> n + s.bookedCount == s.capacity
  {
    Nullish(s.availableSeats, Some(s.capacity - s.bookedCount)).value
  }

  /** `isFull`: no free place left. */
  predicate CardFull(s: ScheduleSession) {
    SeatsLeft(s) <= 0
  }

  /** `occupancyPercent`: the taken share of the places, counting as taken
      whatever is not free; 0 for a session without places. */
  function CardOccupancy(s: ScheduleSession): (p: real)
    ensures s.capacity > 0 ==> p * (s.capacity as real) == ((s.capacity - SeatsLeft(s)) as real) * 100.0
    ensures s.capacity <= 0 ==> p == 0.0
  {
    if s.capacity > 0 then ((s.capacity - SeatsLeft(s)) as real) / (s.capacity as real) * 100.0
    else 0.0
  }

  datatype Variant = Success | Warning | Destructive

  /** `getProgressVariant`: red when full, amber when at most half the
      places are free, green otherwise. A session with no places but free
      seats divides by zero, giving an infinite ratio and green. */
  function ProgressVariant(s: ScheduleSession): (v: Variant)
    ensures v == Destructive <==> CardFull(s)
    ensures s.capacity > 0 && !CardFull(s) ==> (v == Warning <==> 2 * SeatsLeft(s) <= s.capacity)
    ensures s.capacity == 0 && !CardFull(s) ==> v == Success
    ensures s.capacity < 0 && !CardFull(s) ==> v == Warning
  {
    var seats := SeatsLeft(s);
    RatioAtMostHalf(seats, s.capacity);
    if seats <= 0 then Destructive
    else if s.capacity == 0 then Success
    else if (seats as real) / (s.capacity as real) <= 0.5 then Warning
    else Success
  }

  /** `x / c <= 0.5` for a positive divisor. */
  lemma RatioAtMostHalf(x: int, c: int)
    ensures c > 0 ==> ((x as real) / (c as real) <= 0.5 <==> 2 * x <= c)
  {
    if c > 0 {
      var q := (x as real) / (c as real);
      assert q * (c as real) == x as real;
      ScaleCompare(q, c as real, 0.5);
    }
  }

  /** For an open session with places, the bar turns amber exactly when it
      is at least half filled. */
  lemma WarningIffHalfOccupied(s: ScheduleSession)
    requires s.capacity > 0 && !CardFull(s)
    ensures ProgressVariant(s) == Warning <==> CardOccupancy(s) >= 50.0
  {
    var c := s.capacity as real;
    var k := SeatsLeft(s) as real;
    var p := CardOccupancy(s);
    assert p * c == 100.0 * c - 100.0 * k;
    ScaleCompare(50.0, c, p);
    assert 50.0 <= p <==> 2.0 * k <= c;
  }

  /** When the session's counts are consistent, the drawn bar is exactly
      the occupancy. */
  lemma BarShowsOccupancy(s: ScheduleSession)
    requires s.capacity > 0 && 0 <= SeatsLeft(s) <= s.capacity
    ensures Clamp(CardOccupancy(s)) == CardOccupancy(s)
  {
    var c := s.capacity as real;
    var p := CardOccupancy(s);
    assert p * c == ((s.capacity - SeatsLeft(s)) as real) * 100.0;
    assert p * c <= 100.0 * c;
    assert p * c >= 0.0 * c;
  }

  const NoPlacesText := "لا توجد أماكن متاحة"

  const OfText := " من "

  const AvailableText := " متاح"

  /** "<free> من <capacity> متاح": the free seats come first, where they
      read back, and after them and " من " the capacity reads back. */
  function CountsLine(free: int, capacity: int): (t: string)
    ensures ParseInt(t) == Some(free)
    ensures var k := |IntToString(free)|;
      && |t| > k + |OfText| && t[..k] == IntToString(free) && t[k..k + |OfText|] == OfText
      && ParseInt(t[k + |OfText|..]) == Some(capacity)
  {
    var tail := IntToString(capacity) + AvailableText;
    ThreePartSlices(IntToString(free), OfText, tail);
    CapacityReadsBack(capacity);
    FreeSeatsReadBack(free, tail);
    IntToString(free) + (OfText + tail)
  }

  lemma CapacityReadsBack(capacity: int)
    ensures ParseInt(IntToString(capacity) + AvailableText) == Some(capacity)
  {
    assert AvailableText[0] == ' ';
    ParseIntOfIntToStringThen(capacity, AvailableText);
  }

  lemma FreeSeatsReadBack(free: int, tail: string)
    ensures ParseInt(IntToString(free) + (OfText + tail)) == Some(free)
  {
    assert (OfText + tail)[0] == ' ';
    ParseIntOfIntToStringThen(free, OfText + tail);
  }

  /** The three parts of `a + (b + c)` are found at their offsets. */
  lemma ThreePartSlices(a: string, b: string, c: string)
    ensures var t := a + (b + c);
      && t[..|a|] == a && t[|a|..|a| + |b|] == b && t[|a| + |b|..] == c
  {
  }

  /** The availability line: a fixed message when full, otherwise
      "<free> من <capacity> متاح". */
  function AvailabilityText(s: ScheduleSession): (t: string)
    ensures CardFull(s) <==> t == NoPlacesText
    ensures !CardFull(s) ==> ParseInt(t) == Some(SeatsLeft(s))
    ensures !CardFull(s) ==> var k := |IntToString(SeatsLeft(s))|;
      && |t| > k + |OfText| && t[..k] == IntToString(SeatsLeft(s)) && t[k..k + |OfText|] == OfText
      && ParseInt(t[k + |OfText|..]) == Some(s.capacity)
  {
    if CardFull(s) then NoPlacesText
    else
      var t := CountsLine(SeatsLeft(s), s.capacity);
      assert t[0] == IntToString(SeatsLeft(s))[0];
      assert NoPlacesText[0] == 'ل';
      t
  }

  /** What a press on the card or its book button does. */
  datatype CardAction = Ignore | OpenSession | BookSession

  /** `handleCardPress`; the book button is only rendered for an open
      session, so a full session answers neither press. */
  function CardPress(s: ScheduleSession, onBookButton: bool): (a: CardAction)
    ensures a == Ignore <==> CardFull(s)
    ensures !CardFull(s) ==> (a == BookSession <==> onBookButton)
  {
    if CardFull(s) then Ignore
    else if onBookButton then BookSession
    else OpenSession
  }

  // ---------------------------------------------------------------------
  // The booking wizard's card
  // ---------------------------------------------------------------------

  /** `availablePercent`: the free share of the places; 0 without places. */
  function AvailablePercent(seats: int, capacity: int): (p: real)
    ensures capacity > 0 ==> p * (capacity as real) == (seats as real) * 100.0
    ensures capacity <= 0 ==> p == 0.0
  {
    if capacity > 0 then (seats as real) / (capacity as real) * 100.0 else 0.0
  }

  datatype BarColour = Grey | Orange | Green

  /** `getProgressColor`: grey when full or nothing is free, orange up to
      half free, green above. */
  function ProgressColour(isFull: bool, seats: int, capacity: int): (c: BarColour)
    ensures c == Grey <==> isFull || AvailablePercent(seats, capacity) == 0.0
    ensures c == Orange <==> !isFull && AvailablePercent(seats, capacity) != 0.0 && AvailablePercent(seats, capacity) <= 50.0
  {
    var p := AvailablePercent(seats, capacity);
    if isFull || p == 0.0 then Grey
    else if p <= 50.0 then Orange
    else Green
  }

  /** The bar's filled width: the taken share. It is not clamped. */
  function BarWidth(seats: int, capacity: int): (w: real)
    ensures capacity > 0 && 0 <= seats <= capacity ==> 0.0 <= w <= 100.0
    ensures capacity <= 0 ==> w == 100.0
  {
    AvailablePercentBounds(seats, capacity);
    100.0 - AvailablePercent(seats, capacity)
  }

  /** Consistent counts give a share between 0 and 100. */
  lemma AvailablePercentBounds(seats: int, capacity: int)
    ensures capacity > 0 && 0 <= seats <= capacity ==> 0.0 <= AvailablePercent(seats, capacity) <= 100.0
  {
    if capacity > 0 && 0 <= seats <= capacity {
      var p := AvailablePercent(seats, capacity);
      assert p * (capacity as real) <= 100.0 * (capacity as real);
      assert p * (capacity as real) >= 0.0 * (capacity as real);
    }
  }

  /** The wizard's card: `isFull` is `availableSeats <= 0`, and a press
      selects the session only when it is not full. */
  predicate WizardCardFull(seats: int) {
    seats <= 0
  }

  /** With the wizard's notion of full, a card with places is grey exactly
      when it has no free seat, and orange exactly when at most half its
      places are free. */
  lemma {:induction false} WizardCardColour(seats: int, capacity: int)
    requires capacity > 0
    ensures ProgressColour(WizardCardFull(seats), seats, capacity) == Grey <==> seats <= 0
    ensures ProgressColour(WizardCardFull(seats), seats, capacity) == Orange <==> 0 < seats && 2 * seats <= capacity
  {
    var c, s := capacity as real, seats as real;
    var p := AvailablePercent(seats, capacity);
    HalfShare(p, c, s);
    assert 2.0 * s <= c <==> 2 * seats <= capacity;
  }

  /** A share `p` of `c` places with `p * c == s * 100` is at most 50
      exactly when `s` is at most half of `c`, and 0 exactly when `s` is. */
  lemma HalfShare(p: real, c: real, s: real)
    requires c > 0.0 && p * c == s * 100.0
    ensures p <= 50.0 <==> 2.0 * s <= c
    ensures p == 0.0 <==> s == 0.0
  {
    ScaleCompare(p, c, 50.0);
    ScaleCompare(p, c, 0.0);
  }

  /** Comparing after scaling by a positive factor. */
  lemma ScaleCompare(p: real, c: real, k: real)
    requires c > 0.0
    ensures p <= k <==> p * c <= k * c
    ensures p == k <==> p * c == k * c
  {
    if p <= k {
      assert (k - p) * c >= 0.0;
    } else {
      assert (p - k) * c > 0.0;
    }
  }
}
