/** `Date.UTC(year, month, day)` at midnight, following the MakeDay and
    DayFromYear operations of ECMA-262: the month may lie outside 0..11
    and the day outside the month, and both carry over. Results are day
    numbers since 1970-01-01 (multiply by a day's milliseconds for the
    time value). */
module UtcDate {
  import opened Js

  /** The Gregorian leap-year rule. */
  predicate IsLeap(y: int) {
    y % 4 == 0 && (y % 100 != 0 || y % 400 == 0)
  }

  function DaysInYear(y: int): int {
    if IsLeap(y) then 366 else 365
  }

  /** DayFromYear: the day number of 1 January of `y`. */
  function DayFromYear(y: int): int {
    365 * (y - 1970) + (y - 1969) / 4 - (y - 1901) / 100 + (y - 1601) / 400
  }

  /** The length of month `m` (0 = January) of year `y`. */
  function DaysInMonth(y: int, m: int): (n: int)
    requires 0 <= m < 12
    ensures 28 <= n <= 31
  {
    if m == 1 then (if IsLeap(y) then 29 else 28)
    else if m == 3 || m == 5 || m == 8 || m == 10 then 30
    else 31
  }

  /** Days of year `y` before the first of month `m`. */
  function DaysBeforeMonth(y: int, m: int): (n: int)
    requires 0 <= m < 12
    ensures m > 0 ==> n == DaysBeforeMonth(y, m - 1) + DaysInMonth(y, m - 1)
  {
    [0, 31, 59, 90, 120, 151, 181, 212, 243, 273, 304, 334][m] + (if m >= 2 && IsLeap(y) then 1 else 0)
  }

  /** MakeDay(year, month, date): the day number of that date, with the
      month folded into the year first. */
  function MakeDay(year: int, month: int, date: int): int {
    var ym := year + month / 12;
    var mn := month % 12;
    DayFromYear(ym) + DaysBeforeMonth(ym, mn) + date - 1
  }

  /** `(a + 1) / k` is `a / k`, plus one exactly when `a + 1` is a multiple
      of `k`. */
  lemma FloorStep(a: int, k: int)
    requires k > 0
    ensures (a + 1) / k == a / k + (if (a + 1) % k == 0 then 1 else 0)
  {
    var q, r := a / k, a % k;
    if r == k - 1 {
      UniqueDivMod(a + 1, k, q + 1, 0);
    } else {
      UniqueDivMod(a + 1, k, q, r + 1);
    }
  }

  /** Shifting by a multiple of `k` keeps the remainder. */
  lemma ModShift(a: int, k: int, n: int)
    requires k > 0
    ensures (a + k * n) % k == a % k
  {
    UniqueDivMod(a + k * n, k, a / k + n, a % k);
  }

  /** Consecutive New Year's days are a year's length apart. */
  lemma DayFromNextYear(y: int)
    ensures DayFromYear(y + 1) - DayFromYear(y) == DaysInYear(y)
  {
    FloorStep(y - 1969, 4);
    FloorStep(y - 1901, 100);
    FloorStep(y - 1601, 400);
    ModShift(y, 4, -492);
    ModShift(y, 100, -19);
    ModShift(y, 400, -4);
  }

  /** The first of the next month is the month's length after the first of
      this one, across a year's end as well. */
  lemma {:induction false} NextMonthStart(year: int, month: int)
    ensures MakeDay(year, month + 1, 1) - MakeDay(year, month, 1)
         == DaysInMonth(year + month / 12, month % 12)
  {
    var q, r := month / 12, month % 12;
    if r == 11 {
      UniqueDivMod(month + 1, 12, q + 1, 0);
      DayFromNextYear(year + q);
    } else {
      UniqueDivMod(month + 1, 12, q, r + 1);
    }
  }

  /** Days carry over: day `d` of a month lies `d - 1` days after its first. */
  lemma DayOffset(year: int, month: int, date: int)
    ensures MakeDay(year, month, date) == MakeDay(year, month, 1) + date - 1
  {
  }
}
