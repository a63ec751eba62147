/** Times of day written as "HH:mm" text, the way sessions, work periods
    and form fields store them, and the `split(':').map(Number)` reading
    the client applies to such text. */
module Clock {
  import opened Wrappers
  import opened Text

  /** `/^\d{2}:\d{2}$/.test(s)`. */
  predicate IsHhMm(s: string) {
    |s| == 5 && IsDigit(s[0]) && IsDigit(s[1]) && s[2] == ':' && IsDigit(s[3]) && IsDigit(s[4])
  }

  /** `${pad2(h)}:${pad2(m)}`. */
  function FormatHhMm(h: int, m: int): string {
    Pad2(h) + ":" + Pad2(m)
  }

  /** `Number(parts[i])` for `parts = s.split(':')`; a part that does not
      exist is `undefined` and reads as `NaN` (`None`). */
  function TimePart(s: string, i: nat): Option<int> {
    var parts := Split(s, ':');
    if i < |parts| then JsNumber(parts[i]) else None
  }

  /** `h * 60 + m` for `const [h, m] = s.split(':').map(Number)`; `NaN`
      (`None`) as soon as either part is `NaN`. */
  function MinutesOf(s: string): Option<int> {
    var h := TimePart(s, 0);
    var m := TimePart(s, 1);
    if h.Some? && m.Some? then Some(h.value * 60 + m.value) else None
  }

  /** The hours and minutes digits of a well-formed "HH:mm". */
  function HourOf(s: string): nat
    requires IsHhMm(s)
  {
    DecimalValue(s[..2])
  }

  function MinuteOf(s: string): nat
    requires IsHhMm(s)
  {
    DecimalValue(s[3..])
  }

  lemma {:induction false} SplitOfHhMm(s: string)
    requires IsHhMm(s)
    ensures Split(s, ':') == [s[..2], s[3..]]
  {
    assert ':' in s by { assert s[2] == ':'; }
    var i := FirstIndex(s, ':');
    assert i == 2 by {
      assert s[i] == ':';
    }
    var rest := s[3..];
    assert ':' !in rest by {
      forall j | 0 <= j < |rest| ensures rest[j] != ':' { assert rest[j] == s[3 + j]; }
    }
    assert Split(rest, ':') == [rest];
  }

  lemma DigitPairsOfHhMm(s: string)
    requires IsHhMm(s)
    ensures AllDigits(s[..2]) && AllDigits(s[3..])
  {
    assert s[..2] == [s[0], s[1]];
    assert s[3..] == [s[3], s[4]];
  }

  /** Reading a well-formed "HH:mm" with `split(':').map(Number)` gives its
      two digit pairs. */
  lemma {:induction false} TimePartsOfHhMm(s: string)
    requires IsHhMm(s)
    ensures TimePart(s, 0) == Some(HourOf(s) as int)
    ensures TimePart(s, 1) == Some(MinuteOf(s) as int)
    ensures MinutesOf(s) == Some(HourOf(s) * 60 + MinuteOf(s))
  {
    SplitOfHhMm(s);
    DigitPairsOfHhMm(s);
    var hh, mm := s[..2], s[3..];
    JsNumberOfBlankOrDigits(hh);
    JsNumberOfBlankOrDigits(mm);
    assert JsNumber(hh) == Some(DecimalValue(hh) as int);
    assert JsNumber(mm) == Some(DecimalValue(mm) as int);
    assert TimePart(s, 0) == JsNumber(hh);
    assert TimePart(s, 1) == JsNumber(mm);
  }

  /** Formatting an hour and minute below 100 gives a well-formed "HH:mm"
      whose digit pairs are that hour and minute. */
  lemma FormatHhMmShape(h: int, m: int)
    requires 0 <= h < 100 && 0 <= m < 100
    ensures IsHhMm(FormatHhMm(h, m))
    ensures HourOf(FormatHhMm(h, m)) == h && MinuteOf(FormatHhMm(h, m)) == m
  {
    Pad2Exact(h);
    Pad2Exact(m);
    var hh, mm := [DigitChar(h / 10), DigitChar(h % 10)], [DigitChar(m / 10), DigitChar(m % 10)];
    var s := FormatHhMm(h, m);
    assert s == hh + ":" + mm;
    assert s[..2] == hh && s[3..] == mm;
    TwoDigitValue(h / 10, h % 10);
    TwoDigitValue(m / 10, m % 10);
  }

  /** ... and reading it back with `split(':').map(Number)` gives the
      minute of the day it stands for. */
  lemma FormatHhMmRoundTrip(h: int, m: int)
    requires 0 <= h < 100 && 0 <= m < 100
    ensures IsHhMm(FormatHhMm(h, m))
    ensures MinutesOf(FormatHhMm(h, m)) == Some(h * 60 + m)
  {
    FormatHhMmShape(h, m);
    MinutesOfDigits(FormatHhMm(h, m), h, m);
  }

  lemma MinutesOfDigits(s: string, h: int, m: int)
    requires IsHhMm(s) && HourOf(s) == h && MinuteOf(s) == m
    ensures MinutesOf(s) == Some(h * 60 + m)
  {
    TimePartsOfHhMm(s);
  }

  /** Every well-formed "HH:mm" is the formatting of its own digits. */
  lemma HhMmIsFormatted(s: string)
    requires IsHhMm(s)
    ensures FormatHhMm(HourOf(s), MinuteOf(s)) == s
  {
    Pad2OfTwoDigits(s[..2]);
    Pad2OfTwoDigits(s[3..]);
  }
}
