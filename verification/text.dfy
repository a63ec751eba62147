/** The JavaScript string and number primitives the client relies on:
    `toString`, `padStart`, `Number`, `parseInt`, `trim`, `split`,
    `includes`, `replace(/\D/g, '')`, ASCII case mapping and the
    code-unit order used by `<` on strings. */
module Text {
  import opened Wrappers

  // ---------------------------------------------------------------------
  // Digits and decimal rendering
  // ---------------------------------------------------------------------

  /** `\d` in a JavaScript regular expression: ASCII digits only. */
  predicate IsDigit(c: char) {
    '0' <= c <= '9'
  }

  predicate AllDigits(s: string) {
    forall i | 0 <= i < |s| :: IsDigit(s[i])
  }

  function DigitChar(d: nat): (c: char)
    requires d < 10
    ensures IsDigit(c)
  {
    (('0' as int) + d) as char
  }

  function DigitValue(c: char): (d: nat)
    requires IsDigit(c)
    ensures d < 10 && DigitChar(d) == c
  {
    (c as int) - ('0' as int)
  }

  /** `n.toString()` for a non-negative integer. */
  function NatToString(n: nat): (s: string)
    ensures |s| >= 1 && AllDigits(s)
    ensures n < 10 <==> |s| == 1
    ensures n < 100 ==> |s| <= 2
  {
    if n < 10 then [DigitChar(n)] else NatToString(n / 10) + [DigitChar(n % 10)]
  }

  /** The value of a string of decimal digits (most significant first). */
  function DecimalValue(s: string): nat
    requires AllDigits(s)
  {
    if s == [] then 0 else 10 * DecimalValue(s[..|s| - 1]) + DigitValue(s[|s| - 1])
  }

  /** Rendering a number and reading it back gives the number. */
  lemma {:induction false} DecimalValueOfNatToString(n: nat)
    ensures DecimalValue(NatToString(n)) == n
  {
    if n >= 10 {
      var s := NatToString(n / 10);
      DecimalValueOfNatToString(n / 10);
      assert (s + [DigitChar(n % 10)])[..|s|] == s;
    }
  }

  /** `n.toString()` for any integer. */
  function IntToString(n: int): (s: string)
    ensures |s| >= 1
    ensures n >= 0 ==> AllDigits(s) && DecimalValue(s) == n
    ensures n < 0 ==> s[0] == '-' && AllDigits(s[1..]) && DecimalValue(s[1..]) == -n
  {
    DecimalValueOfNatToString(if n < 0 then -n else n);
    if n < 0 then "-" + NatToString(-n) else NatToString(n)
  }

  /** `s.padStart(2, '0')`. */
  function PadStart2(s: string): (r: string)
    ensures |r| == if |s| >= 2 then |s| else 2
    ensures forall i | 0 <= i < |s| :: r[|r| - |s| + i] == s[i]
    ensures forall i | 0 <= i < |r| - |s| :: r[i] == '0'
    ensures |s| >= 2 ==> r == s
  {
    if |s| >= 2 then s else if |s| == 1 then "0" + s else "00"
  }

  /** Padding at most two digits gives exactly two digits. */
  lemma PadStart2Digits(s: string)
    requires |s| <= 2 && AllDigits(s)
    ensures |PadStart2(s)| == 2 && IsDigit(PadStart2(s)[0]) && IsDigit(PadStart2(s)[1])
  {
    var r := PadStart2(s);
    if |s| >= 1 { assert r[1] == s[|s| - 1]; }
  }

  /** `n.toString().padStart(2, '0')`, the way hours and minutes are shown. */
  function Pad2(n: int): string {
    PadStart2(IntToString(n))
  }

  /** A number below 100 padded to two places: its tens digit, then its
      units digit. */
  lemma Pad2Exact(n: int)
    requires 0 <= n < 100
    ensures Pad2(n) == [DigitChar(n / 10), DigitChar(n % 10)]
  {
    if n < 10 {
      assert IntToString(n) == [DigitChar(n)];
    } else {
      assert NatToString(n / 10) == [DigitChar(n / 10)];
      assert IntToString(n) == [DigitChar(n / 10), DigitChar(n % 10)];
    }
  }

  /** Two digits read as a number. */
  lemma TwoDigitValue(a: nat, b: nat)
    requires a < 10 && b < 10
    ensures AllDigits([DigitChar(a), DigitChar(b)])
    ensures DecimalValue([DigitChar(a), DigitChar(b)]) == 10 * a + b
  {
    var s := [DigitChar(a), DigitChar(b)];
    assert DigitValue(DigitChar(a)) == a && DigitValue(DigitChar(b)) == b;
    assert s[..1] == [DigitChar(a)];
    assert DecimalValue(s[..1]) == a by { assert s[..1][..0] == []; }
  }

  lemma TensAndUnits(a: nat, b: nat)
    requires a < 10 && b < 10
    ensures (10 * a + b) / 10 == a && (10 * a + b) % 10 == b
  {
  }

  /** A number below 100 is shown as exactly two digits that read back as it. */
  lemma Pad2Digits(n: int)
    requires 0 <= n < 100
    ensures |Pad2(n)| == 2 && AllDigits(Pad2(n)) && DecimalValue(Pad2(n)) == n
  {
    Pad2Exact(n);
    TwoDigitValue(n / 10, n % 10);
  }

  /** Two digits read as a number and padded back give the same two digits. */
  lemma Pad2OfTwoDigits(s: string)
    requires |s| == 2 && AllDigits(s)
    ensures Pad2(DecimalValue(s)) == s
  {
    var a, b := DigitValue(s[0]), DigitValue(s[1]);
    assert s == [DigitChar(a), DigitChar(b)];
    TwoDigitValue(a, b);
    TensAndUnits(a, b);
    Pad2Exact(10 * a + b);
  }

  // ---------------------------------------------------------------------
  // White space and trimming
  // ---------------------------------------------------------------------

  /** JavaScript's `\s` and the characters `trim()` removes: WhiteSpace
      and LineTerminator of the ECMAScript grammar. */
  predicate IsJsSpace(c: char) {
    var k := c as int;
    k == 0x09 || k == 0x0A || k == 0x0B || k == 0x0C || k == 0x0D || k == 0x20
    || k == 0xA0 || k == 0x1680 || (0x2000 <= k <= 0x200A) || k == 0x2028 || k == 0x2029
    || k == 0x202F || k == 0x205F || k == 0x3000 || k == 0xFEFF
  }

  predicate IsBlank(s: string) {
    forall i | 0 <= i < |s| :: IsJsSpace(s[i])
  }

  function TrimStart(s: string): string {
    if s == [] || !IsJsSpace(s[0]) then s else TrimStart(s[1..])
  }

  /** `TrimStart` drops exactly the white space at the front. */
  lemma {:induction false} TrimStartSpec(s: string)
    ensures |TrimStart(s)| <= |s| && TrimStart(s) == s[|s| - |TrimStart(s)|..]
    ensures TrimStart(s) == [] || !IsJsSpace(TrimStart(s)[0])
    ensures IsBlank(s[..|s| - |TrimStart(s)|])
    ensures s != [] && !IsJsSpace(s[0]) ==> TrimStart(s) == s
    decreases |s|
  {
    if s != [] && IsJsSpace(s[0]) {
      var r := TrimStart(s[1..]);
      TrimStartSpec(s[1..]);
      assert TrimStart(s) == r;
      var k := |s| - |r|;
      assert s[1..][..k - 1] == s[1..k] && s[1..][k - 1..] == s[k..];
      assert s[..k] == [s[0]] + s[1..k];
      BlankConcat([s[0]], s[1..k]);
    } else {
      assert TrimStart(s) == s;
    }
  }

  function TrimEnd(s: string): string {
    if s == [] || !IsJsSpace(s[|s| - 1]) then s else TrimEnd(s[..|s| - 1])
  }

  /** `TrimEnd` drops exactly the white space at the back. */
  lemma {:induction false} TrimEndSpec(s: string)
    ensures |TrimEnd(s)| <= |s| && TrimEnd(s) == s[..|TrimEnd(s)|]
    ensures TrimEnd(s) == [] || !IsJsSpace(TrimEnd(s)[|TrimEnd(s)| - 1])
    ensures IsBlank(s[|TrimEnd(s)|..])
    ensures s != [] && !IsJsSpace(s[|s| - 1]) ==> TrimEnd(s) == s
    decreases |s|
  {
    if s != [] && IsJsSpace(s[|s| - 1]) {
      var p := s[..|s| - 1];
      var r := TrimEnd(p);
      TrimEndSpec(p);
      assert s[|r|..] == p[|r|..] + [s[|s| - 1]];
      BlankConcat(p[|r|..], [s[|s| - 1]]);
    }
  }

  /** `s.trim()`. */
  function Trim(s: string): string {
    TrimEnd(TrimStart(s))
  }

  /** What `trim()` leaves: no white space at either end, and a string
      without white space at its ends unchanged. */
  lemma TrimSpec(s: string)
    ensures |Trim(s)| <= |s|
    ensures Trim(s) == [] || (!IsJsSpace(Trim(s)[0]) && !IsJsSpace(Trim(s)[|Trim(s)| - 1]))
    ensures (s == [] || (!IsJsSpace(s[0]) && !IsJsSpace(s[|s| - 1]))) ==> Trim(s) == s
  {
    var a := TrimStart(s);
    TrimStartSpec(s);
    TrimEndSpec(a);
    var r := TrimEnd(a);
    if r != [] {
      assert r[0] == a[0];
    }
    if s != [] && !IsJsSpace(s[0]) && !IsJsSpace(s[|s| - 1]) {
      assert a == s;
    }
  }

  /** Trimming leaves nothing exactly when the string is all white space. */
  lemma {:induction false} TrimEmptyIffBlank(s: string)
    ensures Trim(s) == [] <==> IsBlank(s)
  {
    var a := TrimStart(s);
    var r := TrimEnd(a);
    TrimStartSpec(s);
    TrimEndSpec(a);
    assert Trim(s) == r;
    var k := |s| - |a|;
    assert a == s[k..];
    if r == [] {
      assert IsBlank(a) by { assert a[|r|..] == a; }
      assert IsBlank(s[..k]);
      BlankConcat(s[..k], a);
      assert s == s[..k] + a;
    } else {
      assert r == a[..|r|];
      assert !IsJsSpace(r[0]);
      assert s[k] == r[0];
    }
  }

  lemma {:induction false} BlankConcat(x: string, y: string)
    requires IsBlank(x) && IsBlank(y)
    ensures IsBlank(x + y)
  {
    forall i | 0 <= i < |x + y| ensures IsJsSpace((x + y)[i]) {
      if i < |x| { assert (x + y)[i] == x[i]; } else { assert (x + y)[i] == y[i - |x|]; }
    }
  }

  /** Trimming is idempotent. */
  lemma TrimIdempotent(s: string)
    ensures Trim(Trim(s)) == Trim(s)
  {
    TrimSpec(s);
    TrimSpec(Trim(s));
  }

  /** `s.replace(/\s+/g, '')`: every white-space character removed. */
  function RemoveSpaces(s: string): (r: string)
    ensures |r| <= |s|
    ensures forall i | 0 <= i < |r| :: !IsJsSpace(r[i])
    ensures (forall i | 0 <= i < |s| :: !IsJsSpace(s[i])) ==> r == s
  {
    if s == [] then []
    else if IsJsSpace(s[0]) then RemoveSpaces(s[1..])
    else [s[0]] + RemoveSpaces(s[1..])
  }

  /** `s.replace(/\D/g, '')`: the digits of `s`, in order. */
  function KeepDigits(s: string): (r: string)
    ensures |r| <= |s| && AllDigits(r)
    ensures AllDigits(s) ==> r == s
  {
    if s == [] then []
    else if IsDigit(s[0]) then [s[0]] + KeepDigits(s[1..])
    else KeepDigits(s[1..])
  }

  /** Keeping digits works piecewise. */
  lemma {:induction false} KeepDigitsConcat(a: string, b: string)
    ensures KeepDigits(a + b) == KeepDigits(a) + KeepDigits(b)
  {
    if a == [] {
      assert a + b == b;
    } else {
      assert (a + b)[1..] == a[1..] + b;
      KeepDigitsConcat(a[1..], b);
    }
  }

  // ---------------------------------------------------------------------
  // Number(...) and parseInt(..., 10)
  // ---------------------------------------------------------------------

  /** `Number(s)` on the inputs this client gives it (time parts, ages,
      weights): surrounding white space is ignored, the empty string is 0,
      an optional sign followed by ASCII digits is that integer, and
      anything else is `NaN` (`None`). */
  function JsNumber(s: string): Option<int> {
    var t := Trim(s);
    if t == [] then Some(0)
    else if AllDigits(t) then Some(DecimalValue(t))
    else if |t| >= 2 && (t[0] == '-' || t[0] == '+') && AllDigits(t[1..]) then
      Some(if t[0] == '-' then -(DecimalValue(t[1..]) as int) else DecimalValue(t[1..]))
    else None
  }

  /** `Number` of white space alone is 0, and of plain digits their value. */
  lemma JsNumberOfBlankOrDigits(s: string)
    ensures IsBlank(s) ==> JsNumber(s) == Some(0)
    ensures AllDigits(s) ==> JsNumber(s) == Some(DecimalValue(s))
  {
    TrimEmptyIffBlank(s);
    TrimSpec(s);
    if AllDigits(s) && s != [] {
      assert IsDigit(s[0]) && IsDigit(s[|s| - 1]);
    }
  }

  /** The longest prefix of `s` made of digits. */
  function DigitPrefix(s: string): (r: string)
    ensures r <= s && AllDigits(r)
    ensures |r| == |s| || !IsDigit(s[|r|])
    ensures AllDigits(s) ==> r == s
  {
    if s == [] || !IsDigit(s[0]) then [] else [s[0]] + DigitPrefix(s[1..])
  }

  /** `parseInt(s, 10)`: leading white space, an optional sign, then the
      longest run of digits; `NaN` (`None`) when there is no digit. */
  function ParseInt(s: string): (r: Option<int>)
    ensures AllDigits(s) && s != [] ==> r == Some(DecimalValue(s))
  {
    var t := TrimStart(s);
    var negative := |t| > 0 && t[0] == '-';
    var rest := if |t| > 0 && (t[0] == '-' || t[0] == '+') then t[1..] else t;
    var digits := DigitPrefix(rest);
    if digits == [] then None
    else Some(if negative then -(DecimalValue(digits) as int) else DecimalValue(digits))
  }

  /** `parseInt(String(n), 10) == n`: an integer survives a trip through
      its decimal text. */
  lemma ParseIntOfIntToString(n: int)
    ensures ParseInt(IntToString(n)) == Some(n)
  {
    var s := IntToString(n);
    assert TrimStart(s) == s;
    if n < 0 {
      assert DigitPrefix(s[1..]) == s[1..];
    } else {
      assert !IsJsSpace(s[0]) && s[0] != '-' && s[0] != '+';
      assert DigitPrefix(s) == s;
    }
  }

  /** The digit run of digits followed by a non-digit is those digits. */
  lemma {:induction false} DigitPrefixOfDigitsThen(d: string, rest: string)
    requires AllDigits(d)
    requires rest == [] || !IsDigit(rest[0])
    ensures DigitPrefix(d + rest) == d
  {
    if d == [] {
      assert d + rest == rest;
    } else {
      assert (d + rest)[1..] == d[1..] + rest;
      DigitPrefixOfDigitsThen(d[1..], rest);
    }
  }

  /** A printed integer followed by text that does not start with a digit
      reads back with `parseInt` as that integer: the number shown at the
      head of a message is the one printed there. */
  lemma ParseIntOfIntToStringThen(n: int, rest: string)
    requires rest == [] || !IsDigit(rest[0])
    ensures ParseInt(IntToString(n) + rest) == Some(n)
  {
    var d := IntToString(n);
    if n < 0 {
      assert d[1..] != [];
      ParseIntOfMinusDigitsThen(d, rest);
    } else {
      ParseIntOfDigitsThen(d, rest);
    }
  }

  /** `parseInt` of a digit run followed by a non-digit. */
  lemma ParseIntOfDigitsThen(d: string, rest: string)
    requires d != [] && AllDigits(d)
    requires rest == [] || !IsDigit(rest[0])
    ensures ParseInt(d + rest) == Some(DecimalValue(d))
  {
    var s := d + rest;
    assert s[0] == d[0];
    DigitPrefixOfDigitsThen(d, rest);
    ParseIntOfUnsigned(s);
  }

  /** `parseInt` of a minus sign and a digit run, followed by a non-digit. */
  lemma ParseIntOfMinusDigitsThen(d: string, rest: string)
    requires |d| > 1 && d[0] == '-' && AllDigits(d[1..])
    requires rest == [] || !IsDigit(rest[0])
    ensures ParseInt(d + rest) == Some(-(DecimalValue(d[1..]) as int))
  {
    var s := d + rest;
    assert s[1..] == d[1..] + rest;
    assert s[0] == '-' && s[1] == d[1];
    DigitPrefixOfDigitsThen(d[1..], rest);
    ParseIntOfMinus(s);
  }

  /** `parseInt` of text that starts with a digit reads its digit run. */
  lemma ParseIntOfUnsigned(u: string)
    requires u != [] && IsDigit(u[0])
    ensures ParseInt(u) == Some(DecimalValue(DigitPrefix(u)))
  {
    assert !IsJsSpace(u[0]);
  }

  /** `parseInt` of a minus sign and then a digit run negates the run. */
  lemma ParseIntOfMinus(s: string)
    requires |s| > 1 && s[0] == '-' && IsDigit(s[1])
    ensures ParseInt(s) == Some(-(DecimalValue(DigitPrefix(s[1..])) as int))
  {
    assert !IsJsSpace(s[0]);
  }

  // ---------------------------------------------------------------------
  // Searching and splitting
  // ---------------------------------------------------------------------

  /** `s.includes(k)`. */
  predicate Contains(s: string, k: string) {
    exists i | 0 <= i <= |s| - |k| :: OccursAt(s, k, i)
  }

  predicate OccursAt(s: string, k: string, i: int) {
    0 <= i <= |s| - |k| && s[i..i + |k|] == k
  }

  /** Index of the first occurrence of `c` in `s`. */
  function FirstIndex(s: string, c: char): (i: nat)
    requires c in s
    ensures i < |s| && s[i] == c && c !in s[..i]
  {
    if s[0] == c then 0 else 1 + FirstIndex(s[1..], c)
  }

  /** `s.split(sep)` for a one-character separator. */
  function Split(s: string, sep: char): (parts: seq<string>)
    ensures |parts| >= 1
    ensures forall i | 0 <= i < |parts| :: sep !in parts[i]
    decreases |s|
  {
    if sep !in s then [s]
    else
      var i := FirstIndex(s, sep);
      [s[..i]] + Split(s[i + 1..], sep)
  }

  /** `parts.join(sep)`. */
  function Join(parts: seq<string>, sep: char): string
    requires |parts| >= 1
  {
    if |parts| == 1 then parts[0] else parts[0] + [sep] + Join(parts[1..], sep)
  }

  /** Splitting and joining back with the same separator gives the input. */
  lemma {:induction false} JoinSplit(s: string, sep: char)
    ensures Join(Split(s, sep), sep) == s
    decreases |s|
  {
    var parts := Split(s, sep);
    if sep in s {
      var i := FirstIndex(s, sep);
      var head, rest := s[..i], s[i + 1..];
      var tail := Split(rest, sep);
      assert parts == [head] + tail;
      JoinSplit(rest, sep);
      JoinCons(head, tail, sep);
      assert s == head + [sep] + rest by { assert s[i] == sep; }
    } else {
      assert parts == [s];
    }
  }

  lemma JoinCons(head: string, tail: seq<string>, sep: char)
    requires |tail| >= 1
    ensures Join([head] + tail, sep) == head + [sep] + Join(tail, sep)
  {
    assert ([head] + tail)[1..] == tail;
  }

  /** `s.split(c)[0]`: the part of `s` before the first `c`. */
  function BeforeFirst(s: string, c: char): (r: string)
    ensures r <= s && c !in r
    ensures c !in s ==> r == s
    ensures c in s ==> |r| < |s| && s[|r|] == c
  {
    Split(s, c)[0]
  }

  // ---------------------------------------------------------------------
  // Case mapping and ordering
  // ---------------------------------------------------------------------

  function ToLowerChar(c: char): (r: char)
    ensures !('A' <= c <= 'Z') ==> r == c
  {
    if 'A' <= c <= 'Z' then (c as int + 32) as char else c
  }

  function ToUpperChar(c: char): (r: char)
    ensures !('a' <= c <= 'z') ==> r == c
    ensures 'a' <= c <= 'z' ==> 'A' <= r <= 'Z' && ToLowerChar(r) == c
  {
    if 'a' <= c <= 'z' then (c as int - 32) as char else c
  }

  /** `s.toLowerCase()`, for the ASCII letters. */
  function ToLower(s: string): (r: string)
    ensures |r| == |s|
    ensures forall i | 0 <= i < |s| :: r[i] == ToLowerChar(s[i])
  {
    if s == [] then [] else [ToLowerChar(s[0])] + ToLower(s[1..])
  }

  /** `a < b` on JavaScript strings: lexicographic order of the characters. */
  predicate LexLess(a: string, b: string) {
    if a == [] then b != []
    else if b == [] then false
    else if a[0] != b[0] then a[0] < b[0]
    else LexLess(a[1..], b[1..])
  }

  lemma {:induction false} LexLessIrreflexive(a: string)
    ensures !LexLess(a, a)
  {
    if a != [] { LexLessIrreflexive(a[1..]); }
  }

  lemma {:induction false} LexLessTransitive(a: string, b: string, c: string)
    requires LexLess(a, b) && LexLess(b, c)
    ensures LexLess(a, c)
  {
    if a != [] && b != [] && c != [] && a[0] == b[0] && b[0] == c[0] {
      LexLessTransitive(a[1..], b[1..], c[1..]);
    }
  }

  lemma {:induction false} LexLessTotal(a: string, b: string)
    ensures a == b || LexLess(a, b) || LexLess(b, a)
  {
    if a != [] && b != [] && a[0] == b[0] {
      LexLessTotal(a[1..], b[1..]);
      if a[1..] == b[1..] { assert a == [a[0]] + a[1..] && b == [b[0]] + b[1..]; }
    }
  }

  lemma {:induction false} LexLessAsymmetric(a: string, b: string)
    requires LexLess(a, b)
    ensures !LexLess(b, a)
  {
    if a != [] && b != [] && a[0] == b[0] { LexLessAsymmetric(a[1..], b[1..]); }
  }
}
