/** How Arabic text turns into the stray characters found in two of the
    client's string literals: the text is encoded as UTF-8 and the bytes
    are then read back one by one in a single-byte code page — Windows-1252
    for the dashboard's default name, ISO/IEC 8859-11 (Thai) for the work
    period card's period markers. Only the two-byte range of UTF-8
    (U+0080..U+07FF, which holds the Arabic block) is needed. */
module Mojibake {

  /** A character UTF-8 writes in two bytes. */
  predicate TwoByte(c: char) {
    0x80 <= c as int < 0x800
  }

  predicate IsArabic(c: char) {
    0x0600 <= c as int <= 0x06FF
  }

  /** The UTF-8 bytes of a two-byte character: 110xxxxx 10xxxxxx. */
  function Utf8Char(c: char): (bs: seq<int>)
    requires TwoByte(c)
    ensures |bs| == 2 && 0xC2 <= bs[0] <= 0xDF && 0x80 <= bs[1] <= 0xBF
    ensures (bs[0] - 0xC0) * 64 + (bs[1] - 0x80) == c as int
  {
    [0xC0 + (c as int) / 64, 0x80 + (c as int) % 64]
  }

  function Utf8(s: string): (bs: seq<int>)
    requires forall i | 0 <= i < |s| :: TwoByte(s[i])
    ensures |bs| == 2 * |s|
    ensures forall i | 0 <= i < |bs| :: 0x80 <= bs[i] <= 0xDF
  {
    if s == [] then [] else Utf8Char(s[0]) + Utf8(s[1..])
  }

  /** The bytes ISO/IEC 8859-11 leaves unassigned: four in the Thai block
      (0xDB..0xDE) and the four at its end (0xFC..0xFF). */
  predicate ThaiUnassigned(b: int) {
    0xDB <= b <= 0xDE || b >= 0xFC
  }

  /** A byte of ISO/IEC 8859-11 as a character: 0xA1..0xFB are the Thai
      characters from U+0E01, the rest keep their value (C1 controls
      included). */
  function ThaiChar(b: int): (c: char)
    requires 0 <= b < 0x100 && !ThaiUnassigned(b)
    ensures 0xA1 <= b ==> c as int == 0x0E01 + (b - 0xA1) && 0x0E01 <= c as int <= 0x0E5B
    ensures b < 0xA1 ==> c as int == b
  {
    if 0xA1 <= b then (0x0E01 + (b - 0xA1)) as char else b as char
  }

  /** Reading bytes that all have a character in ISO/IEC 8859-11. */
  function ReadAsThai(bs: seq<int>): (s: string)
    requires forall i | 0 <= i < |bs| :: 0 <= bs[i] < 0x100 && !ThaiUnassigned(bs[i])
    ensures |s| == |bs|
    ensures forall i | 0 <= i < |bs| :: s[i] == ThaiChar(bs[i])
  {
    if bs == [] then [] else [ThaiChar(bs[0])] + ReadAsThai(bs[1..])
  }

  /** Windows-1252's five unassigned bytes, which a reader drops. */
  predicate Cp1252Unassigned(b: int) {
    b == 0x81 || b == 0x8D || b == 0x8F || b == 0x90 || b == 0x9D
  }

  /** A byte of Windows-1252 as a character: 0x80..0x9F hold punctuation
      and a few letters, every other byte keeps its value. */
  function Cp1252Char(b: int): (c: char)
    requires 0 <= b < 0x100 && !Cp1252Unassigned(b)
    ensures !(0x80 <= b <= 0x9F) ==> c as int == b
    ensures 0x80 <= b <= 0x9F ==> c as int > 0xFF
  {
    match b
    case 0x80 => '\U{20AC}'
    case 0x82 => '\U{201A}'
    case 0x83 => '\U{0192}'
    case 0x84 => '\U{201E}'
    case 0x85 => '\U{2026}'
    case 0x86 => '\U{2020}'
    case 0x87 => '\U{2021}'
    case 0x88 => '\U{02C6}'
    case 0x89 => '\U{2030}'
    case 0x8A => '\U{0160}'
    case 0x8B => '\U{2039}'
    case 0x8C => '\U{0152}'
    case 0x8E => '\U{017D}'
    case 0x91 => '\U{2018}'
    case 0x92 => '\U{2019}'
    case 0x93 => '\U{201C}'
    case 0x94 => '\U{201D}'
    case 0x95 => '\U{2022}'
    case 0x96 => '\U{2013}'
    case 0x97 => '\U{2014}'
    case 0x98 => '\U{02DC}'
    case 0x99 => '\U{2122}'
    case 0x9A => '\U{0161}'
    case 0x9B => '\U{203A}'
    case 0x9C => '\U{0153}'
    case 0x9E => '\U{017E}'
    case 0x9F => '\U{0178}'
    case _ => b as char
  }

  function ReadAsCp1252(bs: seq<int>): (s: string)
    requires forall i | 0 <= i < |bs| :: 0 <= bs[i] < 0x100
    ensures |s| <= |bs|
  {
    if bs == [] then []
    else if Cp1252Unassigned(bs[0]) then ReadAsCp1252(bs[1..])
    else [Cp1252Char(bs[0])] + ReadAsCp1252(bs[1..])
  }

  /** Reading is byte by byte, so it works piecewise. */
  lemma {:induction false} ReadAsCp1252Concat(a: seq<int>, b: seq<int>)
    requires forall i | 0 <= i < |a| :: 0 <= a[i] < 0x100
    requires forall i | 0 <= i < |b| :: 0 <= b[i] < 0x100
    ensures ReadAsCp1252(a + b) == ReadAsCp1252(a) + ReadAsCp1252(b)
  {
    if a == [] {
      assert a + b == b;
    } else {
      assert (a + b)[1..] == a[1..] + b;
      ReadAsCp1252Concat(a[1..], b);
    }
  }
}
