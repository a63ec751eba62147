/** The consumer dashboard's greeting: the first word of the user's name
    (or the part of an email before '@'), a fixed word for a guest, and
    the avatar's initial. The source's guest word is garbled;
    `DisplayNameAsWritten` keeps it and `DisplayName` uses the intended
    word. */
module DashboardHeader {
  import opened Wrappers
  import opened Js
  import opened Text
  import opened Mojibake

  /** "ضيفة" ("guest"), the intended default. */
  const GuestName := "ضيفة"

  /** The default as it stands in the source: the UTF-8 bytes of the
      intended word read as Windows-1252, with the unassigned byte 0x81
      lost. Written here one piece per letter of the intended word. */
  const GuestNameAsWritten := "\U{00D8}\U{00B6}" + ("\U{00D9}\U{0160}" + ("\U{00D9}" + "\U{00D8}\U{00A9}"))

  /** `userName ? userName.split(' ')[0].split('@')[0] : fallback`. */
  function DisplayNameWith(userName: Option<string>, fallback: string): (r: string)
    ensures !Truthy(userName, "") ==> r == fallback
    ensures Truthy(userName, "") ==> r <= userName.value && ' ' !in r && '@' !in r
    ensures Truthy(userName, "") && ' ' !in userName.value && '@' !in userName.value ==> r == userName.value
  {
    if Truthy(userName, "") then
      var first := BeforeFirst(userName.value, ' ');
      var r := BeforeFirst(first, '@');
      assert ' ' !in r by {
        forall i | 0 <= i < |r| ensures r[i] != ' ' { assert r[i] == first[i]; }
      }
      PrefixTransitive(r, first, userName.value);
      r
    else fallback
  }

  lemma PrefixTransitive(a: string, b: string, c: string)
    requires a <= b && b <= c
    ensures a <= c
  {
    assert c[..|a|] == b[..|a|];
  }

  /** The greeting's name. */
  function DisplayName(userName: Option<string>): (r: string)
    ensures !Truthy(userName, "") ==> r == GuestName
    ensures Truthy(userName, "") ==> r <= userName.value && ' ' !in r && '@' !in r
  {
    DisplayNameWith(userName, GuestName)
  }

  /** The greeting's name as written, with the garbled default. */
  function DisplayNameAsWritten(userName: Option<string>): (r: string)
    ensures !Truthy(userName, "") ==> r == GuestNameAsWritten
    ensures Truthy(userName, "") ==> r == DisplayName(userName)
  {
    DisplayNameWith(userName, GuestNameAsWritten)
  }

  /** "first rest…" greets "first"; "local@domain" greets "local". */
  lemma {:induction false} DisplayNameOfFullName(first: string, rest: string)
    requires first != [] && ' ' !in first && '@' !in first
    ensures DisplayName(Some(first + " " + rest)) == first
    ensures DisplayName(Some(first + "@" + rest)) == first
  {
    var s := first + " " + rest;
    BeforeSeparator(first, ' ', rest);
    assert BeforeFirst(first, '@') == first;
    var e := first + "@" + rest;
    var w := BeforeFirst(e, ' ');
    AtInFirstWord(first, rest, w);
    BeforeSeparator(first, '@', w[|first| + 1..]);
  }

  /** The part before the first `c` of `a + [c] + b`, with no `c` in `a`. */
  lemma {:induction false} BeforeSeparator(a: string, c: char, b: string)
    requires c !in a
    ensures BeforeFirst(a + [c] + b, c) == a
  {
    var s := a + [c] + b;
    var r := BeforeFirst(s, c);
    assert c in s by { assert s[|a|] == c; }
    assert r <= s && c !in r && s[|r|] == c;
    assert forall k | 0 <= k < |a| :: s[k] != c by {
      forall k | 0 <= k < |a| ensures s[k] != c { assert s[k] == a[k]; }
    }
    assert forall k | 0 <= k < |r| :: s[k] != c by {
      forall k | 0 <= k < |r| ensures s[k] != c { assert s[k] == r[k]; }
    }
    assert s[|a|] == c;
    assert |r| == |a|;
    assert r == s[..|a|] == a;
  }

  /** The first word of an address without a space before its '@' still
      holds the '@'. */
  lemma {:induction false} AtInFirstWord(first: string, rest: string, w: string)
    requires ' ' !in first && '@' !in first
    requires w == BeforeFirst(first + "@" + rest, ' ')
    ensures |w| > |first| && w[..|first| + 1] == first + "@"
  {
    var e := first + "@" + rest;
    if ' ' in e {
      assert forall k | 0 <= k <= |first| :: e[k] != ' ' by {
        forall k | 0 <= k <= |first| ensures e[k] != ' ' {
          if k < |first| { assert e[k] == first[k]; } else { assert e[k] == '@'; }
        }
      }
      assert e[|w|] == ' ';
    } else {
      assert w == e;
    }
    assert w[..|first| + 1] == e[..|first| + 1];
  }

  /** `displayName.charAt(0).toUpperCase()`: empty for an empty name. */
  function Initial(displayName: string): (r: string)
    ensures |r| <= 1 && (r == [] <==> displayName == [])
    ensures r != [] && 'a' <= displayName[0] <= 'z' ==> 'A' <= r[0] <= 'Z' && ToLowerChar(r[0]) == displayName[0]
    ensures r != [] && !('a' <= displayName[0] <= 'z') ==> r[0] == displayName[0]
  {
    if displayName == [] then [] else [ToUpperChar(displayName[0])]
  }

  /** How each letter of the intended word is misread. */
  lemma MisreadDad()
    ensures ReadAsCp1252(Utf8Char(GuestName[0])) == "\U{00D8}\U{00B6}"
  {
    assert Utf8Char(GuestName[0]) == [0xD8, 0xB6];
    assert ReadAsCp1252([0xB6]) == "\U{00B6}";
  }

  lemma MisreadYa()
    ensures ReadAsCp1252(Utf8Char(GuestName[1])) == "\U{00D9}\U{0160}"
  {
    assert Utf8Char(GuestName[1]) == [0xD9, 0x8A];
    assert ReadAsCp1252([0x8A]) == "\U{0160}";
  }

  lemma MisreadFa()
    ensures ReadAsCp1252(Utf8Char(GuestName[2])) == "\U{00D9}"
  {
    assert Utf8Char(GuestName[2]) == [0xD9, 0x81];
    assert ReadAsCp1252([0x81]) == [];
  }

  lemma MisreadTaMarbuta()
    ensures ReadAsCp1252(Utf8Char(GuestName[3])) == "\U{00D8}\U{00A9}"
  {
    assert Utf8Char(GuestName[3]) == [0xD8, 0xA9];
    assert ReadAsCp1252([0xA9]) == "\U{00A9}";
  }

  /** The word's bytes, letter by letter. */
  lemma GuestNameBytes()
    ensures Utf8(GuestName) == Utf8Char(GuestName[0]) + (Utf8Char(GuestName[1])
      + (Utf8Char(GuestName[2]) + Utf8Char(GuestName[3])))
  {
    var g := GuestName;
    assert Utf8(g[3..]) == Utf8Char(g[3]) by { assert g[3..][1..] == []; }
    assert Utf8(g[2..]) == Utf8Char(g[2]) + Utf8Char(g[3]) by { assert g[2..][1..] == g[3..]; }
    assert Utf8(g[1..]) == Utf8Char(g[1]) + (Utf8Char(g[2]) + Utf8Char(g[3])) by { assert g[1..][1..] == g[2..]; }
  }

  /** The garbled default is exactly the misread guest word. */
  lemma GuestNameMisread()
    ensures ReadAsCp1252(Utf8(GuestName)) == GuestNameAsWritten
  {
    var g := GuestName;
    var a, b, c, d := Utf8Char(g[0]), Utf8Char(g[1]), Utf8Char(g[2]), Utf8Char(g[3]);
    GuestNameBytes();
    ReadAsCp1252Concat(c, d);
    ReadAsCp1252Concat(b, c + d);
    ReadAsCp1252Concat(a, b + (c + d));
    MisreadDad();
    MisreadYa();
    MisreadFa();
    MisreadTaMarbuta();
  }

  /** The garbled default is the misread guest word, and its avatar shows
      a Latin letter instead of an Arabic one. */
  lemma GuestNameGarbled()
    ensures ReadAsCp1252(Utf8(GuestName)) == GuestNameAsWritten
    ensures Initial(DisplayNameAsWritten(None)) == "\U{00D8}"
    ensures !IsArabic(Initial(DisplayNameAsWritten(None))[0])
  {
    GuestNameMisread();
    assert GuestNameAsWritten[0] == '\U{00D8}';
  }

  /** With the intended default, a guest is greeted with an Arabic word
      and an Arabic initial. */
  lemma GuestGreeting()
    ensures DisplayName(None) == GuestName
    ensures forall i | 0 <= i < |GuestName| :: IsArabic(GuestName[i])
    ensures Initial(DisplayName(None)) == "ض" && IsArabic(Initial(DisplayName(None))[0])
  {
  }
}
