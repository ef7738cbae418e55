/** Unpadded base64 over either alphabet (sections 4 and 5 of RFC 4648) and base16, as Go's decoders read them. */
module Base64 {
  import opened Common

  type Byte = b: int | 0 <= b < 256
  type Sextet = v: int | 0 <= v < 64

  datatype Alphabet = Url | Std

  // ---- sextets ----

  function FirstSextet(a: Byte): Sextet { a / 4 }

  function SecondSextet(a: Byte, b: Byte): Sextet { a % 4 * 16 + b / 16 }

  function ThirdSextet(b: Byte, c: Byte): Sextet { b % 16 * 4 + c / 64 }

  function FourthSextet(c: Byte): Sextet { c % 64 }

  /** A short last group is filled up with zero bits. */
  function ToSextets(bs: seq<Byte>): seq<Sextet> {
    if |bs| == 0 then []
    else if |bs| == 1 then [FirstSextet(bs[0]), SecondSextet(bs[0], 0)]
    else if |bs| == 2 then [FirstSextet(bs[0]), SecondSextet(bs[0], bs[1]), ThirdSextet(bs[1], 0)]
    else [FirstSextet(bs[0]), SecondSextet(bs[0], bs[1]), ThirdSextet(bs[1], bs[2]), FourthSextet(bs[2])] + ToSextets(bs[3..])
  }

  function FirstByte(v: int, w: int): Byte
    requires 0 <= v < 64 && 0 <= w < 64
  {
    v * 4 + w / 16
  }

  function SecondByte(v: int, w: int): Byte
    requires 0 <= v < 64 && 0 <= w < 64
  {
    v % 16 * 16 + w / 4
  }

  function ThirdByte(v: int, w: int): Byte
    requires 0 <= v < 64 && 0 <= w < 64
  {
    v % 4 * 64 + w
  }

  /** A lone sextet is no byte; the unused low bits of a short last group are ignored. */
  function FromSextets(vs: seq<Sextet>): Option<seq<Byte>> {
    if |vs| == 0 then Some([])
    else if |vs| == 1 then None
    else if |vs| == 2 then Some([FirstByte(vs[0], vs[1])])
    else if |vs| == 3 then Some([FirstByte(vs[0], vs[1]), SecondByte(vs[1], vs[2])])
    else
      var rest := FromSextets(vs[4..]);
      if rest.None? then None
      else Some([FirstByte(vs[0], vs[1]), SecondByte(vs[1], vs[2]), ThirdByte(vs[2], vs[3])] + rest.value)
  }

  lemma {:induction false} SextetsRoundTrip(bs: seq<Byte>)
    ensures FromSextets(ToSextets(bs)) == Some(bs)
    ensures |ToSextets(bs)| == (|bs| * 4 + 2) / 3
  {
    if |bs| >= 3 {
      SextetsRoundTrip(bs[3..]);
      GroupRoundTrips(bs[0], bs[1], bs[2], ToSextets(bs[3..]), bs[3..]);
      assert bs == [bs[0], bs[1], bs[2]] + bs[3..];
    } else {
      ShortRoundTrips(bs);
    }
  }

  lemma {:induction false} ShortRoundTrips(bs: seq<Byte>)
    requires |bs| < 3
    ensures FromSextets(ToSextets(bs)) == Some(bs)
  {
    if |bs| == 2 {
      LastTwoBytes(bs, bs[0], bs[1]);
    } else if |bs| == 1 {
      LastByte(bs, bs[0]);
    }
  }

  lemma {:induction false} LastByte(bs: seq<Byte>, a: Byte)
    requires bs == [a]
    ensures FromSextets(ToSextets(bs)) == Some(bs)
  {
    FromTwo(FirstSextet(a), SecondSextet(a, 0));
    BytesRoundTrip(a, 0, 0);
  }

  lemma {:induction false} LastTwoBytes(bs: seq<Byte>, a: Byte, b: Byte)
    requires bs == [a, b]
    ensures FromSextets(ToSextets(bs)) == Some(bs)
  {
    FromThree(FirstSextet(a), SecondSextet(a, b), ThirdSextet(b, 0));
    BytesRoundTrip(a, b, 0);
  }

  lemma FromTwo(v: Sextet, w: Sextet)
    ensures FromSextets([v, w]) == Some([FirstByte(v, w)])
  {
  }

  lemma FromThree(v: Sextet, w: Sextet, x: Sextet)
    ensures FromSextets([v, w, x]) == Some([FirstByte(v, w), SecondByte(w, x)])
  {
  }

  lemma {:induction false} GroupRoundTrips(a: Byte, b: Byte, c: Byte, vs: seq<Sextet>, rest: seq<Byte>)
    requires FromSextets(vs) == Some(rest)
    ensures FromSextets([FirstSextet(a), SecondSextet(a, b), ThirdSextet(b, c), FourthSextet(c)] + vs) == Some([a, b, c] + rest)
  {
    BytesRoundTrip(a, b, c);
    FromGroup(FirstSextet(a), SecondSextet(a, b), ThirdSextet(b, c), FourthSextet(c), vs);
  }

  lemma {:induction false} FromGroup(v: Sextet, w: Sextet, x: Sextet, y: Sextet, vs: seq<Sextet>)
    requires FromSextets(vs).Some?
    ensures FromSextets([v, w, x, y] + vs)
         == Some([FirstByte(v, w), SecondByte(w, x), ThirdByte(x, y)] + FromSextets(vs).value)
  {
    assert ([v, w, x, y] + vs)[4..] == vs;
  }

  lemma BytesRoundTrip(a: Byte, b: Byte, c: Byte)
    ensures FirstByte(FirstSextet(a), SecondSextet(a, b)) == a
    ensures SecondByte(SecondSextet(a, b), ThirdSextet(b, c)) == b
    ensures ThirdByte(ThirdSextet(b, c), FourthSextet(c)) == c
  {
  }

  /** Alike, but for the unused low bits of a short last group. */
  predicate SameButSpareBits(ws: seq<Sextet>, vs: seq<Sextet>) {
    && |ws| == |vs|
    && (vs != [] ==> var n := |vs| - 1; ws[..n] == vs[..n] && (|vs| % 4 == 2 || ws[n] / 4 == vs[n] / 4))
  }

  /** Decoding forgets nothing but those bits. */
  lemma {:induction false} SextetsComeFrom(vs: seq<Sextet>)
    requires FromSextets(vs).Some?
    ensures SameButSpareBits(ToSextets(FromSextets(vs).value), vs)
  {
    if |vs| >= 4 {
      var group, rest := vs[..4], FromSextets(vs[4..]).value;
      SextetsComeFrom(vs[4..]);
      BytesComeFrom(vs[0], vs[1], vs[2], vs[3]);
      ToGroup(FirstByte(vs[0], vs[1]), SecondByte(vs[1], vs[2]), ThirdByte(vs[2], vs[3]), rest);
      assert group == [vs[0], vs[1], vs[2], vs[3]] && vs == group + vs[4..];
      SpareBitsPrepend(group, ToSextets(rest), vs[4..]);
    } else {
      ShortComesFrom(vs);
    }
  }

  lemma {:induction false} ShortComesFrom(vs: seq<Sextet>)
    requires |vs| < 4 && FromSextets(vs).Some?
    ensures SameButSpareBits(ToSextets(FromSextets(vs).value), vs)
  {
    if |vs| == 3 {
      BytesComeFrom(vs[0], vs[1], vs[2], 0);
    } else if |vs| == 2 {
      BytesComeFrom(vs[0], vs[1], 0, 0);
    }
  }

  lemma {:induction false} ToGroup(a: Byte, b: Byte, c: Byte, rest: seq<Byte>)
    ensures ToSextets([a, b, c] + rest)
         == [FirstSextet(a), SecondSextet(a, b), ThirdSextet(b, c), FourthSextet(c)] + ToSextets(rest)
  {
    assert ([a, b, c] + rest)[3..] == rest;
  }

  lemma SpareBitsPrepend(group: seq<Sextet>, ws: seq<Sextet>, vs: seq<Sextet>)
    requires |group| == 4 && SameButSpareBits(ws, vs)
    ensures SameButSpareBits(group + ws, group + vs)
  {
    if vs != [] {
      var n := |vs| - 1;
      assert (group + ws)[..n + 4] == group + ws[..n] && (group + vs)[..n + 4] == group + vs[..n];
      assert (group + ws)[n + 4] == ws[n] && (group + vs)[n + 4] == vs[n];
    }
  }

  lemma BytesComeFrom(v: Sextet, w: Sextet, x: Sextet, y: Sextet)
    ensures FirstSextet(FirstByte(v, w)) == v && SecondSextet(FirstByte(v, w), SecondByte(w, x)) == w
    ensures ThirdSextet(SecondByte(w, x), ThirdByte(x, y)) == x && FourthSextet(ThirdByte(x, y)) == y
    ensures ThirdSextet(SecondByte(w, x), 0) == x / 4 * 4
  {
  }

  // ---- digits ----

  function Digit(v: Sextet, a: Alphabet): char {
    if v < 26 then 'A' + v as char
    else if v < 52 then 'a' + (v - 26) as char
    else if v < 62 then '0' + (v - 52) as char
    else if v == 62 then (if a.Url? then '-' else '+')
    else (if a.Url? then '_' else '/')
  }

  function Value(c: char, a: Alphabet): Option<Sextet> {
    if 'A' <= c <= 'Z' then Some(c as int - 'A' as int)
    else if 'a' <= c <= 'z' then Some(c as int - 'a' as int + 26)
    else if '0' <= c <= '9' then Some(c as int - '0' as int + 52)
    else if c == (if a.Url? then '-' else '+') then Some(62)
    else if c == (if a.Url? then '_' else '/') then Some(63)
    else None
  }

  lemma DigitHasValue(v: Sextet, a: Alphabet)
    ensures Value(Digit(v, a), a) == Some(v)
  {
  }

  /** A digit both alphabets know means the same in both. */
  lemma SharedDigit(c: char, a: Alphabet, b: Alphabet)
    requires Value(c, a).Some? && Value(c, b).Some?
    ensures Value(c, a) == Value(c, b)
  {
  }

  const UPPERS := "ABCDEFGHIJKLMNOPQRSTUVWXYZ"
  const LOWERS := "abcdefghijklmnopqrstuvwxyz"
  const NUMERALS := "0123456789"

  /** The digits are those of tables 1 and 2 of RFC 4648. */
  lemma DigitIsTabulated(v: Sextet)
    ensures Digit(v, Url) == (UPPERS + LOWERS + NUMERALS + "-_")[v]
    ensures Digit(v, Std) == (UPPERS + LOWERS + NUMERALS + "+/")[v]
  {
    TableAt(UPPERS, LOWERS, NUMERALS, "-_", v);
    TableAt(UPPERS, LOWERS, NUMERALS, "+/", v);
    if v < 26 {
      LetterIsTabulated(v);
    } else if v < 52 {
      LetterIsTabulated(v - 26);
    } else if v < 62 {
      NumeralIsTabulated(v - 52);
    }
  }

  lemma TableAt(a: string, b: string, c: string, d: string, v: int)
    requires |a| == |b| == 26 && |c| == 10 && |d| == 2 && 0 <= v < 64
    ensures (a + b + c + d)[v]
         == if v < 26 then a[v] else if v < 52 then b[v - 26] else if v < 62 then c[v - 52] else d[v - 62]
  {
  }

  lemma LetterIsTabulated(v: int)
    requires 0 <= v < 26
    ensures UPPERS[v] == 'A' + v as char && LOWERS[v] == 'a' + v as char
  {
    if v < 13 {
      assert v == 0 || v == 1 || v == 2 || v == 3 || v == 4 || v == 5 || v == 6 || v == 7 || v == 8 || v == 9 || v == 10
          || v == 11 || v == 12;
    } else {
      assert v == 13 || v == 14 || v == 15 || v == 16 || v == 17 || v == 18 || v == 19 || v == 20 || v == 21 || v == 22
          || v == 23 || v == 24 || v == 25;
    }
  }

  lemma UppersAre(c: char)
    ensures c in UPPERS <==> 'A' <= c <= 'Z'
  {
    if 'A' <= c <= 'Z' {
      LetterIsTabulated(c as int - 'A' as int);
    }
  }

  lemma LowersAre(c: char)
    ensures c in LOWERS <==> 'a' <= c <= 'z'
  {
    if 'a' <= c <= 'z' {
      LetterIsTabulated(c as int - 'a' as int);
    }
  }

  lemma NumeralsAre(c: char)
    ensures c in NUMERALS <==> '0' <= c <= '9'
  {
  }

  lemma NumeralIsTabulated(v: int)
    requires 0 <= v < 10
    ensures NUMERALS[v] == '0' + v as char
  {
  }

  // ---- text ----

  function Spell(vs: seq<Sextet>, a: Alphabet): (s: string)
    ensures |s| == |vs| && forall i :: 0 <= i < |vs| ==> s[i] == Digit(vs[i], a)
  {
    seq(|vs|, i requires 0 <= i < |vs| => Digit(vs[i], a))
  }

  /** Line breaks between digits are skipped; any other foreign character is an error. */
  function Digits(s: string, a: Alphabet): Option<seq<Sextet>> {
    if s == "" then Some([])
    else
      var rest := Digits(s[1..], a);
      if rest.None? then None
      else if s[0] == '\r' || s[0] == '\n' then rest
      else if Value(s[0], a).None? then None
      else Some([Value(s[0], a).value] + rest.value)
  }

  function Encode(bs: seq<Byte>, a: Alphabet): string {
    Spell(ToSextets(bs), a)
  }

  function Decode(s: string, a: Alphabet): Option<seq<Byte>> {
    var vs := Digits(s, a);
    if vs.None? then None else FromSextets(vs.value)
  }

  lemma {:induction false} DigitsOfSpelling(vs: seq<Sextet>, a: Alphabet)
    ensures Digits(Spell(vs, a), a) == Some(vs)
  {
    if vs != [] {
      DigitsOfSpelling(vs[1..], a);
      assert Spell(vs, a)[1..] == Spell(vs[1..], a);
      DigitHasValue(vs[0], a);
      assert vs == [vs[0]] + vs[1..];
    }
  }

  lemma {:induction false} DigitsAgree(s: string, a: Alphabet, b: Alphabet)
    requires Digits(s, a).Some? && Digits(s, b).Some?
    ensures Digits(s, a) == Digits(s, b)
  {
    if s != "" {
      DigitsAgree(s[1..], a, b);
      if s[0] != '\r' && s[0] != '\n' {
        SharedDigit(s[0], a, b);
      }
    }
  }

  lemma DecodeEncode(bs: seq<Byte>, a: Alphabet)
    ensures Decode(Encode(bs, a), a) == Some(bs)
    ensures |Encode(bs, a)| == (|bs| * 4 + 2) / 3
  {
    DigitsOfSpelling(ToSextets(bs), a);
    SextetsRoundTrip(bs);
  }

  /** Text that both alphabets decode, they decode alike. */
  lemma DecodersAgree(s: string, a: Alphabet, b: Alphabet)
    requires Decode(s, a).Some? && Decode(s, b).Some?
    ensures Decode(s, a) == Decode(s, b)
  {
    DigitsAgree(s, a, b);
  }

  // ---- base16 ----

  function HexDigit(v: int, upper: bool): char
    requires 0 <= v < 16
  {
    if v < 10 then '0' + v as char else (if upper then 'A' else 'a') + (v - 10) as char
  }

  function HexValue(c: char): Option<int> {
    if '0' <= c <= '9' then Some(c as int - '0' as int)
    else if 'a' <= c <= 'f' then Some(c as int - 'a' as int + 10)
    else if 'A' <= c <= 'F' then Some(c as int - 'A' as int + 10)
    else None
  }

  function HexPair(b: Byte, upper: bool): string {
    [HexDigit(b / 16, upper), HexDigit(b % 16, upper)]
  }

  function Hex(bs: seq<Byte>, upper: bool): string {
    if bs == [] then "" else HexPair(bs[0], upper) + Hex(bs[1..], upper)
  }

  lemma HexDigitHasValue(v: int, upper: bool)
    requires 0 <= v < 16
    ensures HexValue(HexDigit(v, upper)) == Some(v)
  {
  }

  const HEX_LOWER := "0123456789abcdef"
  const HEX_UPPER := "0123456789ABCDEF"

  lemma HexDigitIsTabulated(v: int)
    requires 0 <= v < 16
    ensures HexDigit(v, false) == HEX_LOWER[v] && HexDigit(v, true) == HEX_UPPER[v]
  {
  }

  function UnHex(s: string): Option<seq<Byte>> {
    if s == "" then Some([])
    else if |s| == 1 || HexValue(s[0]).None? || HexValue(s[1]).None? then None
    else
      var rest := UnHex(s[2..]);
      HexValueRange(s[0]);
      HexValueRange(s[1]);
      if rest.None? then None
      else Some([HexValue(s[0]).value * 16 + HexValue(s[1]).value] + rest.value)
  }

  lemma HexValueRange(c: char)
    ensures HexValue(c).Some? ==> 0 <= HexValue(c).value < 16
  {
  }

  lemma {:induction false} UnHexLength(s: string)
    ensures UnHex(s).Some? ==> |s| == 2 * |UnHex(s).value|
  {
    if |s| >= 2 {
      UnHexLength(s[2..]);
    }
  }
}
