/** How a certificate fingerprint is printed, typed back and brought to its one wire form. */
module Fingerprints {
  import opened Common
  import opened Base64
  import opened GoStrings

  /** A SHA-256 digest. */
  type Digest = d: seq<Byte> | |d| == 32 witness seq(32, _ => 0)

  function RemoveSeparators(s: string): (t: string)
    ensures |t| <= |s| && forall c :: c in t ==> c in s && c != ':' && c != ' '
  {
    if s == "" then ""
    else if s[0] == ':' || s[0] == ' ' then RemoveSeparators(s[1..])
    else [s[0]] + RemoveSeparators(s[1..])
  }

  function TrimPadding(s: string): string {
    if s != "" && s[|s| - 1] == '=' then TrimPadding(s[..|s| - 1]) else s
  }

  /** The wire form: unpadded base64url. */
  function Canonical(d: Digest): string {
    Encode(d, Url)
  }

  function StripLabel(s: string): string {
    if HasPrefix(ToLower(s), "sha256:") then s[7..] else s
  }

  function ReadHex(s: string): Option<seq<Byte>> {
    var compact := RemoveSeparators(s);
    if |compact| == 64 then UnHex(ToLower(compact)) else None
  }

  function ReadBase64(s: string, a: Alphabet): Option<seq<Byte>> {
    var raw := Decode(TrimPadding(s), a);
    if raw.Some? && |raw.value| == 32 then raw else None
  }

  /** The digest a text denotes, if any. */
  function Read(text: string): (r: Option<seq<Byte>>)
    ensures r.Some? ==> |r.value| == 32
  {
    var s := StripLabel(TrimSpace(text));
    UnHexLength(ToLower(RemoveSeparators(s)));
    if TrimSpace(text) == "" then None
    else if ReadHex(s).Some? then ReadHex(s)
    else if ReadBase64(s, Url).Some? then ReadBase64(s, Url)
    else ReadBase64(s, Std)
  }

  function Normalize(text: string): Option<string> {
    var d := Read(text);
    if d.None? then None else Some(Canonical(d.value))
  }

  // ---- spellings ----

  /** FingerprintColonHex: upper-case pairs with colons between them. */
  function ColonHex(bs: seq<Byte>): string {
    if bs == [] then ""
    else if |bs| == 1 then HexPair(bs[0], true)
    else HexPair(bs[0], true) + ":" + ColonHex(bs[1..])
  }

  datatype Spelling = LowerHex | UpperHex | Colons | Plain64(alphabet: Alphabet) | Padded64(alphabet: Alphabet)

  function Write(d: Digest, spelling: Spelling): string {
    match spelling
    case LowerHex => Hex(d, false)
    case UpperHex => Hex(d, true)
    case Colons => ColonHex(d)
    case Plain64(a) => Encode(d, a)
    case Padded64(a) => Encode(d, a) + "="
  }

  predicate IsLabel(s: string) {
    s == "" || ToLower(s) == "sha256:"
  }

  lemma {:induction false} HexIsOrdinary(bs: seq<Byte>, upper: bool)
    ensures |Hex(bs, upper)| == 2 * |bs|
    ensures forall c :: c in Hex(bs, upper) ==> HexValue(c).Some?
    ensures UnHex(ToLower(Hex(bs, upper))) == Some(bs)
  {
    if bs != [] {
      HexIsOrdinary(bs[1..], upper);
      HexDigitHasValue(bs[0] / 16, upper);
      HexDigitHasValue(bs[0] % 16, upper);
      var h := Hex(bs, upper);
      assert h[2..] == Hex(bs[1..], upper);
      assert ToLower(h)[2..] == ToLower(Hex(bs[1..], upper));
      LowerKeepsHex(h[0]);
      LowerKeepsHex(h[1]);
      assert bs == [bs[0]] + bs[1..];
    }
  }

  lemma LowerKeepsHex(c: char)
    requires HexValue(c).Some?
    ensures HexValue(LowerChar(c)) == HexValue(c)
  {
  }

  lemma {:induction false} NothingToRemove(s: string)
    requires ':' !in s && ' ' !in s
    ensures RemoveSeparators(s) == s
  {
    if s != "" {
      NothingToRemove(s[1..]);
    }
  }

  lemma HexPairStays(b: Byte, rest: string)
    ensures RemoveSeparators(HexPair(b, true) + rest) == HexPair(b, true) + RemoveSeparators(rest)
  {
    var p := HexPair(b, true);
    HexDigitHasValue(b / 16, true);
    HexDigitHasValue(b % 16, true);
    assert (p + rest)[1..] == [p[1]] + rest;
    assert ([p[1]] + rest)[1..] == rest;
    assert p + RemoveSeparators(rest) == [p[0]] + ([p[1]] + RemoveSeparators(rest));
  }

  lemma {:induction false} ColonsRemoved(bs: seq<Byte>)
    ensures RemoveSeparators(ColonHex(bs)) == Hex(bs, true)
    ensures forall c :: c in ColonHex(bs) ==> c == ':' || HexValue(c).Some?
    ensures bs != [] ==> |ColonHex(bs)| == 3 * |bs| - 1 && ColonHex(bs)[0] != ':' && ColonHex(bs)[|ColonHex(bs)| - 1] != ':'
  {
    if bs != [] {
      HexDigitHasValue(bs[0] / 16, true);
      HexDigitHasValue(bs[0] % 16, true);
      var p := HexPair(bs[0], true);
      if |bs| == 1 {
        HexPairStays(bs[0], "");
        assert p + "" == p;
        assert Hex(bs[1..], true) == "";
      } else {
        ColonsRemoved(bs[1..]);
        var rest := ColonHex(bs[1..]);
        HexPairStays(bs[0], ":" + rest);
        assert p + ":" + rest == p + (":" + rest);
        assert (":" + rest)[1..] == rest;
      }
    }
  }

  lemma {:induction false} DigitsAreOrdinary(bs: seq<Byte>, a: Alphabet)
    ensures forall c :: c in Encode(bs, a) ==> Value(c, a).Some?
  {
    forall i | 0 <= i < |ToSextets(bs)|
      ensures Value(Encode(bs, a)[i], a).Some?
    {
      DigitHasValue(ToSextets(bs)[i], a);
    }
  }

  lemma NoLabelInside(body: string)
    requires body != "" && (LowerChar(body[0]) != 's' || ':' !in body)
    ensures StripLabel(body) == body
  {
    var l := ToLower(body);
    if |body| > 6 {
      assert l[..7][0] == LowerChar(body[0]) && l[..7][6] == LowerChar(body[6]);
      assert body[6] in body;
    }
  }

  lemma LabelInFront(tag: string, body: string)
    requires ToLower(tag) == "sha256:"
    ensures StripLabel(tag + body) == body && !IsSpace(tag[0])
  {
    var s := tag + body;
    assert |tag| == |ToLower(tag)| == 7;
    assert LowerChar(tag[0]) == ToLower(tag)[0] == 's';
    assert ToLower(s)[..7] == ToLower(tag);
    assert s[7..] == body;
  }

  /** A label in front of a body that holds no label of its own is the one removed. */
  lemma LabelRemoved(tag: string, body: string)
    requires IsLabel(tag) && body != "" && Trimmed(body)
    requires LowerChar(body[0]) != 's' || ':' !in body
    ensures TrimSpace(tag + body) == tag + body && StripLabel(tag + body) == body
  {
    if tag == "" {
      assert tag + body == body;
      NoLabelInside(body);
    } else {
      LabelInFront(tag, body);
      assert (tag + body)[0] == tag[0] && (tag + body)[|tag + body| - 1] == body[|body| - 1];
    }
  }

  // ---- main results ----

  lemma HexReads(d: Digest, s: string, upper: bool)
    requires RemoveSeparators(s) == Hex(d, upper)
    ensures ReadHex(s) == Some(d)
  {
    HexIsOrdinary(d, upper);
  }

  lemma Base64Reads(d: Digest, a: Alphabet, padded: bool)
    ensures var s := Encode(d, a) + if padded then "=" else "";
            ReadHex(s).None? && ReadBase64(s, a) == Some(d)
  {
    var e := Encode(d, a);
    var s := e + if padded then "=" else "";
    DecodeEncode(d, a);
    assert |e| == 43;
    DigitsAreOrdinary(d, a);
    assert Value(e[42], a).Some?;
    assert TrimPadding(e) == e;
    if padded {
      assert s[..43] == e;
    } else {
      assert s == e;
    }
  }

  /** What reading relies on: no blank end, no label inside, and one reader that finds the digest first. */
  predicate ReadsAs(s: string, d: Digest) {
    && s != "" && Trimmed(s) && (LowerChar(s[0]) != 's' || ':' !in s)
    && (if ReadHex(s).Some? then ReadHex(s) == Some(d)
        else if ReadBase64(s, Url).Some? then ReadBase64(s, Url) == Some(d)
        else ReadBase64(s, Std) == Some(d))
  }

  lemma HexCharIsPlain(c: char)
    requires HexValue(c).Some?
    ensures !IsSpace(c) && LowerChar(c) != 's'
  {
  }

  lemma HexBody(d: Digest, s: string, upper: bool)
    requires RemoveSeparators(s) == Hex(d, upper)
    requires s != "" && s[0] != ':' && s[|s| - 1] != ':'
    requires forall c :: c in s ==> c == ':' || HexValue(c).Some?
    ensures ReadsAs(s, d)
  {
    assert ReadHex(s) == Some(d) by {
      HexReads(d, s, upper);
    }
    assert s[0] in s && s[|s| - 1] in s;
    HexCharIsPlain(s[0]);
    HexCharIsPlain(s[|s| - 1]);
  }

  lemma BodyReads(d: Digest, spelling: Spelling)
    ensures ReadsAs(Write(d, spelling), d)
  {
    match spelling
    case LowerHex => PlainHexBody(d, false);
    case UpperHex => PlainHexBody(d, true);
    case Colons =>
      ColonsRemoved(d);
      HexBody(d, ColonHex(d), true);
    case Plain64(a) =>
      Base64Body(d, a, false);
      assert Encode(d, a) + "" == Encode(d, a);
    case Padded64(a) =>
      Base64Body(d, a, true);
  }

  lemma PlainHexBody(d: Digest, upper: bool)
    ensures ReadsAs(Hex(d, upper), d)
  {
    var s := Hex(d, upper);
    HexIsOrdinary(d, upper);
    assert HexValue(':').None? && HexValue(' ').None?;
    NothingToRemove(s);
    assert s[0] in s && s[|s| - 1] in s;
    HexBody(d, s, upper);
  }

  lemma Base64Body(d: Digest, a: Alphabet, padded: bool)
    ensures ReadsAs(Encode(d, a) + if padded then "=" else "", d)
  {
    var e := Encode(d, a);
    var s := e + if padded then "=" else "";
    Base64Reads(d, a, padded);
    DecodeEncode(d, a);
    DigitsAreOrdinary(d, a);
    assert Value(':', a).None?;
    assert s[0] == e[0] && e[0] in e && e[42] in e;
    assert s[|s| - 1] == if padded then '=' else e[42];
    if a.Std? && ReadBase64(s, Url).Some? {
      DecodersAgree(TrimPadding(s), Url, Std);
    }
  }

  /**
    * Whatever spelling of a digest is printed, in either case of hex, with colons, in
    * either base64 alphabet, padded or not, with or without a label in any case: the
    * same digest is read back, so the same wire form results.
    */
  lemma EverySpellingReadsBack(d: Digest, spelling: Spelling, tag: string)
    requires IsLabel(tag)
    ensures Read(tag + Write(d, spelling)) == Some(d)
    ensures Normalize(tag + Write(d, spelling)) == Some(Canonical(d))
  {
    BodyReads(d, spelling);
    LabelRemoved(tag, Write(d, spelling));
  }

  /** Two printed fingerprints normalise alike exactly when they name the same certificate. */
  lemma NormalizeSeparatesDigests(d: Digest, x: Spelling, tag: string, e: Digest, y: Spelling, other: string)
    requires IsLabel(tag) && IsLabel(other)
    ensures Normalize(tag + Write(d, x)) == Normalize(other + Write(e, y)) <==> d == e
  {
    EverySpellingReadsBack(d, x, tag);
    EverySpellingReadsBack(e, y, other);
    DecodeEncode(d, Url);
    DecodeEncode(e, Url);
  }

  /**
    * Of any text at all: what normalising yields is the 43-character wire form of the
    * digest that was read, and normalising that again changes nothing.
    */
  lemma NormalizeIsIdempotent(text: string)
    requires Normalize(text).Some?
    ensures |Normalize(text).value| == 43
    ensures Read(Normalize(text).value) == Read(text)
    ensures Normalize(Normalize(text).value) == Normalize(text)
  {
    CanonicalReads(Read(text).value);
  }

  /** The wire form is a spelling like any other. */
  lemma CanonicalReads(d: Digest)
    ensures |Canonical(d)| == 43 && Trimmed(Canonical(d))
    ensures Read(Canonical(d)) == Some(d) && Normalize(Canonical(d)) == Some(Canonical(d))
  {
    CanonicalIsSpelling(d);
    UnlabelledReads(Canonical(d), d);
  }

  lemma CanonicalIsSpelling(d: Digest)
    ensures ReadsAs(Canonical(d), d) && |Canonical(d)| == 43
  {
    BodyReads(d, Plain64(Url));
    DecodeEncode(d, Url);
  }

  lemma UnlabelledReads(s: string, d: Digest)
    requires ReadsAs(s, d)
    ensures Trimmed(s) && Read(s) == Some(d)
  {
    NoLabelInside(s);
  }

  /**
    * The order in which the three readers are tried does not matter: no text is both
    * hex and base64, and the two base64 alphabets never read one text differently.
    */
  lemma ReadersNeverConflict(s: string, a: Alphabet, b: Alphabet)
    ensures ReadHex(s).Some? ==> ReadBase64(s, a).None?
    ensures ReadBase64(s, a).Some? && ReadBase64(s, b).Some? ==> ReadBase64(s, a) == ReadBase64(s, b)
  {
    if ReadBase64(s, a).Some? && ReadBase64(s, b).Some? {
      DecodersAgree(TrimPadding(s), a, b);
    }
    if ReadHex(s).Some? {
      HexIsNotBase64(s, a);
    }
  }

  lemma HexIsNotBase64(s: string, a: Alphabet)
    requires ReadHex(s).Some?
    ensures ReadBase64(s, a).None?
  {
    HexHasNoBreaks(s);
    NoPadding(s);
    if ':' in s || ' ' in s {
      ForeignDigit(s, a);
    } else {
      NothingToRemove(s);
      WrongLength(s, a);
    }
  }

  lemma NoPadding(s: string)
    requires s != "" && '=' !in s
    ensures TrimPadding(s) == s
  {
    assert s[|s| - 1] in s;
  }

  lemma WrongLength(s: string, a: Alphabet)
    requires |s| == 64 && '\r' !in s && '\n' !in s
    ensures Decode(s, a).Some? ==> |Decode(s, a).value| == 48
  {
    DigitsLength(s, a);
    if Digits(s, a).Some? {
      FromSextetsLength(Digits(s, a).value);
    }
  }

  lemma HexHasNoBreaks(s: string)
    requires ReadHex(s).Some?
    ensures s != "" && '=' !in s && '\r' !in s && '\n' !in s
  {
    var c := RemoveSeparators(s);
    UnHexChars(ToLower(c));
    forall x | x in c
      ensures HexValue(LowerChar(x)).Some?
    {
      var i :| 0 <= i < |c| && c[i] == x;
      assert ToLower(c)[i] in ToLower(c);
    }
    assert HexValue(LowerChar('=')).None? && HexValue(LowerChar('\r')).None? && HexValue(LowerChar('\n')).None?;
    OthersStay(s, '=');
    OthersStay(s, '\r');
    OthersStay(s, '\n');
  }

  lemma {:induction false} OthersStay(s: string, c: char)
    requires c != ':' && c != ' '
    ensures c in s ==> c in RemoveSeparators(s)
  {
    if s != "" {
      assert s == [s[0]] + s[1..];
      OthersStay(s[1..], c);
    }
  }

  lemma {:induction false} UnHexChars(s: string)
    requires UnHex(s).Some?
    ensures forall c :: c in s ==> HexValue(c).Some?
  {
    if s != "" {
      UnHexChars(s[2..]);
      assert s == [s[0], s[1]] + s[2..];
    }
  }

  lemma {:induction false} ForeignDigit(s: string, a: Alphabet)
    requires ':' in s || ' ' in s
    ensures Digits(s, a).None?
  {
    if s[0] != ':' && s[0] != ' ' {
      assert s == [s[0]] + s[1..];
      ForeignDigit(s[1..], a);
    }
  }

  lemma {:induction false} DigitsLength(s: string, a: Alphabet)
    requires '\r' !in s && '\n' !in s
    ensures Digits(s, a).Some? ==> |Digits(s, a).value| == |s|
  {
    if s != "" {
      DigitsLength(s[1..], a);
    }
  }

  lemma {:induction false} FromSextetsLength(vs: seq<Sextet>)
    ensures FromSextets(vs).Some? ==> |FromSextets(vs).value| == |vs| * 3 / 4
  {
    if |vs| >= 4 {
      FromSextetsLength(vs[4..]);
    }
  }

  // ---- nothing else is read ----

  lemma {:induction false} UnHexComesFrom(s: string)
    requires UnHex(s).Some? && forall i :: 0 <= i < |s| ==> LowerChar(s[i]) == s[i]
    ensures Hex(UnHex(s).value, false) == s
  {
    if s != "" {
      UnHexComesFrom(s[2..]);
      HexDigitComesFrom(s[0]);
      HexDigitComesFrom(s[1]);
      HexValueRange(s[0]);
      HexValueRange(s[1]);
      var b: Byte := HexValue(s[0]).value * 16 + HexValue(s[1]).value;
      HexCons(b, UnHex(s[2..]).value);
      assert HexPair(b, false) == [s[0], s[1]];
      assert s == [s[0], s[1]] + s[2..];
    }
  }

  lemma HexCons(b: Byte, rest: seq<Byte>)
    ensures Hex([b] + rest, false) == HexPair(b, false) + Hex(rest, false)
  {
    assert ([b] + rest)[1..] == rest;
  }

  lemma HexDigitComesFrom(c: char)
    requires HexValue(c).Some? && LowerChar(c) == c
    ensures HexDigit(HexValue(c).value, false) == c
  {
  }

  /** Hex is read as a digest exactly when, case and separators apart, it is that digest's hex. */
  lemma ReadHexIff(s: string, d: Digest)
    ensures ReadHex(s) == Some(d) <==> ToLower(RemoveSeparators(s)) == Hex(d, false)
  {
    var low := ToLower(RemoveSeparators(s));
    HexIsOrdinary(d, false);
    LowerTwice(RemoveSeparators(s));
    if low == Hex(d, false) {
      HexOfLower(low, d);
    } else if ReadHex(s) == Some(d) {
      UnHexComesFrom(low);
    }
  }

  lemma LowerTwice(s: string)
    ensures ToLower(ToLower(s)) == ToLower(s)
    ensures forall i :: 0 <= i < |s| ==> LowerChar(ToLower(s)[i]) == ToLower(s)[i]
  {
    forall i | 0 <= i < |s| ensures LowerChar(ToLower(s)[i]) == ToLower(s)[i] {
      assert ToLower(s)[i] == LowerChar(s[i]);
    }
  }

  lemma HexOfLower(low: string, d: Digest)
    requires low == Hex(d, false) && ToLower(low) == low
    ensures |low| == 64 && UnHex(low) == Some(d)
  {
    HexIsOrdinary(d, false);
  }

  /** Base64 is read as a digest only when, padding and line breaks apart, its digits are that digest's, the last one's two spare bits aside. */
  lemma ReadBase64Only(s: string, a: Alphabet, d: Digest)
    requires ReadBase64(s, a) == Some(d)
    ensures var vs, ws := Digits(TrimPadding(s), a).value, ToSextets(d);
            |vs| == |ws| == 43 && vs[..42] == ws[..42] && vs[42] / 4 == ws[42] / 4
  {
    var vs := Digits(TrimPadding(s), a).value;
    SextetsComeFrom(vs);
    SextetsRoundTrip(d);
  }

  // ---- the printer's loop ----

  method FingerprintColonHex(sum: array<Byte>) returns (out: string)
    ensures out == ColonHex(sum[..])
  {
    out := "";
    for i := 0 to sum.Length
      invariant out == ColonHex(sum[..i])
    {
      if i > 0 {
        out := out + ":";
      }
      out := out + [HexDigit(sum[i] / 16, true), HexDigit(sum[i] % 16, true)];
      ColonHexAppend(sum[..i], sum[i]);
      assert sum[..i + 1] == sum[..i] + [sum[i]];
    }
    assert sum[..] == sum[..sum.Length];
  }

  lemma {:induction false} ColonHexAppend(bs: seq<Byte>, b: Byte)
    ensures ColonHex(bs + [b]) == (if bs == [] then "" else ColonHex(bs) + ":") + HexPair(b, true)
  {
    if |bs| >= 1 {
      ColonHexAppend(bs[1..], b);
      assert (bs + [b])[1..] == bs[1..] + [b];
      var p, q := HexPair(bs[0], true), HexPair(b, true);
      if |bs| > 1 {
        assert p + ":" + (ColonHex(bs[1..]) + ":" + q) == p + ":" + ColonHex(bs[1..]) + ":" + q;
      }
    }
  }
}
