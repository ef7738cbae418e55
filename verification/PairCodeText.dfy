/** How a pairing code is written, read back and generated. */
module PairCodeText {
  import opened GoStrings

  /** No 0, O, 1 or I. */
  const ALPHABET := "23456789ABCDEFGHJKLMNPQRSTUVWXYZ"
  const CODE_LENGTH := 8

  predicate Separator(c: char) {
    c == '-' || c == ' ' || c == '_'
  }

  function Strip(s: string): string {
    if s == "" then "" else Strip(s[..|s| - 1]) + if Separator(s[|s| - 1]) then "" else [s[|s| - 1]]
  }

  function Normalize(raw: string): string {
    Strip(ToUpper(TrimSpace(raw)))
  }

  function Format(code: string): string {
    var c := Normalize(code);
    if |c| != CODE_LENGTH then c else c[..4] + "-" + c[4..]
  }

  /** What Take accepts after normalising. */
  predicate WellFormed(code: string) {
    |code| == CODE_LENGTH && forall i :: 0 <= i < |code| ==> code[i] in ALPHABET
  }

  lemma AlphabetRange(c: char)
    requires c in ALPHABET
    ensures '2' <= c <= '9' || 'A' <= c <= 'Z'
  {
  }

  lemma AlphabetChars(c: char)
    requires c in ALPHABET
    ensures UpperChar(c) == c && UpperChar(LowerChar(c)) == c && !Separator(c) && !IsSpace(c) && !IsSpace(LowerChar(c))
  {
    AlphabetRange(c);
    PlainChars(c);
  }

  lemma PlainChars(c: char)
    requires '2' <= c <= '9' || 'A' <= c <= 'Z'
    ensures UpperChar(c) == c && UpperChar(LowerChar(c)) == c && !Separator(c) && !IsSpace(c) && !IsSpace(LowerChar(c))
  {
  }

  lemma {:induction false} StripConcat(a: string, b: string)
    ensures Strip(a + b) == Strip(a) + Strip(b)
  {
    if b == "" {
      assert a + b == a;
    } else {
      StripConcat(a, b[..|b| - 1]);
      assert (a + b)[..|a + b| - 1] == a + b[..|b| - 1];
    }
  }

  lemma {:induction false} StripClean(s: string)
    requires forall i :: 0 <= i < |s| ==> !Separator(s[i])
    ensures Strip(s) == s
  {
    if s != "" {
      StripClean(s[..|s| - 1]);
    }
  }

  /** A code survives however it is typed: bare, grouped as displayed, and in either case. */
  lemma CodeSurvivesDisplay(code: string)
    requires WellFormed(code)
    ensures Normalize(code) == code
    ensures Format(code) == code[..4] + "-" + code[4..]
    ensures Normalize(Format(code)) == code && Normalize(ToLower(Format(code))) == code
  {
    PlainCode(code);
    StripClean(code);
    var shown := code[..4] + "-" + code[4..];
    StripClean(code[..4]);
    StripClean(code[4..]);
    StripShown(code[..4], code[4..]);
    assert code[..4] + code[4..] == code;
    ShownStable(code, shown);
  }

  /** Every character is printed as itself and upper-cases to itself. */
  predicate Plain(s: string) {
    forall i :: 0 <= i < |s| ==>
      && UpperChar(s[i]) == s[i] && UpperChar(LowerChar(s[i])) == s[i]
      && !Separator(s[i]) && !IsSpace(s[i]) && !IsSpace(LowerChar(s[i]))
  }

  lemma PlainCode(code: string)
    requires WellFormed(code)
    ensures Plain(code) && Trimmed(code) && ToUpper(code) == code
  {
    forall i | 0 <= i < |code|
      ensures UpperChar(code[i]) == code[i] && UpperChar(LowerChar(code[i])) == code[i]
      ensures !Separator(code[i]) && !IsSpace(code[i]) && !IsSpace(LowerChar(code[i]))
    {
      AlphabetChars(code[i]);
    }
  }

  lemma StripShown(a: string, b: string)
    requires Strip(a) == a && Strip(b) == b
    ensures Strip(a + "-" + b) == a + b
  {
    StripConcat(a, "-");
    StripConcat(a + "-", b);
    StripDash();
    assert a + "" == a;
  }

  lemma StripDash()
    ensures Strip("-") == ""
  {
    assert "-"[..0] == "";
    assert Strip("") == "";
  }

  lemma ShownStable(code: string, shown: string)
    requires Plain(code) && |code| == CODE_LENGTH && shown == code[..4] + "-" + code[4..]
    ensures TrimSpace(shown) == shown && ToUpper(shown) == shown
    ensures TrimSpace(ToLower(shown)) == ToLower(shown) && ToUpper(ToLower(shown)) == shown
  {
    assert forall i :: 0 <= i < |shown| ==> shown[i] == if i < 4 then code[i] else if i == 4 then '-' else code[i - 1];
    assert forall i :: 0 <= i < |shown| ==> UpperChar(shown[i]) == shown[i];
    assert forall i :: 0 <= i < |shown| ==> UpperChar(LowerChar(shown[i])) == shown[i];
  }

  /** The text holds the code's characters in order, each in either case, with dashes, blanks and underscores anywhere. */
  predicate Types(raw: string, code: string) {
    if raw == "" then code == ""
    else
      var n := |raw| - 1;
      if raw[n] == '-' || raw[n] == ' ' || raw[n] == '_' then Types(raw[..n], code)
      else code != "" && (raw[n] == code[|code| - 1] || raw[n] == LowerChar(code[|code| - 1])) && Types(raw[..n], code[..|code| - 1])
  }

  lemma {:induction false} TypedStrips(raw: string, code: string)
    requires Plain(code) && Types(raw, code)
    ensures Strip(ToUpper(raw)) == code
  {
    if raw != "" {
      var n := |raw| - 1;
      StripUpperLast(raw);
      if raw[n] == '-' || raw[n] == ' ' || raw[n] == '_' {
        TypedStrips(raw[..n], code);
      } else {
        TypedStrips(raw[..n], code[..|code| - 1]);
        assert UpperChar(raw[n]) == code[|code| - 1];
      }
    }
  }

  lemma StripUpperLast(raw: string)
    requires raw != ""
    ensures var n := |raw| - 1; var c := UpperChar(raw[n]);
            Strip(ToUpper(raw)) == Strip(ToUpper(raw[..n])) + if Separator(c) then "" else [c]
  {
    assert ToUpper(raw)[..|raw| - 1] == ToUpper(raw[..|raw| - 1]);
  }

  lemma {:induction false} DropFirstBlank(raw: string, code: string)
    requires Plain(code) && Types(raw, code) && raw != "" && IsSpace(raw[0])
    ensures Types(raw[1..], code)
  {
    var n := |raw| - 1;
    if n > 0 {
      assert raw[1..][..n - 1] == raw[..n][1..];
      if raw[n] == '-' || raw[n] == ' ' || raw[n] == '_' {
        DropFirstBlank(raw[..n], code);
      } else {
        DropFirstBlank(raw[..n], code[..|code| - 1]);
      }
    } else {
      assert raw[..0] == "" && raw[1..] == "";
    }
  }

  lemma {:induction false} TrimLeftTypes(raw: string, code: string)
    requires Plain(code) && Types(raw, code)
    ensures Types(TrimLeft(raw), code)
  {
    if raw != "" && IsSpace(raw[0]) {
      DropFirstBlank(raw, code);
      TrimLeftTypes(raw[1..], code);
    }
  }

  lemma {:induction false} TrimRightTypes(raw: string, code: string)
    requires Plain(code) && Types(raw, code)
    ensures Types(TrimRight(raw), code)
  {
    if raw != "" && IsSpace(raw[|raw| - 1]) {
      TrimRightTypes(raw[..|raw| - 1], code);
    }
  }

  /** A code is read however it is typed: any case, and dashes, blanks and underscores wherever one likes. */
  lemma TypedCodeIsRead(raw: string, code: string)
    requires WellFormed(code) && Types(raw, code)
    ensures Normalize(raw) == code
  {
    PlainCode(code);
    TrimLeftTypes(raw, code);
    TrimRightTypes(TrimLeft(raw), code);
    TypedStrips(TrimSpace(raw), code);
  }

  /** The alphabet: thirty-two characters, so that a byte picks one evenly, without the four that look alike. */
  lemma AlphabetIsClear(c: char)
    ensures |ALPHABET| == 32 && 256 % |ALPHABET| == 0
    ensures c == '0' || c == 'O' || c == '1' || c == 'I' ==> c !in ALPHABET
  {
  }

  /** No character stands in it twice, so every code comes from one choice of bytes modulo its size. */
  lemma AlphabetAscends(i: nat)
    requires i + 1 < |ALPHABET|
    ensures ALPHABET[i] < ALPHABET[i + 1]
  {
    if i < 16 {
      assert i == 0 || i == 1 || i == 2 || i == 3 || i == 4 || i == 5 || i == 6 || i == 7 || i == 8 || i == 9 || i == 10
          || i == 11 || i == 12 || i == 13 || i == 14 || i == 15;
    } else {
      assert i == 16 || i == 17 || i == 18 || i == 19 || i == 20 || i == 21 || i == 22 || i == 23 || i == 24 || i == 25
          || i == 26 || i == 27 || i == 28 || i == 29 || i == 30;
    }
  }

  /** Builds the normal form character by character. */
  method NormalizePairCode(raw: string) returns (code: string)
    ensures code == Normalize(raw)
  {
    var s := ToUpper(TrimSpace(raw));
    code := "";
    var i := 0;
    while i < |s|
      invariant 0 <= i <= |s| && code == Strip(s[..i])
    {
      assert s[..i + 1][..i] == s[..i];
      if s[i] != '-' && s[i] != ' ' && s[i] != '_' {
        code := code + [s[i]];
      }
      i := i + 1;
    }
    assert s[..i] == s;
  }

  method CheckPairCode(code: string) returns (ok: bool)
    ensures ok <==> WellFormed(code)
  {
    if |code| != CODE_LENGTH { return false; }
    for k := 0 to |code|
      invariant forall i :: 0 <= i < k ==> code[i] in ALPHABET
    {
      if code[k] !in ALPHABET { return false; }
    }
    return true;
  }

  /**
    Draws a code from random bytes by rejection sampling. `chunk` is the buffer the random source
    fills, sixteen bytes at a time; one is always enough, because 32 divides 256 and so no byte
    is ever rejected.
   */
  method GeneratePairCode(chunk: seq<int>) returns (code: string)
    requires |chunk| == 2 * CODE_LENGTH && forall i :: 0 <= i < |chunk| ==> 0 <= chunk[i] < 256
    ensures WellFormed(code)
    ensures forall i :: 0 <= i < CODE_LENGTH ==> code[i] == ALPHABET[chunk[i] % 32]
  {
    code := "";
    var n := |ALPHABET|;
    var k := 0;
    while k < |chunk| && |code| < CODE_LENGTH
      invariant 0 <= k <= |chunk| && |code| == k <= CODE_LENGTH
      invariant forall i :: 0 <= i < k ==> code[i] == ALPHABET[chunk[i] % 32]
    {
      if chunk[k] < 256 - 256 % n {
        code := code + [ALPHABET[chunk[k] % n]];
      }
      k := k + 1;
    }
  }
}
