/** What the descriptor checks mean, and where one of them does not mean what it should. */
module SddlProofs {
  import opened Common
  import opened GoStrings
  import opened Sddl

  // ---- the report agrees with the verdict ----

  lemma {:induction false} OffenderIsListed(aces: seq<string>, owner: Option<string>, lookup: Lookup, i: nat)
    requires i < |aces| && Offender(aces[i], owner, lookup).Some?
    ensures Offender(aces[i], owner, lookup).value in Offenders(aces, owner, lookup)
  {
    if i < |aces| - 1 {
      OffenderIsListed(aces[..|aces| - 1], owner, lookup, i);
    }
  }

  lemma {:induction false} ListedOffends(aces: seq<string>, owner: Option<string>, lookup: Lookup, t: string) returns (i: nat)
    requires t in Offenders(aces, owner, lookup)
    ensures i < |aces| && Offender(aces[i], owner, lookup) == Some(t)
  {
    i := |aces| - 1;
    if t in Offenders(aces[..i], owner, lookup) {
      i := ListedOffends(aces[..i], owner, lookup, t);
    }
  }

  /** No trustee is reported twice. */
  lemma {:induction false} OffendersDistinct(aces: seq<string>, owner: Option<string>, lookup: Lookup)
    ensures Distinct(Offenders(aces, owner, lookup))
  {
    if aces != [] {
      var before := Offenders(aces[..|aces| - 1], owner, lookup);
      OffendersDistinct(aces[..|aces| - 1], owner, lookup);
      var o := Offender(aces[|aces| - 1], owner, lookup);
      if o.Some? && o.value !in before {
        AppendDistinct(before, o.value);
      }
    }
  }

  predicate Distinct(names: seq<string>) {
    forall i, j :: 0 <= i < j < |names| ==> names[i] != names[j]
  }

  lemma AppendDistinct(names: seq<string>, t: string)
    requires Distinct(names) && t !in names
    ensures Distinct(names + [t])
  {
  }

  /** A refusal can always be explained, and nothing is reported about a file that is accepted. */
  lemma VerdictMatchesReport(sddl: string, owner: Option<string>, lookup: Lookup)
    ensures NoForeignTrustee(sddl, owner, lookup) <==> ForeignTrustees(sddl, owner, lookup) == []
  {
    var aces := SplitDacl(ExtractDacl(sddl)).1;
    var out := Offenders(aces, owner, lookup);
    if out != [] {
      var i := ListedOffends(aces, owner, lookup, out[0]);
    }
    if i :| 0 <= i < |aces| && Offender(aces[i], owner, lookup).Some? {
      OffenderIsListed(aces, owner, lookup, i);
    }
  }

  // ---- fields ----

  predicate NoSemi(s: string) {
    ';' !in s
  }

  /** No field separator and no parenthesis: what SIDs and aliases look like. */
  predicate Plain(s: string) {
    forall i :: 0 <= i < |s| ==> s[i] != ';' && !Paren(s[i])
  }

  lemma {:induction false} SplitParts(s: string)
    ensures forall i :: 0 <= i < |Split(s)| ==> NoSemi(Split(s)[i])
  {
    if s != "" {
      SplitParts(s[1..]);
    }
  }

  lemma {:induction false} SplitField(f: string, rest: string)
    requires NoSemi(f)
    ensures Split(f + ";" + rest) == [f] + Split(rest)
  {
    var s := f + ";" + rest;
    if f == "" {
      assert s[1..] == rest;
    } else {
      SplitField(f[1..], rest);
      assert s[1..] == f[1..] + ";" + rest && s[0] == f[0] != ';';
      assert [f[0]] + f[1..] == f;
    }
  }

  lemma {:induction false} SplitSingle(f: string)
    requires NoSemi(f)
    ensures Split(f) == [f]
  {
    if f != "" {
      SplitSingle(f[1..]);
      assert [f[0]] + f[1..] == f;
    }
  }

  /** Splitting undoes joining. */
  lemma {:induction false} SplitJoin(fields: seq<string>)
    requires |fields| >= 1 && forall i :: 0 <= i < |fields| ==> NoSemi(fields[i])
    ensures Split(Join(fields)) == fields
  {
    if |fields| == 1 {
      SplitSingle(fields[0]);
    } else {
      SplitJoin(fields[1..]);
      SplitField(fields[0], Join(fields[1..]));
    }
  }

  /** The fields of a full-control ACE for one trustee. */
  function FullControl(t: string): seq<string> {
    ["A", "OICI", "FA", "", "", t]
  }

  function FullControlText(t: string): string {
    "A;OICI;FA;;;" + t
  }

  lemma JoinFullControl(t: string)
    ensures Join(FullControl(t)) == FullControlText(t)
  {
    assert FullControl(t)[1..] == ["OICI", "FA", "", "", t];
    assert ["OICI", "FA", "", "", t][1..] == ["FA", "", "", t];
    assert ["FA", "", "", t][1..] == ["", "", t];
    assert ["", "", t][1..] == ["", t];
    assert ["", t][1..] == [t];
    assert Join([t]) == t;
    assert Join(["", t]) == ";" + t;
    assert Join(["", "", t]) == ";;" + t;
    assert Join(["FA", "", "", t]) == "FA;;;" + t;
    assert Join(["OICI", "FA", "", "", t]) == "OICI;FA;;;" + t;
  }

  lemma TrimWrapped(inner: string)
    requires inner != "" && !Paren(inner[0]) && !Paren(inner[|inner| - 1])
    ensures TrimParens("(" + inner + ")") == inner
  {
    var s := "(" + inner + ")";
    assert s[1..] == inner + ")";
    assert (inner + ")")[..|inner|] == inner;
    assert TrimParens(inner) == inner;
    assert TrimParens(inner + ")") == inner;
  }

  /** The fields of a wrapped full-control ACE, once it is upper case and has no space at its ends. */
  lemma FullControlFields(t: string)
    requires Plain(t) && ToUpper(t) == t
    ensures Fields("(" + FullControlText(t) + ")") == FullControl(t)
  {
    var inner := FullControlText(t);
    var ace := "(" + inner + ")";
    assert ToUpper(inner) == inner;
    assert ToUpper(ace) == ace && TrimSpace(ace) == ace;
    TrimWrapped(inner);
    JoinFullControl(t);
    forall i | 0 <= i < 6 ensures NoSemi(FullControl(t)[i]) {
    }
    SplitJoin(FullControl(t));
  }

  lemma WantedAce(t: string, owner: Option<string>, lookup: Lookup)
    requires Plain(t) && ToUpper(t) == t
    ensures CanonicalAce("(" + FullControlText(t) + ")", owner, lookup)
            == "(" + FullControlText(Trustee(t, owner, lookup)) + ")"
  {
    FullControlFields(t);
    assert FullControl(t)[5 := Trustee(t, owner, lookup)] == FullControl(Trustee(t, owner, lookup));
    JoinFullControl(Trustee(t, owner, lookup));
  }

  /** Resolved names carry no separator, as SIDs do not. */
  ghost predicate SidsArePlain(owner: Option<string>, lookup: Lookup) {
    && (owner.Some? ==> Plain(ToUpper(owner.value)))
    && (forall t :: lookup(t).Some? ==> Plain(ToUpper(lookup(t).value)))
  }

  /** An ACE whose canonical form grants full control to `x` is an allow ACE whose trustee is `x`. */
  lemma CanonicalIsFullControl(ace: string, owner: Option<string>, lookup: Lookup, x: string)
    requires SidsArePlain(owner, lookup) && Plain(x) && ToUpper(x) == x
    requires CanonicalAce(ace, owner, lookup) == "(" + FullControlText(x) + ")"
    ensures var f := Fields(ace); |f| == 6 && f[0] == "A" && Trustee(f[5], owner, lookup) == x
  {
    var f := Fields(ace);
    if |f| < 6 {
      var u := ToUpper(TrimSpace(ace));
      FullControlFields(x);
      UpperTrimmed(ace);
      assert false;
    } else {
      var g := f[5 := Trustee(f[5], owner, lookup)];
      assert "(" + Join(g) + ")" == "(" + FullControlText(x) + ")";
      assert Join(g) == ("(" + Join(g) + ")")[1..|Join(g)| + 1];
      assert FullControlText(x) == ("(" + FullControlText(x) + ")")[1..|FullControlText(x)| + 1];
      JoinFullControl(x);
      SplitParts(TrimParens(ToUpper(TrimSpace(ace))));
      TrusteeNoSemi(f[5], owner, lookup);
      SplitJoin(g);
      SplitJoin(FullControl(x)) by {
        forall i | 0 <= i < 6 ensures NoSemi(FullControl(x)[i]) {
        }
      }
      assert g == FullControl(x);
      assert g[5] == FullControl(x)[5] && f[0] == g[0];
    }
  }

  lemma UpperTrimmed(s: string)
    ensures var u := ToUpper(TrimSpace(s)); ToUpper(TrimSpace(u)) == u
  {
    var t := TrimSpace(s);
    var u := ToUpper(t);
    assert forall i :: 0 <= i < |t| ==> (IsSpace(u[i]) <==> IsSpace(t[i]));
    assert TrimSpace(u) == u;
  }

  lemma TrusteeNoSemi(t: string, owner: Option<string>, lookup: Lookup)
    requires SidsArePlain(owner, lookup) && NoSemi(t)
    ensures NoSemi(Trustee(t, owner, lookup))
  {
  }

  // ---- splitting ----

  /** The change in nesting from position `i` to position `j`. */
  function Net(s: string, i: nat, j: nat): int
    requires i <= j <= |s|
    decreases j
  {
    if i == j then 0 else Net(s, i, j - 1) + DepthChange(s[j - 1])
  }

  /** One parenthesised group: the nesting returns to zero at its end and not before. */
  predicate IsAce(a: string) {
    |a| >= 2 && a[0] == '(' && Net(a, 0, |a|) == 0 && forall k :: 0 < k < |a| ==> Net(a, 0, k) > 0
  }

  predicate AllAces(aces: seq<string>) {
    forall i :: 0 <= i < |aces| ==> IsAce(aces[i])
  }

  function Concat(aces: seq<string>): string {
    if aces == [] then "" else aces[0] + Concat(aces[1..])
  }

  /** `a` occurs in `s` at position `i`. */
  predicate At(s: string, i: nat, a: string) {
    i + |a| <= |s| && forall k :: 0 <= k < |a| ==> s[i + k] == a[k]
  }

  lemma {:induction false} NetShift(s: string, i: nat, a: string, k: nat)
    requires At(s, i, a) && k <= |a|
    ensures Net(s, i, i + k) == Net(a, 0, k)
  {
    if k > 0 {
      NetShift(s, i, a, k - 1);
    }
  }

  lemma {:induction false} NetSplit(s: string, i: nat, m: nat, j: nat)
    requires i <= m <= j <= |s|
    ensures Net(s, i, j) == Net(s, i, m) + Net(s, m, j)
    decreases j
  {
    if m < j {
      NetSplit(s, i, m, j - 1);
    }
  }

  lemma ConcatAt(s: string, i: nat, aces: seq<string>)
    requires At(s, i, Concat(aces)) && aces != []
    ensures At(s, i, aces[0]) && At(s, i + |aces[0]|, Concat(aces[1..]))
    ensures i + |Concat(aces)| == i + |aces[0]| + |Concat(aces[1..])|
  {
    AtBoth(s, i, aces[0], Concat(aces[1..]));
  }

  lemma AtBoth(s: string, i: nat, a: string, b: string)
    requires At(s, i, a + b)
    ensures At(s, i, a) && At(s, i + |a|, b)
  {
    var j := i + |a|;
    assert s[i..j] == (a + b)[..|a|];
    assert s[j..j + |b|] == (a + b)[|a|..];
  }

  lemma AceEnds(a: string)
    requires IsAce(a)
    ensures a[|a| - 1] == ')' && Net(a, 0, |a| - 1) == 1
  {
  }

  /** Inside a group the scan only moves on; at its end the group is recorded. */
  lemma {:induction false} ScanInside(rest: string, start: nat, k: nat, a: string, aces: seq<string>)
    requires At(rest, start, a) && IsAce(a) && 0 < k < |a|
    ensures Scan(rest, start + k, Net(a, 0, k), start, aces) == Scan(rest, start + |a|, 0, start, aces + [a])
    decreases |a| - k
  {
    assert rest[start + k] == a[k];
    if k + 1 < |a| {
      ScanInside(rest, start, k + 1, a, aces);
    } else {
      AceEnds(a);
      assert rest[start..start + |a|] == a;
    }
  }

  lemma {:induction false} ScanAll(rest: string, pos: nat, start: nat, found: seq<string>, aces: seq<string>)
    requires start <= pos && At(rest, pos, Concat(aces)) && pos + |Concat(aces)| == |rest| && AllAces(aces)
    ensures Scan(rest, pos, 0, start, found) == found + aces
    decreases |aces|
  {
    if aces != [] {
      var a := aces[0];
      ConcatAt(rest, pos, aces);
      assert rest[pos] == a[0] == '(';
      assert Net(a, 0, 1) == 1;
      ScanInside(rest, pos, 1, a, found);
      ScanAll(rest, pos + |a|, pos, found + [a], aces[1..]);
      assert found + [a] + aces[1..] == found + aces;
    }
  }

  /** splitDACL recovers the flags and the ACEs, in order, from any DACL put together from them. */
  lemma SplitRecovers(flags: string, aces: seq<string>)
    requires '(' !in flags && AllAces(aces)
    ensures SplitDacl("D:" + flags + Concat(aces)) == (flags, aces)
  {
    AfterMark(flags, Concat(aces));
    SplitBody(flags, aces);
  }

  lemma AfterMark(a: string, b: string)
    ensures HasPrefix("D:" + a + b, "D:") && ("D:" + a + b)[2..] == a + b
  {
  }

  lemma SplitBody(flags: string, aces: seq<string>)
    requires '(' !in flags && AllAces(aces)
    ensures var body := flags + Concat(aces);
            var i := IndexOfParen(body);
            if i < 0 then body == flags && aces == [] else body[..i] == flags && Scan(body[i..], 0, 0, 0, []) == aces
  {
    var body := flags + Concat(aces);
    if aces != [] {
      var i := |flags|;
      assert body[i] == aces[0][0] == '(';
      assert IndexOfParen(body) == i;
      assert body[i..] == Concat(aces) && body[..i] == flags;
      ScanAll(Concat(aces), 0, 0, [], aces);
      assert [] + aces == aces;
    }
  }

  // ---- finding the DACL ----

  predicate MatchAt(s: string, prefix: string, k: nat) {
    k + |prefix| <= |s| && s[k..k + |prefix|] == prefix
  }

  lemma MatchChars(s: string, prefix: string, k: nat)
    requires MatchAt(s, prefix, k)
    ensures forall m :: 0 <= m < |prefix| ==> s[k + m] == prefix[m]
  {
    forall m | 0 <= m < |prefix| ensures s[k + m] == prefix[m] {
      assert s[k..k + |prefix|][m] == prefix[m];
    }
  }

  /** Positions that cannot start the component are passed over. */
  lemma {:induction false} SkipTo(s: string, prefix: string, i: nat, j: nat, depth: int)
    requires i <= j <= |s|
    requires forall k :: i <= k < j ==> depth + Net(s, i, k + 1) != 0 || !MatchAt(s, prefix, k)
    ensures ComponentFrom(s, prefix, i, depth) == ComponentFrom(s, prefix, j, depth + Net(s, i, j))
    decreases j - i
  {
    if i < j {
      var d := depth + DepthChange(s[i]);
      assert Net(s, i, i + 1) == DepthChange(s[i]);
      assert d != 0 || !MatchAt(s, prefix, i);
      forall k | i + 1 <= k < j ensures d + Net(s, i + 1, k + 1) != 0 || !MatchAt(s, prefix, k) {
        NetSplit(s, i, i + 1, k + 1);
      }
      NetSplit(s, i, i + 1, j);
      SkipTo(s, prefix, i + 1, j, d);
    }
  }

  lemma {:induction false} SkipAces(s: string, prefix: string, i: nat, aces: seq<string>)
    requires prefix != "" && !Paren(prefix[0]) && At(s, i, Concat(aces)) && AllAces(aces)
    ensures ComponentFrom(s, prefix, i, 0) == ComponentFrom(s, prefix, i + |Concat(aces)|, 0)
    decreases |aces|
  {
    if aces != [] {
      ConcatAt(s, i, aces);
      var j := i + |aces[0]|;
      assert AllAces(aces[1..]) && i + |Concat(aces)| == j + |Concat(aces[1..])|;
      SkipAces(s, prefix, j, aces[1..]);
      SkipAce(s, prefix, i, aces[0]);
    }
  }

  lemma SkipAce(s: string, prefix: string, i: nat, a: string)
    requires prefix != "" && !Paren(prefix[0]) && At(s, i, a) && IsAce(a)
    ensures ComponentFrom(s, prefix, i, 0) == ComponentFrom(s, prefix, i + |a|, 0)
  {
    forall k | i <= k < i + |a| ensures Net(s, i, k + 1) != 0 || !MatchAt(s, prefix, k) {
      NetShift(s, i, a, k + 1 - i);
      if k + 1 == i + |a| {
        AceEnds(a);
        assert s[k] == s[i + (|a| - 1)] == ')';
        if MatchAt(s, prefix, k) {
          MatchChars(s, prefix, k);
          assert false;
        }
      }
    }
    SkipTo(s, prefix, i, i + |a|, 0);
    NetShift(s, i, a, |a|);
  }

  /** A stretch without parentheses in which the two characters do not follow one another. */
  predicate Free(s: string, c: char, d: char) {
    (forall i :: 0 <= i < |s| ==> !Paren(s[i])) && (forall i :: 0 < i < |s| ==> !(s[i - 1] == c && s[i] == d))
  }

  lemma {:induction false} FlatNet(s: string, i: nat, j: nat)
    requires i <= j <= |s| && forall k :: i <= k < j ==> !Paren(s[k])
    ensures Net(s, i, j) == 0
    decreases j
  {
    if i < j {
      FlatNet(s, i, j - 1);
    }
  }

  lemma SkipFree(s: string, c: char, d: char, i: nat, free: string)
    requires Free(free, c, d) && At(s, i, free) && (i + |free| < |s| ==> s[i + |free|] != d)
    ensures ComponentFrom(s, [c, d], i, 0) == ComponentFrom(s, [c, d], i + |free|, 0)
  {
    var j := i + |free|;
    forall k | i <= k < j ensures !Paren(s[k]) && !MatchAt(s, [c, d], k) {
      assert s[k] == free[k - i];
      if k + 1 < j {
        assert s[k + 1] == s[i + (k + 1 - i)] == free[k + 1 - i];
      }
    }
    SkipTo(s, [c, d], i, j, 0);
    FlatNet(s, i, j);
  }

  lemma FindSacl(flags: string, aces: seq<string>, sacl: string)
    requires Free(flags, 'S', ':') && AllAces(aces) && (sacl == "" || HasPrefix(sacl, "S:"))
    ensures IndexComponent(flags + Concat(aces) + sacl, "S:") == if sacl == "" then -1 else |flags + Concat(aces)|
  {
    var s := flags + Concat(aces) + sacl;
    var i, j := |flags|, |flags + Concat(aces)|;
    PartsAt(flags, Concat(aces), sacl);
    AfterFlags(s, i, aces, sacl);
    assert "S:" == ['S', ':'];
    SkipFree(s, 'S', ':', 0, flags);
    SkipAces(s, "S:", i, aces);
    SaclHere(s, j, sacl);
  }

  lemma PartsAt(a: string, b: string, c: string)
    ensures At(a + b + c, 0, a) && At(a + b + c, |a|, b) && At(a + b + c, |a + b|, c)
  {
  }

  lemma AfterFlags(s: string, i: nat, aces: seq<string>, sacl: string)
    requires At(s, i, Concat(aces)) && At(s, i + |Concat(aces)|, sacl) && i + |Concat(aces)| + |sacl| == |s|
    requires AllAces(aces) && (sacl == "" || HasPrefix(sacl, "S:"))
    ensures i < |s| ==> s[i] != ':'
  {
    if aces != [] {
      ConcatAt(s, i, aces);
      assert s[i + 0] == aces[0][0];
    } else if sacl != "" {
      assert s[i + 0] == sacl[0] == sacl[..2][0];
    }
  }

  lemma SaclHere(s: string, j: nat, sacl: string)
    requires At(s, j, sacl) && j + |sacl| == |s| && (sacl == "" || HasPrefix(sacl, "S:"))
    ensures ComponentFrom(s, "S:", j, 0) == if sacl == "" then -1 else j
  {
    if sacl != "" {
      assert sacl[0] == sacl[..2][0] == 'S' && sacl[1] == sacl[..2][1] == ':';
      assert s[j + 0] == 'S' && s[j + 1] == ':';
      assert s[j..j + 2] == "S:";
    }
  }

  /** extractDACL finds the DACL between the components before it and an optional SACL after it. */
  lemma ExtractRecovers(before: string, flags: string, aces: seq<string>, sacl: string)
    requires Free(before, 'D', ':') && Free(flags, 'S', ':') && AllAces(aces)
    requires sacl == "" || HasPrefix(sacl, "S:")
    ensures ExtractDacl(before + ("D:" + (flags + Concat(aces) + sacl))) == "D:" + (flags + Concat(aces))
  {
    var body := flags + Concat(aces);
    var rest := "D:" + (body + sacl);
    var s := before + rest;
    var i := |before|;
    assert At(s, 0, before) && s[i] == 'D' && s[i..] == rest && s[i..i + 2] == "D:";
    assert "D:" == ['D', ':'];
    SkipFree(s, 'D', ':', 0, before);
    assert IndexComponent(s, "D:") == i;
    assert rest[2..] == body + sacl;
    FindSacl(flags, aces, sacl);
    if sacl == "" {
      assert body + sacl == body;
    } else {
      assert rest[..|body| + 2] == "D:" + body;
    }
  }

  // ---- private means nobody else, except for SYSTEM ----

  lemma {:induction false} UpperTwice(s: string)
    ensures ToUpper(ToUpper(s)) == ToUpper(s)
  {
    assert forall i :: 0 <= i < |s| ==> ToUpper(ToUpper(s))[i] == ToUpper(s)[i];
  }

  lemma WantedLiterals()
    ensures ToUpper("OW") == "OW" && ToUpper("SY") == "SY" && ToUpper("S-1-5-18") == "S-1-5-18"
    ensures Plain("OW") && Plain("SY") && Plain("S-1-5-18")
    ensures OWNER_ACE == "(" + FullControlText("OW") + ")" && SYSTEM_ACE == "(" + FullControlText("SY") + ")"
  {
  }

  lemma WantedNames(owner: Option<string>, lookup: Lookup)
    requires SidsArePlain(owner, lookup)
    ensures var o, y := Trustee("OW", owner, lookup), Trustee("SY", owner, lookup);
            Plain(o) && ToUpper(o) == o && Plain(y) && ToUpper(y) == y
  {
    WantedLiterals();
    if owner.Some? {
      UpperTwice(owner.value);
    }
  }

  /** The ACEs the private DACL is meant to have. */
  lemma WantedAces(owner: Option<string>, lookup: Lookup)
    ensures CanonicalAce(OWNER_ACE, owner, lookup) == "(" + FullControlText(Trustee("OW", owner, lookup)) + ")"
    ensures CanonicalAce(SYSTEM_ACE, owner, lookup) == "(" + FullControlText(Trustee("SY", owner, lookup)) + ")"
  {
    WantedLiterals();
    WantedAce("OW", owner, lookup);
    WantedAce("SY", owner, lookup);
  }

  lemma TextsDiffer(a: string, b: string)
    requires a != b
    ensures "(" + FullControlText(a) + ")" != "(" + FullControlText(b) + ")"
  {
    var p, q := "(" + FullControlText(a) + ")", "(" + FullControlText(b) + ")";
    assert p[13..|p| - 1] == a && q[13..|q| - 1] == b;
  }

  lemma PairIsAll<T>(s: set<T>, a: T, b: T)
    requires a in s && b in s && a != b && |s| == 2
    ensures s == {a, b}
  {
    assert |s - {a}| == 1;
    assert |s - {a} - {b}| == 0;
  }

  /** A DACL that counts as private names nobody foreign, unless the owner is SYSTEM itself. */
  lemma PrivateNamesNobodyForeign(sddl: string, owner: Option<string>, lookup: Lookup)
    requires SidsArePlain(owner, lookup) && Trustee("OW", owner, lookup) != Trustee("SY", owner, lookup)
    requires IsPrivateDacl(sddl, owner, lookup)
    ensures NoForeignTrustee(sddl, owner, lookup)
  {
    AllAcesHarmless(SplitDacl(ExtractDacl(sddl)).1, owner, lookup);
  }

  lemma AllAcesHarmless(aces: seq<string>, owner: Option<string>, lookup: Lookup)
    requires SidsArePlain(owner, lookup) && Trustee("OW", owner, lookup) != Trustee("SY", owner, lookup)
    requires var got := CanonicalAces(aces, owner, lookup);
             CanonicalAce(OWNER_ACE, owner, lookup) in got && CanonicalAce(SYSTEM_ACE, owner, lookup) in got && |got| == 2
    ensures forall i :: 0 <= i < |aces| ==> Offender(aces[i], owner, lookup).None?
  {
    var p, q := CanonicalAce(OWNER_ACE, owner, lookup), CanonicalAce(SYSTEM_ACE, owner, lookup);
    WantedDiffer(owner, lookup);
    forall i | 0 <= i < |aces| ensures Offender(aces[i], owner, lookup).None? {
      OneOfTwo(aces, owner, lookup, p, q, i);
      LikeWantedIsHarmless(aces[i], owner, lookup);
    }
  }

  lemma OneOfTwo(aces: seq<string>, owner: Option<string>, lookup: Lookup, p: string, q: string, i: nat)
    requires p != q && p in CanonicalAces(aces, owner, lookup) && q in CanonicalAces(aces, owner, lookup)
    requires |CanonicalAces(aces, owner, lookup)| == 2 && i < |aces|
    ensures CanonicalAce(aces[i], owner, lookup) == p || CanonicalAce(aces[i], owner, lookup) == q
  {
    var got := CanonicalAces(aces, owner, lookup);
    PairIsAll(got, p, q);
    assert CanonicalAce(aces[i], owner, lookup) in got;
  }

  lemma WantedDiffer(owner: Option<string>, lookup: Lookup)
    requires Trustee("OW", owner, lookup) != Trustee("SY", owner, lookup)
    ensures CanonicalAce(OWNER_ACE, owner, lookup) != CanonicalAce(SYSTEM_ACE, owner, lookup)
  {
    WantedAces(owner, lookup);
    TextsDiffer(Trustee("OW", owner, lookup), Trustee("SY", owner, lookup));
  }

  lemma LikeWantedIsHarmless(ace: string, owner: Option<string>, lookup: Lookup)
    requires SidsArePlain(owner, lookup)
    requires || CanonicalAce(ace, owner, lookup) == CanonicalAce(OWNER_ACE, owner, lookup)
             || CanonicalAce(ace, owner, lookup) == CanonicalAce(SYSTEM_ACE, owner, lookup)
    ensures Offender(ace, owner, lookup).None?
  {
    WantedNames(owner, lookup);
    WantedAces(owner, lookup);
    if CanonicalAce(ace, owner, lookup) == CanonicalAce(OWNER_ACE, owner, lookup) {
      WantedIsHarmless(ace, owner, lookup, Trustee("OW", owner, lookup));
    } else {
      WantedIsHarmless(ace, owner, lookup, Trustee("SY", owner, lookup));
    }
  }

  lemma WantedIsHarmless(ace: string, owner: Option<string>, lookup: Lookup, x: string)
    requires SidsArePlain(owner, lookup) && x in Tolerable(owner, lookup) && Plain(x) && ToUpper(x) == x
    requires CanonicalAce(ace, owner, lookup) == "(" + FullControlText(x) + ")"
    ensures Offender(ace, owner, lookup).None?
  {
    CanonicalIsFullControl(ace, owner, lookup, x);
  }

  const EVERYONE := "S-1-1-0"
  const EVERYONE_ACE := "(A;OICI;FA;;;S-1-1-0)"

  /** Full control for SYSTEM and for everyone. */
  const OPEN_SDDL := "D:" + ("P" + (SYSTEM_ACE + EVERYONE_ACE))

  lemma {:induction false} InsideDepth(s: string, k: nat)
    requires 1 <= k < |s| && s[0] == '(' && forall i :: 1 <= i < |s| - 1 ==> !Paren(s[i])
    ensures Net(s, 0, k) == 1
  {
    if k == 1 {
      assert Net(s, 0, 0) == 0;
    } else {
      InsideDepth(s, k - 1);
    }
  }

  lemma WrappedIsAce(inner: string)
    requires forall i :: 0 <= i < |inner| ==> !Paren(inner[i])
    ensures IsAce("(" + inner + ")")
  {
    var s := "(" + inner + ")";
    forall k | 0 < k < |s| ensures Net(s, 0, k) > 0 {
      InsideDepth(s, k);
    }
    InsideDepth(s, |s| - 1);
  }

  lemma OpenAces()
    ensures AllAces([SYSTEM_ACE, EVERYONE_ACE])
    ensures EVERYONE_ACE == "(" + FullControlText(EVERYONE) + ")" && Plain(EVERYONE) && ToUpper(EVERYONE) == EVERYONE
  {
    WantedLiterals();
    assert EVERYONE_ACE == "(" + FullControlText(EVERYONE) + ")";
    WrappedIsAce(FullControlText("SY"));
    WrappedIsAce(FullControlText(EVERYONE));
  }

  lemma OpenSplits()
    ensures ExtractDacl(OPEN_SDDL) != "" && SplitDacl(ExtractDacl(OPEN_SDDL)) == ("P", [SYSTEM_ACE, EVERYONE_ACE])
  {
    var aces := [SYSTEM_ACE, EVERYONE_ACE];
    OpenAces();
    OpenText();
    assert ExtractDacl(OPEN_SDDL) == "D:" + "P" + Concat(aces) by {
      ExtractRecovers("", "P", aces, "");
    }
    SplitRecovers("P", aces);
  }

  lemma OpenText()
    ensures var body := "P" + Concat([SYSTEM_ACE, EVERYONE_ACE]);
            OPEN_SDDL == "" + ("D:" + (body + "")) && "D:" + body == "D:" + "P" + Concat([SYSTEM_ACE, EVERYONE_ACE])
  {
    var aces := [SYSTEM_ACE, EVERYONE_ACE];
    assert aces[1..] == [EVERYONE_ACE] && [EVERYONE_ACE][1..] == [];
    assert Concat([EVERYONE_ACE]) == EVERYONE_ACE + Concat([]) == EVERYONE_ACE;
    assert Concat(aces) == SYSTEM_ACE + EVERYONE_ACE;
  }

  lemma TwoForms(a: string, b: string, owner: Option<string>, lookup: Lookup)
    requires CanonicalAce(a, owner, lookup) != CanonicalAce(b, owner, lookup)
    ensures CanonicalAces([a, b], owner, lookup) == {CanonicalAce(a, owner, lookup), CanonicalAce(b, owner, lookup)}
  {
    var aces := [a, b];
    assert aces[0] == a && aces[1] == b;
  }

  /** When the owner is SYSTEM, a DACL open to everyone counts as private. */
  lemma OpenCountsAsPrivate(owner: Option<string>, lookup: Lookup)
    requires Trustee("OW", owner, lookup) == Trustee("SY", owner, lookup)
    ensures IsPrivateDacl(OPEN_SDDL, owner, lookup)
    ensures !NoForeignTrustee(OPEN_SDDL, owner, lookup)
    ensures ForeignTrustees(OPEN_SDDL, owner, lookup) == [EVERYONE]
  {
    OpenSplits();
    OpenForms(owner, lookup);
    OpenOffends(owner, lookup);
    TwoAces(OPEN_SDDL, SYSTEM_ACE, EVERYONE_ACE, owner, lookup);
    SecondOffends(OPEN_SDDL, SYSTEM_ACE, EVERYONE_ACE, owner, lookup);
  }

  /** A protected list of two entries passes when the first is both wanted entries at once, whatever the second is. */
  lemma {:induction false} TwoAces(sddl: string, a: string, b: string, owner: Option<string>, lookup: Lookup)
    requires ExtractDacl(sddl) != "" && SplitDacl(ExtractDacl(sddl)) == ("P", [a, b])
    requires CanonicalAce(OWNER_ACE, owner, lookup) == CanonicalAce(SYSTEM_ACE, owner, lookup) == CanonicalAce(a, owner, lookup)
    requires CanonicalAce(a, owner, lookup) != CanonicalAce(b, owner, lookup)
    ensures IsPrivateDacl(sddl, owner, lookup)
  {
    TwoForms(a, b, owner, lookup);
    var got := CanonicalAces([a, b], owner, lookup);
    assert CanonicalAce(a, owner, lookup) in got && |got| == 2;
  }

  lemma SecondOffends(sddl: string, a: string, b: string, owner: Option<string>, lookup: Lookup)
    requires ExtractDacl(sddl) != "" && SplitDacl(ExtractDacl(sddl)) == ("P", [a, b]) && Offender(b, owner, lookup).Some?
    ensures !NoForeignTrustee(sddl, owner, lookup)
    ensures ForeignTrustees(sddl, owner, lookup) == Offenders([a, b], owner, lookup)
  {
    assert SplitDacl(ExtractDacl(sddl)).1[1] == b;
  }

  lemma OpenForms(owner: Option<string>, lookup: Lookup)
    requires Trustee("OW", owner, lookup) == Trustee("SY", owner, lookup)
    ensures CanonicalAce(OWNER_ACE, owner, lookup) == CanonicalAce(SYSTEM_ACE, owner, lookup)
    ensures CanonicalAce(SYSTEM_ACE, owner, lookup) != CanonicalAce(EVERYONE_ACE, owner, lookup)
  {
    OpenAces();
    WantedAces(owner, lookup);
    WantedAce(EVERYONE, owner, lookup);
    EveryoneStays(owner, lookup);
    TextsDiffer(Trustee("SY", owner, lookup), EVERYONE);
  }

  lemma EveryoneStays(owner: Option<string>, lookup: Lookup)
    ensures Trustee(EVERYONE, owner, lookup) == EVERYONE
  {
    assert EVERYONE[..2] == "S-";
  }

  lemma OpenOffends(owner: Option<string>, lookup: Lookup)
    requires Trustee("OW", owner, lookup) == Trustee("SY", owner, lookup)
    ensures Offender(EVERYONE_ACE, owner, lookup) == Some(EVERYONE) && Offender(SYSTEM_ACE, owner, lookup) == None
    ensures Offenders([SYSTEM_ACE, EVERYONE_ACE], owner, lookup) == [EVERYONE]
  {
    EveryoneOffends(owner, lookup);
    SystemIsHarmless(owner, lookup);
    TwoOffenders(SYSTEM_ACE, EVERYONE_ACE, owner, lookup);
  }

  lemma EveryoneOffends(owner: Option<string>, lookup: Lookup)
    requires Trustee("OW", owner, lookup) == Trustee("SY", owner, lookup)
    ensures Offender(EVERYONE_ACE, owner, lookup) == Some(EVERYONE)
  {
    OpenAces();
    FullControlFields(EVERYONE);
    EveryoneStays(owner, lookup);
    assert "A"[..1] == "A";
  }

  lemma SystemIsHarmless(owner: Option<string>, lookup: Lookup)
    ensures Offender(SYSTEM_ACE, owner, lookup) == None
  {
    WantedLiterals();
    FullControlFields("SY");
    assert "A"[..1] == "A";
  }

  lemma TwoOffenders(a: string, b: string, owner: Option<string>, lookup: Lookup)
    requires Offender(a, owner, lookup) == None && Offender(b, owner, lookup).Some?
    ensures Offenders([a, b], owner, lookup) == [Offender(b, owner, lookup).value]
  {
    assert [a, b][..1] == [a] && [a][..0] == [];
    assert Offenders([a], owner, lookup) == [];
  }

  /**
    "Private" implies "no foreign trustee" for every descriptor if and only if the owner is not SYSTEM: for that
    owner the two wanted ACEs coincide, so the set of two may hold one of anybody else's.
   */
  lemma PrivateMeansNobodyForeignIff(owner: Option<string>, lookup: Lookup)
    requires SidsArePlain(owner, lookup)
    ensures (forall sddl :: IsPrivateDacl(sddl, owner, lookup) ==> NoForeignTrustee(sddl, owner, lookup))
            <==> !(owner.Some? && ToUpper(owner.value) == "S-1-5-18")
  {
    if owner.Some? && ToUpper(owner.value) == "S-1-5-18" {
      OpenCountsAsPrivate(owner, lookup);
    } else {
      forall sddl | IsPrivateDacl(sddl, owner, lookup) ensures NoForeignTrustee(sddl, owner, lookup) {
        PrivateNamesNobodyForeign(sddl, owner, lookup);
      }
    }
  }
}
