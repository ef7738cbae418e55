/** The descriptor checks as the loops they are. */
module SddlChecks {
  import opened Common
  import opened GoStrings
  import opened Sddl

  method FindComponent(s: string, prefix: string) returns (r: int)
    ensures r == IndexComponent(s, prefix)
  {
    var depth := 0;
    var i := 0;
    while i < |s|
      invariant 0 <= i <= |s|
      invariant ComponentFrom(s, prefix, i, depth) == IndexComponent(s, prefix)
    {
      if s[i] == '(' {
        depth := depth + 1;
      } else if s[i] == ')' {
        depth := depth - 1;
      }
      if depth == 0 && i + |prefix| <= |s| && s[i..i + |prefix|] == prefix { return i; }
      i := i + 1;
    }
    return -1;
  }

  method CutDacl(sddl: string) returns (dacl: string)
    ensures dacl == ExtractDacl(sddl)
  {
    var i := FindComponent(sddl, "D:");
    if i < 0 { return ""; }
    var rest := sddl[i..];
    var j := FindComponent(rest[2..], "S:");
    if j >= 0 { return rest[..j + 2]; }
    return rest;
  }

  method SplitFlags(dacl: string) returns (flags: string, aces: seq<string>)
    ensures (flags, aces) == SplitDacl(dacl)
  {
    var body := if HasPrefix(dacl, "D:") then dacl[2..] else dacl;
    var i := IndexOfParen(body);
    if i < 0 { return body, []; }
    flags := body[..i];
    var rest := body[i..];
    aces := [];
    var depth, start, k := 0, 0, 0;
    while k < |rest|
      invariant 0 <= start <= k <= |rest|
      invariant Scan(rest, k, depth, start, aces) == Scan(rest, 0, 0, 0, [])
    {
      if rest[k] == '(' {
        if depth == 0 {
          start := k;
        }
        depth := depth + 1;
      } else if rest[k] == ')' {
        depth := depth - 1;
        if depth == 0 {
          aces := aces + [rest[start..k + 1]];
        }
      }
      k := k + 1;
    }
  }

  /** Looks for an ACE that cannot be read or that lets somebody foreign in. */
  method NoneOffends(aces: seq<string>, owner: Option<string>, lookup: Lookup) returns (ok: bool)
    ensures ok <==> forall i :: 0 <= i < |aces| ==> Offender(aces[i], owner, lookup).None?
  {
    var allowed := Tolerable(owner, lookup);
    var k := 0;
    while k < |aces|
      invariant 0 <= k <= |aces|
      invariant forall i :: 0 <= i < k ==> Offender(aces[i], owner, lookup).None?
    {
      var fields := Fields(aces[k]);
      if |fields| < 6 { return false; }
      if HasPrefix(fields[0], "A") && Trustee(fields[5], owner, lookup) !in allowed { return false; }
      k := k + 1;
    }
    return true;
  }

  method CheckNoForeign(sddl: string, owner: Option<string>, lookup: Lookup) returns (ok: bool)
    ensures ok == NoForeignTrustee(sddl, owner, lookup)
  {
    var dacl := CutDacl(sddl);
    if dacl == "" { return false; }
    var flags, aces := SplitFlags(dacl);
    ok := NoneOffends(aces, owner, lookup);
  }

  ghost predicate SameNames(seen: set<string>, out: seq<string>) {
    forall t :: t in seen <==> t in out
  }

  /** Adds the ACE's offender, if it has one that was not listed before. */
  method Note(ace: string, owner: Option<string>, lookup: Lookup, seen: set<string>, out: seq<string>)
    returns (seen': set<string>, out': seq<string>)
    requires SameNames(seen, out)
    ensures out' == AddNew(out, Offender(ace, owner, lookup)) && SameNames(seen', out')
  {
    seen', out' := seen, out;
    var fields := Fields(ace);
    if |fields| < 6 {
      if "?" !in seen {
        seen', out' := seen + {"?"}, out + ["?"];
      }
    } else if HasPrefix(fields[0], "A") {
      var t := Trustee(fields[5], owner, lookup);
      if t !in Tolerable(owner, lookup) && t !in seen {
        seen', out' := seen + {t}, out + [t];
      }
    }
  }

  method ListForeign(sddl: string, owner: Option<string>, lookup: Lookup) returns (out: seq<string>)
    ensures out == ForeignTrustees(sddl, owner, lookup)
  {
    var dacl := CutDacl(sddl);
    if dacl == "" { return ["S-1-1-0"]; }
    var flags, aces := SplitFlags(dacl);
    out := ListOffenders(aces, owner, lookup);
  }

  lemma OffendersAppend(aces: seq<string>, k: nat, owner: Option<string>, lookup: Lookup)
    requires k < |aces|
    ensures Offenders(aces[..k + 1], owner, lookup)
         == AddNew(Offenders(aces[..k], owner, lookup), Offender(aces[k], owner, lookup))
  {
    assert aces[..k + 1][..k] == aces[..k];
  }

  method ListOffenders(aces: seq<string>, owner: Option<string>, lookup: Lookup) returns (out: seq<string>)
    ensures out == Offenders(aces, owner, lookup)
  {
    out := [];
    var seen: set<string> := {};
    var k := 0;
    while k < |aces|
      invariant 0 <= k <= |aces|
      invariant out == Offenders(aces[..k], owner, lookup)
      invariant SameNames(seen, out)
    {
      OffendersAppend(aces, k, owner, lookup);
      seen, out := Note(aces[k], owner, lookup, seen, out);
      k := k + 1;
    }
    assert aces[..k] == aces;
  }

  lemma CanonicalAppend(aces: seq<string>, k: nat, owner: Option<string>, lookup: Lookup)
    requires k < |aces|
    ensures CanonicalAces(aces[..k + 1], owner, lookup)
         == CanonicalAces(aces[..k], owner, lookup) + {CanonicalAce(aces[k], owner, lookup)}
  {
    forall x | x in CanonicalAces(aces[..k + 1], owner, lookup)
      ensures x in CanonicalAces(aces[..k], owner, lookup) + {CanonicalAce(aces[k], owner, lookup)}
    {
      var i :| 0 <= i <= k && x == CanonicalAce(aces[..k + 1][i], owner, lookup);
      if i < k {
        assert aces[..k][i] == aces[..k + 1][i];
      }
    }
    forall x | x in CanonicalAces(aces[..k], owner, lookup)
      ensures x in CanonicalAces(aces[..k + 1], owner, lookup)
    {
      var i :| 0 <= i < k && x == CanonicalAce(aces[..k][i], owner, lookup);
      assert aces[..k + 1][i] == aces[..k][i];
    }
    assert aces[..k + 1][k] == aces[k];
  }

  method CanonicalForms(aces: seq<string>, owner: Option<string>, lookup: Lookup) returns (got: set<string>)
    ensures got == CanonicalAces(aces, owner, lookup)
  {
    got := {};
    var k := 0;
    while k < |aces|
      invariant 0 <= k <= |aces|
      invariant got == CanonicalAces(aces[..k], owner, lookup)
    {
      CanonicalAppend(aces, k, owner, lookup);
      got := got + {CanonicalAce(aces[k], owner, lookup)};
      k := k + 1;
    }
    assert aces[..k] == aces;
  }

  method CheckPrivate(sddl: string, owner: Option<string>, lookup: Lookup) returns (ok: bool)
    ensures ok == IsPrivateDacl(sddl, owner, lookup)
  {
    var dacl := CutDacl(sddl);
    if dacl == "" { return false; }
    var flags, aces := SplitFlags(dacl);
    if 'P' !in flags { return false; }
    var got := CanonicalForms(aces, owner, lookup);
    if CanonicalAce(OWNER_ACE, owner, lookup) !in got || CanonicalAce(SYSTEM_ACE, owner, lookup) !in got { return false; }
    return |got| == 2;
  }
}
