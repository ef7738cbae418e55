/** The descriptor checks in terms of the accounts themselves: who may be named, in literal SIDs, for whole descriptors. */
module SddlAccess {
  import opened Common
  import opened GoStrings
  import opened Sddl
  import opened SddlProofs

  // ---- one entry ----

  function Entry(fields: seq<string>): string
    requires |fields| >= 1
  {
    "(" + Join(fields) + ")"
  }

  /** Fields as Windows writes them: upper case, without separators or parentheses, and something between the outer ones. */
  predicate Written(fields: seq<string>) {
    && |fields| >= 1 && (forall i :: 0 <= i < |fields| ==> Plain(fields[i]) && ToUpper(fields[i]) == fields[i])
    && (|fields| == 1 ==> fields[0] != "")
  }

  lemma {:induction false} JoinIsWritten(fields: seq<string>)
    requires |fields| >= 1 && forall i :: 0 <= i < |fields| ==> Plain(fields[i]) && ToUpper(fields[i]) == fields[i]
    ensures ToUpper(Join(fields)) == Join(fields)
    ensures forall i :: 0 <= i < |Join(fields)| ==> !Paren(Join(fields)[i])
    ensures |fields| > 1 ==> Join(fields) != ""
  {
    if |fields| > 1 {
      JoinIsWritten(fields[1..]);
      UpperConcat(fields[0], ";" + Join(fields[1..]));
      UpperConcat(";", Join(fields[1..]));
      assert Join(fields) == fields[0] + (";" + Join(fields[1..]));
    }
  }

  lemma UpperConcat(a: string, b: string)
    ensures ToUpper(a + b) == ToUpper(a) + ToUpper(b)
  {
  }

  lemma EntryReads(fields: seq<string>)
    requires Written(fields)
    ensures Fields(Entry(fields)) == fields && IsAce(Entry(fields)) && ToUpper(TrimSpace(Entry(fields))) == Entry(fields)
  {
    var inner, e := Join(fields), Entry(fields);
    JoinIsWritten(fields);
    WrappedIsAce(inner);
    UpperConcat("(", inner);
    UpperConcat("(" + inner, ")");
    assert TrimSpace(e) == e && ToUpper(e) == e;
    TrimWrapped(inner);
    forall i | 0 <= i < |fields| ensures NoSemi(fields[i]) {
    }
    SplitJoin(fields);
  }

  /** Who may be named: the owner, SYSTEM and the administrators. */
  predicate Welcome(sid: string, owner: Option<string>) {
    sid == "S-1-5-18" || sid == "S-1-5-32-544" || (owner.Some? && sid == ToUpper(owner.value))
  }

  /** The entry can be read, and lets nobody in who is not welcome. */
  predicate Harmless(fields: seq<string>, owner: Option<string>) {
    |fields| >= 6 && (HasPrefix(fields[0], "A") ==> Welcome(fields[5], owner))
  }

  /** The trustee, if there is one, is a SID. */
  predicate NamesSid(fields: seq<string>) {
    |fields| >= 6 ==> HasPrefix(fields[5], "S-")
  }

  lemma SidIsItself(t: string, owner: Option<string>, lookup: Lookup)
    requires HasPrefix(t, "S-")
    ensures Trustee(t, owner, lookup) == t
    ensures t in Tolerable(owner, lookup) <==> Welcome(t, owner)
  {
    assert t[0] == t[..2][0] == 'S' && t[1] == t[..2][1] == '-';
    assert "OW"[0] == 'O' && "CO"[0] == 'C' && "SY"[1] == 'Y' && "BA"[0] == 'B';
  }

  /** An entry offends exactly when it cannot be read or allows somebody unwelcome; entries that deny never matter. */
  lemma OffendsIff(fields: seq<string>, owner: Option<string>, lookup: Lookup)
    requires Written(fields) && NamesSid(fields)
    ensures Offender(Entry(fields), owner, lookup).None? <==> Harmless(fields, owner)
    ensures Offender(Entry(fields), owner, lookup).Some? ==>
              Offender(Entry(fields), owner, lookup).value == if |fields| < 6 then "?" else fields[5]
  {
    EntryReads(fields);
    if |fields| >= 6 {
      SidIsItself(fields[5], owner, lookup);
    }
  }

  /** An alias counts as the SID it stands for. */
  lemma AliasIsItsSid(fields: seq<string>, sid: string, owner: Option<string>, lookup: Lookup)
    requires Written(fields) && |fields| >= 6 && Written(fields[5 := sid]) && HasPrefix(sid, "S-")
    requires || (fields[5] in ["OW", "CO"] && owner.Some? && sid == ToUpper(owner.value))
             || (fields[5] == "SY" && sid == "S-1-5-18") || (fields[5] == "BA" && sid == "S-1-5-32-544")
             || (&& fields[5] !in ["OW", "CO", "SY", "BA"] && !HasPrefix(fields[5], "S-")
                 && lookup(fields[5]).Some? && sid == ToUpper(lookup(fields[5]).value))
    ensures Offender(Entry(fields), owner, lookup) == Offender(Entry(fields[5 := sid]), owner, lookup)
    ensures CanonicalAce(Entry(fields), owner, lookup) == CanonicalAce(Entry(fields[5 := sid]), owner, lookup)
  {
    EntryReads(fields);
    EntryReads(fields[5 := sid]);
    SidIsItself(sid, owner, lookup);
    AliasResolves(fields[5], sid, owner, lookup);
    assert fields[5 := sid][5 := sid] == fields[5 := sid];
  }

  lemma AliasResolves(t: string, sid: string, owner: Option<string>, lookup: Lookup)
    requires || (t in ["OW", "CO"] && owner.Some? && sid == ToUpper(owner.value))
             || (t == "SY" && sid == "S-1-5-18") || (t == "BA" && sid == "S-1-5-32-544")
             || (t !in ["OW", "CO", "SY", "BA"] && !HasPrefix(t, "S-") && lookup(t).Some? && sid == ToUpper(lookup(t).value))
    ensures Trustee(t, owner, lookup) == sid
  {
  }

  // ---- whole descriptors ----

  predicate AllWritten(entries: seq<seq<string>>) {
    forall i :: 0 <= i < |entries| ==> Written(entries[i]) && NamesSid(entries[i])
  }

  function Texts(entries: seq<seq<string>>): (r: seq<string>)
    requires AllWritten(entries)
    ensures |r| == |entries| && forall i :: 0 <= i < |r| ==> r[i] == Entry(entries[i])
  {
    seq(|entries|, i requires 0 <= i < |entries| => Entry(entries[i]))
  }

  /** Other components, then the DACL with its flags and entries, then perhaps a SACL. */
  function Descriptor(before: string, flags: string, entries: seq<seq<string>>, sacl: string): string
    requires AllWritten(entries)
  {
    before + ("D:" + (flags + Concat(Texts(entries)) + sacl))
  }

  predicate Framed(before: string, flags: string, sacl: string) {
    Free(before, 'D', ':') && Free(flags, 'S', ':') && (sacl == "" || HasPrefix(sacl, "S:"))
  }

  lemma DescriptorReads(before: string, flags: string, entries: seq<seq<string>>, sacl: string)
    requires Framed(before, flags, sacl) && AllWritten(entries)
    ensures var dacl := ExtractDacl(Descriptor(before, flags, entries, sacl));
            dacl != "" && SplitDacl(dacl) == (flags, Texts(entries))
  {
    forall i | 0 <= i < |entries| ensures IsAce(Texts(entries)[i]) {
      EntryReads(entries[i]);
    }
    ExtractRecovers(before, flags, Texts(entries), sacl);
    assert "D:" + (flags + Concat(Texts(entries))) == "D:" + flags + Concat(Texts(entries));
    assert '(' !in flags;
    SplitRecovers(flags, Texts(entries));
  }

  /**
    Who gets past the check, in literal SIDs: a descriptor names nobody foreign if and only if each of its entries
    can be read and either does not allow anything or allows the owner, SYSTEM or the administrators.
   */
  lemma NobodyForeignIff(before: string, flags: string, entries: seq<seq<string>>, sacl: string, owner: Option<string>, lookup: Lookup)
    requires Framed(before, flags, sacl) && AllWritten(entries)
    ensures NoForeignTrustee(Descriptor(before, flags, entries, sacl), owner, lookup)
            <==> forall i :: 0 <= i < |entries| ==> Harmless(entries[i], owner)
  {
    DescriptorReads(before, flags, entries, sacl);
    var texts := Texts(entries);
    forall i | 0 <= i < |entries| ensures Offender(texts[i], owner, lookup).None? <==> Harmless(entries[i], owner) {
      OffendsIff(entries[i], owner, lookup);
    }
  }

  /** The trustee that a descriptor's entry is reported for. */
  predicate ReportedFor(fields: seq<string>, t: string, owner: Option<string>) {
    if |fields| < 6 then t == "?" else HasPrefix(fields[0], "A") && !Welcome(fields[5], owner) && t == fields[5]
  }

  /** Who is reported: exactly the unwelcome trustees of entries that allow, and "?" for entries that cannot be read. */
  lemma ReportIff(before: string, flags: string, entries: seq<seq<string>>, sacl: string, owner: Option<string>, lookup: Lookup, t: string)
    requires Framed(before, flags, sacl) && AllWritten(entries)
    ensures t in ForeignTrustees(Descriptor(before, flags, entries, sacl), owner, lookup)
            <==> exists i :: 0 <= i < |entries| && ReportedFor(entries[i], t, owner)
  {
    DescriptorReads(before, flags, entries, sacl);
    var texts := Texts(entries);
    if t in Offenders(texts, owner, lookup) {
      var i := ListedOffends(texts, owner, lookup, t);
      OffendsIff(entries[i], owner, lookup);
      assert ReportedFor(entries[i], t, owner);
    }
    if i :| 0 <= i < |entries| && ReportedFor(entries[i], t, owner) {
      OffendsIff(entries[i], owner, lookup);
      OffenderIsListed(texts, owner, lookup, i);
    }
  }

  // ---- what counts as private ----

  lemma EntryIsCanonical(fields: seq<string>, owner: Option<string>, lookup: Lookup)
    requires Written(fields) && NamesSid(fields)
    ensures CanonicalAce(Entry(fields), owner, lookup) == Entry(fields)
  {
    EntryReads(fields);
    if |fields| >= 6 {
      SidIsItself(fields[5], owner, lookup);
      assert fields[5 := fields[5]] == fields;
    }
  }

  lemma EntriesDiffer(a: seq<string>, b: seq<string>)
    requires Written(a) && Written(b) && Entry(a) == Entry(b)
    ensures a == b
  {
    EntryReads(a);
    EntryReads(b);
  }

  /** An owner with a SID of its own, other than SYSTEM. */
  predicate Ordinary(sid: string) {
    HasPrefix(sid, "S-") && Plain(sid) && ToUpper(sid) == sid && sid != "S-1-5-18"
  }

  lemma WantedEntries(sid: string, lookup: Lookup)
    requires Ordinary(sid)
    ensures Written(FullControl(sid)) && Written(FullControl("S-1-5-18"))
    ensures CanonicalAce(OWNER_ACE, Some(sid), lookup) == Entry(FullControl(sid))
    ensures CanonicalAce(SYSTEM_ACE, Some(sid), lookup) == Entry(FullControl("S-1-5-18"))
    ensures Entry(FullControl(sid)) != Entry(FullControl("S-1-5-18"))
  {
    FullControlIsWritten(sid);
    WantedLiterals();
    FullControlIsWritten("S-1-5-18");
    WantedAces(Some(sid), lookup);
    JoinFullControl(sid);
    JoinFullControl("S-1-5-18");
    assert FullControl(sid)[5] != FullControl("S-1-5-18")[5];
    if Entry(FullControl(sid)) == Entry(FullControl("S-1-5-18")) {
      EntriesDiffer(FullControl(sid), FullControl("S-1-5-18"));
      assert false;
    }
  }

  lemma FullControlIsWritten(t: string)
    requires Plain(t) && ToUpper(t) == t
    ensures Written(FullControl(t))
  {
    assert ToUpper("A") == "A" && ToUpper("OICI") == "OICI" && ToUpper("FA") == "FA" && ToUpper("") == "";
    forall i | 0 <= i < 6 ensures Plain(FullControl(t)[i]) && ToUpper(FullControl(t)[i]) == FullControl(t)[i] {
    }
  }

  /** Full control, inherited by what is inside, for the owner or SYSTEM, and both of them have it. */
  predicate OwnerAndSystemOnly(entries: seq<seq<string>>, sid: string) {
    && (forall i :: 0 <= i < |entries| ==> entries[i] == FullControl(sid) || entries[i] == FullControl("S-1-5-18"))
    && FullControl(sid) in entries && FullControl("S-1-5-18") in entries
  }

  lemma CanonicalIsEntries(entries: seq<seq<string>>, owner: Option<string>, lookup: Lookup, e: seq<string>)
    requires AllWritten(entries) && Written(e)
    ensures Entry(e) in CanonicalAces(Texts(entries), owner, lookup) <==> e in entries
  {
    var texts := Texts(entries);
    if e in entries {
      var i :| 0 <= i < |entries| && entries[i] == e;
      EntryIsCanonical(e, owner, lookup);
      assert CanonicalAce(texts[i], owner, lookup) == Entry(e);
    }
    if Entry(e) in CanonicalAces(texts, owner, lookup) {
      var i :| 0 <= i < |texts| && CanonicalAce(texts[i], owner, lookup) == Entry(e);
      EntryIsCanonical(entries[i], owner, lookup);
      EntriesDiffer(entries[i], e);
    }
  }

  lemma TwoKinds(entries: seq<seq<string>>, sid: string, lookup: Lookup)
    requires AllWritten(entries) && Ordinary(sid)
    ensures var got, a, b := CanonicalAces(Texts(entries), Some(sid), lookup), Entry(FullControl(sid)), Entry(FullControl("S-1-5-18"));
            (a in got && b in got && |got| == 2) <==> OwnerAndSystemOnly(entries, sid)
  {
    var got := CanonicalAces(Texts(entries), Some(sid), lookup);
    WantedEntries(sid, lookup);
    CanonicalIsEntries(entries, Some(sid), lookup, FullControl(sid));
    CanonicalIsEntries(entries, Some(sid), lookup, FullControl("S-1-5-18"));
    if FullControl(sid) in entries && FullControl("S-1-5-18") in entries && |got| == 2 {
      PairIsAll(got, Entry(FullControl(sid)), Entry(FullControl("S-1-5-18")));
      forall i | 0 <= i < |entries| ensures entries[i] == FullControl(sid) || entries[i] == FullControl("S-1-5-18") {
        OneOfTheKinds(entries, sid, lookup, i);
      }
    } else if OwnerAndSystemOnly(entries, sid) {
      OnlyTwoKinds(entries, sid, lookup);
    }
  }

  lemma OneOfTheKinds(entries: seq<seq<string>>, sid: string, lookup: Lookup, i: nat)
    requires AllWritten(entries) && i < |entries| && Written(FullControl(sid)) && Written(FullControl("S-1-5-18"))
    requires CanonicalAces(Texts(entries), Some(sid), lookup) == {Entry(FullControl(sid)), Entry(FullControl("S-1-5-18"))}
    ensures entries[i] == FullControl(sid) || entries[i] == FullControl("S-1-5-18")
  {
    EntryIsCanonical(entries[i], Some(sid), lookup);
    assert CanonicalAce(Texts(entries)[i], Some(sid), lookup) in CanonicalAces(Texts(entries), Some(sid), lookup);
    if Entry(entries[i]) == Entry(FullControl(sid)) {
      EntriesDiffer(entries[i], FullControl(sid));
    } else {
      EntriesDiffer(entries[i], FullControl("S-1-5-18"));
    }
  }

  lemma OnlyTwoKinds(entries: seq<seq<string>>, sid: string, lookup: Lookup)
    requires AllWritten(entries) && Ordinary(sid) && OwnerAndSystemOnly(entries, sid)
    ensures |CanonicalAces(Texts(entries), Some(sid), lookup)| == 2
  {
    var texts, owner := Texts(entries), Some(sid);
    var got, a, b := CanonicalAces(texts, owner, lookup), Entry(FullControl(sid)), Entry(FullControl("S-1-5-18"));
    WantedEntries(sid, lookup);
    CanonicalIsEntries(entries, owner, lookup, FullControl(sid));
    CanonicalIsEntries(entries, owner, lookup, FullControl("S-1-5-18"));
    forall x | x in got ensures x == a || x == b {
      KindOf(entries, sid, lookup, x);
    }
    TwoMembers(got, a, b);
  }

  lemma KindOf(entries: seq<seq<string>>, sid: string, lookup: Lookup, x: string)
    requires AllWritten(entries) && OwnerAndSystemOnly(entries, sid) && x in CanonicalAces(Texts(entries), Some(sid), lookup)
    ensures x == Entry(FullControl(sid)) || x == Entry(FullControl("S-1-5-18"))
  {
    var i :| 0 <= i < |entries| && x == CanonicalAce(Texts(entries)[i], Some(sid), lookup);
    EntryIsCanonical(entries[i], Some(sid), lookup);
  }

  lemma TwoMembers<T>(s: set<T>, a: T, b: T)
    requires a in s && b in s && a != b && forall x :: x in s ==> x == a || x == b
    ensures |s| == 2
  {
    assert s == {a, b};
  }

  /**
    What counts as private, exactly, for an owner other than SYSTEM: the DACL is protected, and every entry gives full,
    inherited control to the owner or to SYSTEM, each of whom has such an entry, in whatever order and however often.
   */
  lemma PrivateIff(before: string, flags: string, entries: seq<seq<string>>, sacl: string, sid: string, lookup: Lookup)
    requires Framed(before, flags, sacl) && AllWritten(entries) && Ordinary(sid)
    ensures IsPrivateDacl(Descriptor(before, flags, entries, sacl), Some(sid), lookup)
            <==> 'P' in flags && OwnerAndSystemOnly(entries, sid)
  {
    DescriptorReads(before, flags, entries, sacl);
    WantedEntries(sid, lookup);
    TwoKinds(entries, sid, lookup);
  }

  /** A descriptor without a DACL is open to everyone: it is not private, names somebody foreign, and everyone is reported. */
  lemma MissingDaclIsOpen(sddl: string, owner: Option<string>, lookup: Lookup)
    requires IndexComponent(sddl, "D:") < 0
    ensures !IsPrivateDacl(sddl, owner, lookup) && !NoForeignTrustee(sddl, owner, lookup)
    ensures ForeignTrustees(sddl, owner, lookup) == ["S-1-1-0"]
  {
  }
}
