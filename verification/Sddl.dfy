/**
  The security-descriptor checks of internal/appdirs/security_windows.go, on SDDL strings
  (section 2.5.1 of MS-DTYP). The Windows lookup that turns an alias into a SID is a parameter.
 */
module Sddl {
  import opened Common
  import opened GoStrings

  type Lookup = string -> Option<string>

  // ---- components ----

  function DepthChange(c: char): int {
    if c == '(' then 1 else if c == ')' then -1 else 0
  }

  /** The first position from `i` on, at nesting depth zero, where the component starts, or -1. */
  function ComponentFrom(s: string, prefix: string, i: nat, depth: int): (r: int)
    requires i <= |s|
    ensures r == -1 || (i <= r && r + |prefix| <= |s|)
    decreases |s| - i
  {
    if i == |s| then -1
    else
      var d := depth + DepthChange(s[i]);
      if d == 0 && i + |prefix| <= |s| && s[i..i + |prefix|] == prefix then i
      else ComponentFrom(s, prefix, i + 1, d)
  }

  function IndexComponent(s: string, prefix: string): int {
    ComponentFrom(s, prefix, 0, 0)
  }

  function ExtractDacl(sddl: string): string {
    var i := IndexComponent(sddl, "D:");
    if i < 0 then ""
    else
      var rest := sddl[i..];
      var j := IndexComponent(rest[2..], "S:");
      if j >= 0 then rest[..j + 2] else rest
  }

  function IndexOfParen(s: string): (i: int)
    ensures -1 <= i < |s|
    ensures i >= 0 ==> s[i] == '('
    ensures forall k :: 0 <= k < (if i < 0 then |s| else i) ==> s[k] != '('
  {
    if s == "" then -1 else if s[0] == '(' then 0
    else var i := IndexOfParen(s[1..]); if i < 0 then -1 else i + 1
  }

  /** The ACEs found from position `k` on: the stretches between depth zero and depth zero. */
  function Scan(rest: string, k: nat, depth: int, start: nat, aces: seq<string>): seq<string>
    requires start <= k <= |rest|
    decreases |rest| - k
  {
    if k == |rest| then aces
    else if rest[k] == '(' then Scan(rest, k + 1, depth + 1, if depth == 0 then k else start, aces)
    else if rest[k] == ')' then
      Scan(rest, k + 1, depth - 1, start, if depth - 1 == 0 then aces + [rest[start..k + 1]] else aces)
    else Scan(rest, k + 1, depth, start, aces)
  }

  function SplitDacl(dacl: string): (string, seq<string>) {
    var body := if HasPrefix(dacl, "D:") then dacl[2..] else dacl;
    var i := IndexOfParen(body);
    if i < 0 then (body, []) else (body[..i], Scan(body[i..], 0, 0, 0, []))
  }

  // ---- one ACE ----

  predicate Paren(c: char) {
    c == '(' || c == ')'
  }

  /** strings.Trim(s, "()"). */
  function TrimParens(s: string): string {
    if s != "" && Paren(s[0]) then TrimParens(s[1..])
    else if s != "" && Paren(s[|s| - 1]) then TrimParens(s[..|s| - 1])
    else s
  }

  /** strings.Split(s, ";"). */
  function Split(s: string): (r: seq<string>)
    ensures |r| >= 1
  {
    if s == "" then [""]
    else
      var r := Split(s[1..]);
      if s[0] == ';' then [""] + r else [[s[0]] + r[0]] + r[1..]
  }

  function Join(fields: seq<string>): string
    requires |fields| >= 1
  {
    if |fields| == 1 then fields[0] else fields[0] + ";" + Join(fields[1..])
  }

  function Fields(ace: string): (r: seq<string>)
    ensures |r| >= 1
  {
    Split(TrimParens(ToUpper(TrimSpace(ace))))
  }

  function Trustee(t: string, owner: Option<string>, lookup: Lookup): string {
    if t == "OW" || t == "CO" then (if owner.Some? then ToUpper(owner.value) else t)
    else if t == "SY" then "S-1-5-18"
    else if t == "BA" then "S-1-5-32-544"
    else if HasPrefix(t, "S-") then t
    else if lookup(t).Some? then ToUpper(lookup(t).value)
    else t
  }

  function CanonicalAce(ace: string, owner: Option<string>, lookup: Lookup): string {
    var fields := Fields(ace);
    if |fields| < 6 then ToUpper(TrimSpace(ace))
    else "(" + Join(fields[5 := Trustee(fields[5], owner, lookup)]) + ")"
  }

  // ---- the three checks ----

  function Tolerable(owner: Option<string>, lookup: Lookup): set<string> {
    {Trustee("OW", owner, lookup), Trustee("SY", owner, lookup), Trustee("BA", owner, lookup)}
  }

  predicate Allows(fields: seq<string>)
    requires |fields| >= 1
  {
    HasPrefix(fields[0], "A")
  }

  /** The trustee that makes an ACE unacceptable; an unreadable ACE names "?". */
  function Offender(ace: string, owner: Option<string>, lookup: Lookup): Option<string> {
    var fields := Fields(ace);
    if |fields| < 6 then Some("?")
    else if !Allows(fields) then None
    else
      var t := Trustee(fields[5], owner, lookup);
      if t in Tolerable(owner, lookup) then None else Some(t)
  }

  predicate NoForeignTrustee(sddl: string, owner: Option<string>, lookup: Lookup) {
    var dacl := ExtractDacl(sddl);
    dacl != "" && forall i :: 0 <= i < |SplitDacl(dacl).1| ==> Offender(SplitDacl(dacl).1[i], owner, lookup).None?
  }

  /** The offenders of a list of ACEs, in order, each once. */
  function Offenders(aces: seq<string>, owner: Option<string>, lookup: Lookup): seq<string> {
    if aces == [] then []
    else AddNew(Offenders(aces[..|aces| - 1], owner, lookup), Offender(aces[|aces| - 1], owner, lookup))
  }

  function AddNew(names: seq<string>, o: Option<string>): seq<string> {
    if o.None? || o.value in names then names else names + [o.value]
  }

  function ForeignTrustees(sddl: string, owner: Option<string>, lookup: Lookup): seq<string> {
    var dacl := ExtractDacl(sddl);
    if dacl == "" then ["S-1-1-0"] else Offenders(SplitDacl(dacl).1, owner, lookup)
  }

  const OWNER_ACE := "(A;OICI;FA;;;OW)"
  const SYSTEM_ACE := "(A;OICI;FA;;;SY)"

  function CanonicalAces(aces: seq<string>, owner: Option<string>, lookup: Lookup): set<string> {
    set i | 0 <= i < |aces| :: CanonicalAce(aces[i], owner, lookup)
  }

  predicate IsPrivateDacl(sddl: string, owner: Option<string>, lookup: Lookup) {
    var dacl := ExtractDacl(sddl);
    var (flags, aces) := SplitDacl(dacl);
    var got := CanonicalAces(aces, owner, lookup);
    && dacl != ""
    && 'P' in flags
    && CanonicalAce(OWNER_ACE, owner, lookup) in got
    && CanonicalAce(SYSTEM_ACE, owner, lookup) in got
    && |got| == 2
  }
}
