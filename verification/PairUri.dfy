/** The mcremote://pair link a phone scans: building it, reading it, and what both agree on. */
module PairUri {
  import opened Common
  import opened GoStrings
  import opened PeerAddresses
  import Base64
  import Fingerprints

  datatype Payload = Payload(host: string, token: string, code: string, fingerprint: string, mode: string,
                             relay: string, hostId: string)

  type Query = map<string, seq<string>>

  /** A link after net/url has taken it apart; a query key may carry several values. */
  datatype Uri = Uri(scheme: string, host: string, path: string, query: Query)

  /** What the scanner hands over: nothing but blanks, text net/url refuses, or a link. */
  datatype Scanned = Blank | Unparsable | Link(uri: Uri)

  datatype Fault = NoPayload | BadUri | WrongScheme | WrongPath | HostMissing | UnknownMode | NoSecret
                 | RelayWithoutId | BadFingerprint | RelayEmpty | BadHostId

  datatype Result<T> = Ok(value: T) | Err(fault: Fault)
  const SCHEME := "mcremote"
  const HOST := "pair"
  const SELF_SIGNED := "selfsigned"
  const LETS_ENCRYPT := "letsencrypt"
  const OFF := "off"

  // ---- the query ----

  function Get(q: Query, key: string): string {
    if key in q && q[key] != [] then q[key][0] else ""
  }

  const KEYS := {"host", "token", "code", "fp", "mode", "relay", "hid"}

  function Field(p: Payload, key: string): string
    requires key in KEYS
  {
    if key == "host" then p.host
    else if key == "token" then p.token
    else if key == "code" then p.code
    else if key == "fp" then p.fingerprint
    else if key == "mode" then p.mode
    else if key == "relay" then p.relay
    else p.hostId
  }

  /** One value per field that is not empty. */
  function ToQuery(p: Payload): Query {
    map key | key in KEYS && Field(p, key) != "" :: [Field(p, key)]
  }

  function FromQuery(q: Query): Payload {
    Payload(Get(q, "host"), Get(q, "token"), Get(q, "code"), Get(q, "fp"), Get(q, "mode"), Get(q, "relay"), Get(q, "hid"))
  }

  lemma GetField(p: Payload, key: string)
    requires key in KEYS
    ensures Get(ToQuery(p), key) == Field(p, key)
  {
  }

  lemma QueryRoundTrip(p: Payload)
    ensures FromQuery(ToQuery(p)) == p
  {
    GetField(p, "host");
    GetField(p, "token");
    GetField(p, "code");
    GetField(p, "fp");
    GetField(p, "mode");
    GetField(p, "relay");
    GetField(p, "hid");
  }

  // ---- validation and normal form ----

  function Tidy(p: Payload): Payload {
    Payload(TrimSpace(p.host), TrimSpace(p.token), TrimSpace(p.code), TrimSpace(p.fingerprint),
            ToLower(TrimSpace(p.mode)), TrimSpace(p.relay), TrimSpace(p.hostId))
  }

  predicate KnownMode(mode: string) {
    mode == "" || mode == SELF_SIGNED || mode == LETS_ENCRYPT || mode == OFF
  }

  predicate IdChar(c: char) {
    'a' <= c <= 'z' || 'A' <= c <= 'Z' || '0' <= c <= '9' || c == '-' || c == '_' || c == '.'
  }

  predicate ValidHostId(id: string) {
    id != "" && |id| <= 128 && forall i :: 0 <= i < |id| ==> IdChar(id[i])
  }

  /** The checks both directions make, in their common order, on trimmed fields. */
  function FieldFault(t: Payload): Option<Fault> {
    if t.token == "" && t.code == "" then Some(NoSecret)
    else if (t.relay == "") != (t.hostId == "") then Some(RelayWithoutId)
    else if t.fingerprint != "" && Fingerprints.Normalize(t.fingerprint).None? then Some(BadFingerprint)
    else if SplitScheme(t.host).1 == "" then Some(HostMissing)
    else if t.relay != "" && SplitScheme(t.relay).1 == "" then Some(RelayEmpty)
    else if t.relay != "" && !ValidHostId(t.hostId) then Some(BadHostId)
    else None
  }

  function EncodeFault(t: Payload): Option<Fault> {
    if t.host == "" then Some(HostMissing)
    else if !KnownMode(t.mode) then Some(UnknownMode)
    else FieldFault(t)
  }

  function ParseFault(t: Payload): Option<Fault> {
    if !KnownMode(t.mode) then Some(UnknownMode)
    else if t.host == "" then Some(HostMissing)
    else FieldFault(t)
  }

  function RelayAddress(relay: string): string {
    var (scheme, authority) := SplitScheme(relay);
    (if scheme == "" then "wss://" else scheme) + authority
  }

  function WireFingerprint(fp: string): string {
    var n := Fingerprints.Normalize(fp);
    if fp == "" || n.None? then "" else n.value
  }

  /** The payload both directions settle on, from trimmed fields. */
  function Norm(t: Payload): Payload {
    t.(host := Address(t.host), fingerprint := WireFingerprint(t.fingerprint),
       relay := if t.relay == "" then "" else RelayAddress(t.relay))
  }

  // ---- the two directions ----

  function Encode(p: Payload): Result<Uri> {
    var t := Tidy(p);
    if EncodeFault(t).Some? then Err(EncodeFault(t).value) else Ok(LinkOf(Norm(t)))
  }

  function LinkOf(p: Payload): Uri {
    Uri(SCHEME, HOST, "", ToQuery(p))
  }

  function TrimSlashesLeft(s: string): string {
    if s != "" && s[0] == '/' then TrimSlashesLeft(s[1..]) else s
  }

  function TrimSlashes(s: string): string {
    TrimSlashesRight(TrimSlashesLeft(s))
  }

  function TrimSlashesRight(s: string): string {
    if s != "" && s[|s| - 1] == '/' then TrimSlashesRight(s[..|s| - 1]) else s
  }

  /** The link's target, in the host or, for a link without one, in the path. */
  function Target(u: Uri): string {
    if TrimSlashes(u.host) == "" && TrimSlashes(u.path) != "" then TrimSlashes(u.path) else TrimSlashes(u.host)
  }

  function Parse(s: Scanned): Result<Payload> {
    match s
    case Blank => Err(NoPayload)
    case Unparsable => Err(BadUri)
    case Link(u) =>
      var t := Tidy(FromQuery(u.query));
      if ToLower(u.scheme) != SCHEME then Err(WrongScheme)
      else if ToLower(Target(u)) != HOST then Err(WrongPath)
      else if ParseFault(t).Some? then Err(ParseFault(t).value)
      else Ok(Norm(t))
  }

  // ---- canonical payloads ----

  predicate CleanRelay(r: string) {
    (HasPrefix(r, "wss://") && Clean(r[6..])) || (HasPrefix(r, "ws://") && Clean(r[5..]))
  }

  /** What a client can rely on after a successful scan. */
  ghost predicate Canonical(p: Payload) {
    && CleanAddress(p.host)
    && Trimmed(p.token) && Trimmed(p.code) && (p.token != "" || p.code != "")
    && (p.fingerprint == "" || exists d: Fingerprints.Digest :: p.fingerprint == Fingerprints.Canonical(d))
    && KnownMode(p.mode)
    && (p.relay == "" <==> p.hostId == "")
    && (p.relay != "" ==> CleanRelay(p.relay) && ValidHostId(p.hostId))
  }

  lemma ModesAreLower(mode: string)
    requires KnownMode(mode)
    ensures ToLower(mode) == mode && Trimmed(mode)
  {
  }

  lemma HostIdIsTrimmed(id: string)
    requires ValidHostId(id)
    ensures Trimmed(id)
  {
  }

  lemma RelayIsClean(relay: string)
    requires SplitScheme(relay).1 != ""
    ensures CleanRelay(RelayAddress(relay))
  {
    AuthorityIsClean(relay);
    var (s, a) := SplitScheme(relay);
    assert ("wss://" + a)[..6] == "wss://" && ("wss://" + a)[6..] == a;
    assert ("ws://" + a)[..5] == "ws://" && ("ws://" + a)[5..] == a;
  }

  lemma CleanRelayStays(r: string)
    requires CleanRelay(r)
    ensures RelayAddress(r) == r && SplitScheme(r).1 != "" && Trimmed(r) && r != ""
  {
    CleanAddressStays(r);
    if HasPrefix(r, "wss://") && Clean(r[6..]) {
      CleanSplits("wss://", r[6..]);
      assert "wss://" + r[6..] == r;
    } else {
      CleanSplits("ws://", r[5..]);
      assert "ws://" + r[5..] == r;
    }
  }

  lemma WireFingerprintStays(fp: string, d: Fingerprints.Digest)
    requires fp == Fingerprints.Canonical(d)
    ensures Fingerprints.Normalize(fp).Some? && WireFingerprint(fp) == fp && Trimmed(fp)
  {
    Fingerprints.CanonicalReads(d);
  }

  /** What passes the checks normalises to a canonical payload. */
  lemma NormIsCanonical(p: Payload)
    requires EncodeFault(Tidy(p)).None?
    ensures Canonical(Norm(Tidy(p)))
  {
    var t := Tidy(p);
    var n := Norm(t);
    AddressIsClean(t.host);
    if t.relay != "" {
      RelayIsClean(t.relay);
      CleanRelayStays(n.relay);
    }
    if t.fingerprint != "" {
      var d: Fingerprints.Digest := Fingerprints.Read(t.fingerprint).value;
      assert n.fingerprint == Fingerprints.Canonical(d);
    }
  }

  /** A canonical payload passes the checks and is its own normal form. */
  lemma CanonicalStays(p: Payload)
    requires Canonical(p)
    ensures Tidy(p) == p && Norm(p) == p && EncodeFault(p).None? && ParseFault(p).None?
  {
    CleanAddressStays(p.host);
    ModesAreLower(p.mode);
    if p.relay != "" {
      CleanRelayStays(p.relay);
      HostIdIsTrimmed(p.hostId);
    }
    if p.fingerprint != "" {
      var d: Fingerprints.Digest :| p.fingerprint == Fingerprints.Canonical(d);
      WireFingerprintStays(p.fingerprint, d);
    }
  }

  // ---- main results ----

  lemma TargetOfLink(p: Payload)
    ensures ToLower(LinkOf(p).scheme) == SCHEME && ToLower(Target(LinkOf(p))) == HOST
  {
    assert TrimSlashes(HOST) == HOST;
  }

  lemma ParseLink(u: Uri, t: Payload)
    requires ToLower(u.scheme) == SCHEME && ToLower(Target(u)) == HOST
    requires Tidy(FromQuery(u.query)) == t && ParseFault(t).None?
    ensures Parse(Link(u)) == Ok(Norm(t))
  {
  }

  lemma CanonicalParses(p: Payload)
    requires Canonical(p)
    ensures Parse(Link(LinkOf(p))) == Ok(p)
  {
    CanonicalStays(p);
    QueryRoundTrip(p);
    TargetOfLink(p);
    ParseLink(LinkOf(p), p);
  }

  lemma CanonicalRoundTrips(p: Payload)
    requires Canonical(p)
    ensures Encode(p) == Ok(LinkOf(p)) && Parse(Link(LinkOf(p))) == Ok(p)
  {
    CanonicalStays(p);
    CanonicalParses(p);
  }

  /** Whatever Encode accepts, Parse reads back as the normalised payload, and encoding that gives the same link. */
  lemma EncodeRoundTrips(p: Payload)
    requires Encode(p).Ok?
    ensures Parse(Link(Encode(p).value)) == Ok(Norm(Tidy(p)))
    ensures Encode(Norm(Tidy(p))) == Encode(p)
  {
    NormIsCanonical(p);
    CanonicalRoundTrips(Norm(Tidy(p)));
  }

  /**
    * Of any text scanned: a payload Parse returns is canonical, Encode accepts it, and
    * scanning the link Encode makes of it gives that payload again.
    */
  lemma ParseIsStable(s: Scanned)
    requires Parse(s).Ok?
    ensures Canonical(Parse(s).value)
    ensures Encode(Parse(s).value).Ok? && Parse(Link(Encode(Parse(s).value).value)) == Parse(s)
  {
    NormIsCanonical(FromQuery(s.uri.query));
    CanonicalRoundTrips(Parse(s).value);
  }

  /** Exactly the canonical payloads survive a round trip unchanged. */
  lemma UnchangedIffCanonical(p: Payload)
    ensures Encode(p).Ok? && Parse(Link(Encode(p).value)) == Ok(p) <==> Canonical(p)
  {
    if Encode(p).Ok? {
      EncodeRoundTrips(p);
      NormIsCanonical(p);
    }
    if Canonical(p) {
      CanonicalRoundTrips(p);
    }
  }

  /** The link depends on which certificate is pinned, not on how its fingerprint was spelled. */
  lemma LinkIgnoresSpelling(p: Payload, d: Fingerprints.Digest, x: Fingerprints.Spelling, y: Fingerprints.Spelling,
                            tag: string, other: string)
    requires Fingerprints.IsLabel(tag) && Fingerprints.IsLabel(other)
    ensures Encode(p.(fingerprint := tag + Fingerprints.Write(d, x)))
         == Encode(p.(fingerprint := other + Fingerprints.Write(d, y)))
  {
    var f, g := tag + Fingerprints.Write(d, x), other + Fingerprints.Write(d, y);
    SpellingIsTrimmed(d, x, tag);
    SpellingIsTrimmed(d, y, other);
    SameWireForm(Tidy(p), f, g);
    assert Tidy(p.(fingerprint := f)) == Tidy(p).(fingerprint := f);
    assert Tidy(p.(fingerprint := g)) == Tidy(p).(fingerprint := g);
  }

  lemma SameWireForm(t: Payload, f: string, g: string)
    requires f != "" && g != ""
    requires Fingerprints.Normalize(f).Some? && Fingerprints.Normalize(f) == Fingerprints.Normalize(g)
    ensures EncodeFault(t.(fingerprint := f)) == EncodeFault(t.(fingerprint := g))
    ensures Norm(t.(fingerprint := f)) == Norm(t.(fingerprint := g))
  {
  }

  lemma SpellingIsTrimmed(d: Fingerprints.Digest, x: Fingerprints.Spelling, tag: string)
    requires Fingerprints.IsLabel(tag)
    ensures var s := tag + Fingerprints.Write(d, x);
            s != "" && TrimSpace(s) == s && Fingerprints.Normalize(s) == Some(Fingerprints.Canonical(d))
  {
    Fingerprints.EverySpellingReadsBack(d, x, tag);
    Fingerprints.BodyReads(d, x);
    Fingerprints.LabelRemoved(tag, Fingerprints.Write(d, x));
  }

  // ---- the link, key by key ----

  /** A field is in the link under its key, alone, exactly when it is not empty. */
  predicate Carries(q: Query, key: string, value: string) {
    if value == "" then key !in q else key in q && q[key] == [value]
  }

  /** Which query key carries which field, in every link Encode makes. */
  lemma LinkCarries(p: Payload)
    requires Encode(p).Ok?
    ensures var u, n := Encode(p).value, Norm(Tidy(p));
            && u.scheme == "mcremote" && u.host == "pair"
            && Carries(u.query, "host", n.host) && Carries(u.query, "token", n.token) && Carries(u.query, "code", n.code)
            && Carries(u.query, "fp", n.fingerprint) && Carries(u.query, "mode", n.mode)
            && Carries(u.query, "relay", n.relay) && Carries(u.query, "hid", n.hostId)
            && u.query.Keys <= {"host", "token", "code", "fp", "mode", "relay", "hid"}
  {
    QueryCarries(Norm(Tidy(p)));
  }

  lemma QueryCarries(n: Payload)
    ensures var q := ToQuery(n);
            && Carries(q, "host", n.host) && Carries(q, "token", n.token) && Carries(q, "code", n.code)
            && Carries(q, "fp", n.fingerprint) && Carries(q, "mode", n.mode)
            && Carries(q, "relay", n.relay) && Carries(q, "hid", n.hostId)
            && q.Keys <= {"host", "token", "code", "fp", "mode", "relay", "hid"}
  {
  }

  /** Which query key Parse reads for which field; of a repeated key the first value counts. */
  lemma ParseReads(u: Uri)
    requires Parse(Link(u)).Ok?
    ensures var v, q := Parse(Link(u)).value, u.query;
            && v.host == Address(TrimSpace(Get(q, "host"))) && v.token == TrimSpace(Get(q, "token"))
            && v.code == TrimSpace(Get(q, "code")) && v.mode == ToLower(TrimSpace(Get(q, "mode")))
            && v.hostId == TrimSpace(Get(q, "hid"))
            && (TrimSpace(Get(q, "fp")) == "" <==> v.fingerprint == "")
            && (v.fingerprint != "" ==> Some(v.fingerprint) == Fingerprints.Normalize(TrimSpace(Get(q, "fp"))))
            && (TrimSpace(Get(q, "relay")) == "" <==> v.relay == "")
            && (v.relay != "" ==> v.relay == RelayAddress(TrimSpace(Get(q, "relay"))))
  {
    var t := Tidy(FromQuery(u.query));
    if t.relay != "" {
      RelayIsClean(t.relay);
      CleanRelayStays(RelayAddress(t.relay));
    }
    if t.fingerprint != "" {
      Fingerprints.NormalizeIsIdempotent(t.fingerprint);
    }
  }

  /** What both directions demand of a payload, blanks at the ends of its fields apart. */
  predicate Acceptable(p: Payload) {
    Tidy(p).mode in ["", "selfsigned", "letsencrypt", "off"] && FieldsFit(Tidy(p))
  }

  predicate FieldsFit(t: Payload) {
    && (t.token != "" || t.code != "")
    && (t.relay == "" <==> t.hostId == "")
    && (t.fingerprint != "" ==> Fingerprints.Read(t.fingerprint).Some?)
    && SplitScheme(t.host).1 != ""
    && (t.relay != "" ==>
          SplitScheme(t.relay).1 != "" && 1 <= |t.hostId| <= 128 && forall i :: 0 <= i < |t.hostId| ==> IdChar(t.hostId[i]))
  }

  lemma FieldsFitIff(t: Payload)
    ensures FieldFault(t).None? <==> FieldsFit(t)
  {
  }

  lemma BlankHasNoAuthority()
    ensures SplitScheme("").1 == ""
  {
    assert TakePrefix("", 3) == ("", "") && TakePrefix("", 2) == ("", "") && TakePrefix("", 1) == ("", "");
  }

  /** Encode and Parse accept the same payloads, and exactly those: what one refuses the other does not let in. */
  lemma AcceptedIff(p: Payload, q: Query)
    requires FromQuery(q) == p
    ensures Encode(p).Ok? <==> Acceptable(p)
    ensures Parse(Link(Uri(SCHEME, HOST, "", q))).Ok? <==> Acceptable(p)
  {
    EncodeAcceptsIff(p);
    ParseAcceptsIff(q);
  }

  lemma EncodeAcceptsIff(p: Payload)
    ensures Encode(p).Ok? <==> Acceptable(p)
  {
    FaultlessIff(Tidy(p));
  }

  lemma ParseAcceptsIff(q: Query)
    ensures Parse(Link(Uri(SCHEME, HOST, "", q))).Ok? <==> Acceptable(FromQuery(q))
  {
    assert ToLower(SCHEME) == SCHEME && TrimSlashes(HOST) == HOST;
    RightLinkParsesIff(Uri(SCHEME, HOST, "", q));
    FaultlessIff(Tidy(FromQuery(q)));
  }

  lemma RightLinkParsesIff(u: Uri)
    requires ToLower(u.scheme) == SCHEME && ToLower(Target(u)) == HOST
    ensures Parse(Link(u)).Ok? <==> ParseFault(Tidy(FromQuery(u.query))).None?
  {
  }

  lemma FaultlessIff(t: Payload)
    ensures EncodeFault(t).None? <==> KnownMode(t.mode) && FieldsFit(t)
    ensures ParseFault(t).None? <==> KnownMode(t.mode) && FieldsFit(t)
  {
    FieldsFitIff(t);
    if t.host == "" {
      BlankHasNoAuthority();
    }
  }

  /** The scheme and the target may be in any case, and the target may stand in the path, between slashes. */
  lemma SpellingOfLink(scheme: string, host: string, path: string, q: Query)
    requires ToLower(scheme) == "mcremote"
    requires (ToLower(host) == "pair" && path == "") || (host == "" && exists t :: ToLower(t) == "pair" && path == "/" + t)
    ensures Parse(Link(Uri(scheme, host, path, q))) == Parse(Link(Uri(SCHEME, HOST, "", q)))
  {
    assert ToLower(SCHEME) == SCHEME && TrimSlashes(HOST) == HOST;
    if host == "" {
      var t :| ToLower(t) == "pair" && path == "/" + t;
      assert path[1..] == t;
      NoSlash(t);
    } else {
      NoSlash(host);
    }
  }

  lemma NoSlash(t: string)
    requires ToLower(t) == "pair"
    ensures t != "" && TrimSlashes(t) == t
  {
    assert ToLower(t)[0] == LowerChar(t[0]) == 'p' && ToLower(t)[3] == LowerChar(t[3]) == 'r';
  }

  /** A relay without a transport is reached over wss; a written transport is kept, http and https taken for ws and wss. */
  lemma RelayTransport(prefix: string, meant: string, a: string)
    requires Clean(a)
    ensures RelayAddress(a) == "wss://" + a
    ensures Transport(ToLower(prefix), meant) ==> RelayAddress(prefix + a) == meant + a
  {
    CleanSplits("", a);
    assert "" + a == a;
    if Transport(ToLower(prefix), meant) {
      assert a + "" == a;
      TransportIsRead(prefix, meant, a, "");
    }
  }

  /** The mode may be written in any case. */
  lemma ModeInAnyCase(p: Payload, mode: string)
    requires KnownMode(p.mode) && ToLower(mode) == p.mode
    ensures Encode(p.(mode := mode)) == Encode(p)
  {
    ModesAreLower(p.mode);
    ModeIsTrimmed(mode, p.mode);
    assert Tidy(p.(mode := mode)) == Tidy(p);
  }

  lemma ModeIsTrimmed(mode: string, known: string)
    requires KnownMode(known) && ToLower(mode) == known
    ensures Trimmed(mode)
  {
    if mode != "" {
      assert ToLower(mode)[0] == LowerChar(mode[0]) && ToLower(mode)[|mode| - 1] == LowerChar(mode[|mode| - 1]);
    }
  }

  /** The characters of a host id: letters, digits, dash, underscore and dot. */
  lemma IdCharsAre(c: char)
    ensures IdChar(c) <==> c in Base64.UPPERS || c in Base64.LOWERS || c in Base64.NUMERALS || c in "-_."
  {
    assert IdChar(c) <==> 'A' <= c <= 'Z' || 'a' <= c <= 'z' || '0' <= c <= '9' || c in "-_.";
    Base64.UppersAre(c);
    Base64.LowersAre(c);
    Base64.NumeralsAre(c);
  }
}
