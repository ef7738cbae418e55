/** Encode and Parse as the daemon runs them: locals reassigned step by step, the query filled key by key. */
module PairLinks {
  import opened Common
  import opened GoStrings
  import opened PeerAddresses
  import opened PairUri
  import Fingerprints

  method ValidateHostId(id: string) returns (ok: bool)
    ensures ok <==> ValidHostId(id)
  {
    if id == "" || |id| > 128 {
      return false;
    }
    for i := 0 to |id|
      invariant forall j :: 0 <= j < i ==> IdChar(id[j])
    {
      if !IdChar(id[i]) {
        return false;
      }
    }
    return true;
  }

  /** The part both directions share, from the token check to the canonical relay. */
  method Finish(t: Payload) returns (r: Result<Payload>)
    ensures r == if FieldFault(t).Some? then Err(FieldFault(t).value) else Ok(Norm(t))
  {
    if t.token == "" && t.code == "" {
      return Err(NoSecret);
    }
    if (t.relay == "") != (t.hostId == "") {
      return Err(RelayWithoutId);
    }
    var fp := t.fingerprint;
    if fp != "" {
      var norm := Fingerprints.Normalize(fp);
      if norm.None? {
        return Err(BadFingerprint);
      }
      fp := norm.value;
    }
    var scheme, authority := SplitSchemeLoop(t.host);
    if authority == "" {
      return Err(HostMissing);
    }
    var relay := t.relay;
    if relay != "" {
      var rs, ra := SplitSchemeLoop(relay);
      if ra == "" {
        return Err(RelayEmpty);
      }
      if rs == "" {
        rs := "wss://";
      }
      relay := rs + ra;
      var ok := ValidateHostId(t.hostId);
      if !ok {
        return Err(BadHostId);
      }
    }
    return Ok(t.(host := scheme + authority, fingerprint := fp, relay := relay));
  }

  function Put(q: Query, key: string, value: string): Query {
    if value == "" then q else q[key := [value]]
  }

  /** The query once the given keys have been dealt with. */
  ghost function Partial(p: Payload, done: set<string>): Query
    requires done <= KEYS
  {
    map key | key in done && Field(p, key) != "" :: [Field(p, key)]
  }

  lemma PutExtends(p: Payload, done: set<string>, key: string)
    requires done <= KEYS && key in KEYS
    ensures Put(Partial(p, done), key, Field(p, key)) == Partial(p, done + {key})
  {
  }

  lemma AllKeysDone(p: Payload)
    ensures Partial(p, {}) == map[]
    ensures Partial(p, {} + {"host"} + {"token"} + {"code"} + {"fp"} + {"mode"} + {"relay"} + {"hid"}) == ToQuery(p)
  {
    assert {} + {"host"} + {"token"} + {"code"} + {"fp"} + {"mode"} + {"relay"} + {"hid"} == KEYS;
  }

  method FillQuery(p: Payload) returns (q: Query)
    requires p.relay == "" <==> p.hostId == ""
    requires p.host != ""
    ensures q == ToQuery(p)
  {
    ghost var done: set<string> := {};
    AllKeysDone(p);
    q := map[];
    q := q["host" := [p.host]];
    PutExtends(p, done, "host");
    done := done + {"host"};
    q := Put(q, "token", p.token);
    PutExtends(p, done, "token");
    done := done + {"token"};
    q := Put(q, "code", p.code);
    PutExtends(p, done, "code");
    done := done + {"code"};
    q := Put(q, "fp", p.fingerprint);
    PutExtends(p, done, "fp");
    done := done + {"fp"};
    q := Put(q, "mode", p.mode);
    PutExtends(p, done, "mode");
    done := done + {"mode"};
    PutExtends(p, done, "relay");
    PutExtends(p, done + {"relay"}, "hid");
    if p.relay != "" {
      q := q["relay" := [p.relay]];
      q := q["hid" := [p.hostId]];
    }
  }

  method EncodePayload(p: Payload) returns (r: Result<Uri>)
    ensures r == Encode(p)
  {
    var t := Tidy(p);
    if t.host == "" {
      return Err(HostMissing);
    }
    if !KnownMode(t.mode) {
      return Err(UnknownMode);
    }
    var n := Finish(t);
    if n.Err? {
      return Err(n.fault);
    }
    NormIsCanonical(p);
    CanonicalStays(n.value);
    var q := FillQuery(n.value);
    return Ok(Uri(SCHEME, HOST, "", q));
  }

  method ParseScanned(s: Scanned) returns (r: Result<Payload>)
    ensures r == Parse(s)
  {
    if s.Blank? {
      return Err(NoPayload);
    }
    if s.Unparsable? {
      return Err(BadUri);
    }
    var u := s.uri;
    if ToLower(u.scheme) != SCHEME {
      return Err(WrongScheme);
    }
    var h := TrimSlashes(u.host);
    var path := TrimSlashes(u.path);
    if h == "" && path != "" {
      h := path;
    }
    if ToLower(h) != HOST {
      return Err(WrongPath);
    }
    var t := Tidy(FromQuery(u.query));
    if !KnownMode(t.mode) {
      return Err(UnknownMode);
    }
    if t.host == "" {
      return Err(HostMissing);
    }
    r := Finish(t);
  }
}
