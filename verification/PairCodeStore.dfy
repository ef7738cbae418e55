/** The pair-code store as code that rewrites a shared file. */
module PairCodeStore {
  import opened PairCodes
  import Codes = PairCodeText

  method PurgeExpired(codes: seq<Code>, now: Time) returns (out: seq<Code>)
    ensures out == Purge(codes, now)
  {
    out := [];
    var i := 0;
    while i < |codes|
      invariant 0 <= i <= |codes| && out == Purge(codes[..i], now)
    {
      assert codes[..i + 1][..i] == codes[..i];
      if now < codes[i].expiresAt || now == codes[i].expiresAt {
        out := out + [codes[i]];
      }
      i := i + 1;
    }
    assert codes[..i] == codes;
  }

  method FindCode(codes: seq<Code>, hash: string) returns (i: int)
    ensures i == FirstByHash(codes, hash)
  {
    i := 0;
    while i < |codes|
      invariant 0 <= i <= |codes|
      invariant forall k :: 0 <= k < i ==> codes[k].hash != hash
    {
      if codes[i].hash == hash { return; }
      i := i + 1;
    }
    i := -1;
  }

  /** The shared file; `hash` is the digest applied to a normalised code. */
  class CodeFile {
    var codes: seq<Code>
    const hash: string -> string

    constructor (hash: string -> string)
      ensures codes == [] && this.hash == hash
    {
      this.codes, this.hash := [], hash;
    }

    method Save(next: seq<Code>, env: Env) returns (ok: bool)
      modifies this
      ensures codes == Saved(old(codes), next, env) && ok == (env.write == Written)
    {
      if env.write != NotWritten {
        codes := next;
      }
      ok := env.write == Written;
    }

    method CreateCode(code: string, name: string, ttl: Time, env: Env) returns (r: Result)
      modifies this
      ensures (codes, r) == Step(old(codes), Create(hash(Codes.Normalize(code)), name, ttl), env)
    {
      if !env.locked || !env.readable { return IOError; }
      var life := if ttl <= 0 then DEFAULT_TTL else if ttl > MAX_TTL then MAX_TTL else ttl;
      var kept := PurgeExpired(codes, env.purgedAt);
      var normal := Codes.NormalizePairCode(code);
      var c := Code(hash(normal), if name == "" then "device" else name, env.now, env.now + life);
      var ok := Save(kept + [c], env);
      return if ok then Created(c) else IOError;
    }

    /** Malformed input is refused before the file is looked at. */
    method TakeCode(raw: string, env: Env) returns (r: Result)
      modifies this
      ensures var code := Codes.Normalize(raw);
              if Codes.WellFormed(code) then (codes, r) == Step(old(codes), Take(hash(code)), env)
              else codes == old(codes) && r == Invalid
    {
      var code := Codes.NormalizePairCode(raw);
      var ok := Codes.CheckPairCode(code);
      if !ok { return Invalid; }
      r := TakeHash(hash(code), env);
    }

    method TakeHash(h: string, env: Env) returns (r: Result)
      modifies this
      ensures (codes, r) == Step(old(codes), Take(h), env)
    {
      if !env.locked || !env.readable { return IOError; }
      var ok;
      var i := FindCode(codes, h);
      if i < 0 {
        var kept := PurgeExpired(codes, env.now);
        ok := Save(kept, env);
        return Invalid;
      }
      var c := codes[i];
      var rest := PurgeExpired(codes[..i] + codes[i + 1..], env.now);
      ok := Save(rest, env);
      if env.now > c.expiresAt { return Expired; }
      return if ok then Taken(c) else IOError;
    }

    method RestoreCode(taken: Code, env: Env) returns (r: Result)
      modifies this
      ensures (codes, r) == Step(old(codes), Restore(taken), env)
    {
      if taken.hash == "" { return Restored; }
      if !env.locked || !env.readable { return IOError; }
      var ok;
      if taken.expiresAt != 0 && env.now > taken.expiresAt {
        var kept := PurgeExpired(codes, env.now);
        ok := Save(kept, env);
        return if ok then Restored else IOError;
      }
      var i := FindCode(codes, taken.hash);
      if i >= 0 { return Restored; }
      var next := PurgeExpired(codes + [taken], env.now);
      ok := Save(next, env);
      return if ok then Restored else IOError;
    }
  }
}
