/**
  Short pairing codes (internal/auth/paircode.go): a list of hashed codes in a file shared between
  processes, each operation one atomic step under the path lock.
 */
module PairCodes {

  type Time = int

  datatype Code = Code(hash: string, name: string, createdAt: Time, expiresAt: Time)

  datatype Write = Written | NotWritten | Unsynced

  /** `purgedAt` is the clock reading Create takes before the one it stamps the code with. */
  datatype Env = Env(locked: bool, readable: bool, write: Write, purgedAt: Time, now: Time)

  datatype Op = Create(hash: string, name: string, ttl: Time) | Take(hash: string) | Restore(taken: Code)

  datatype Result = Created(code: Code) | Taken(code: Code) | Restored | Invalid | Expired | IOError

  const DEFAULT_TTL: Time := 5 * 60
  const MAX_TTL: Time := 60 * 60

  function Lifetime(ttl: Time): Time {
    if ttl <= 0 then DEFAULT_TTL else if ttl > MAX_TTL then MAX_TTL else ttl
  }

  function Purge(codes: seq<Code>, now: Time): seq<Code> {
    if codes == [] then []
    else
      var rest := Purge(codes[..|codes| - 1], now);
      if now <= codes[|codes| - 1].expiresAt then rest + [codes[|codes| - 1]] else rest
  }

  function FirstByHash(codes: seq<Code>, hash: string): (i: int)
    ensures -1 <= i < |codes|
    ensures i >= 0 ==> codes[i].hash == hash
    ensures forall k :: 0 <= k < (if i < 0 then |codes| else i) ==> codes[k].hash != hash
  {
    if codes == [] then -1
    else if codes[0].hash == hash then 0
    else var i := FirstByHash(codes[1..], hash); if i < 0 then -1 else i + 1
  }

  function NewCode(hash: string, name: string, ttl: Time, now: Time): Code {
    Code(hash, if name == "" then "device" else name, now, now + Lifetime(ttl))
  }

  /** The file after a write of `next` was attempted. */
  function Saved(codes: seq<Code>, next: seq<Code>, env: Env): seq<Code> {
    if env.write == NotWritten then codes else next
  }

  function Step(codes: seq<Code>, op: Op, env: Env): (seq<Code>, Result) {
    if op.Restore? && op.taken.hash == "" then (codes, Restored)
    else if !env.locked || !env.readable then (codes, IOError)
    else match op
      case Create(hash, name, ttl) =>
        var code := NewCode(hash, name, ttl, env.now);
        (Saved(codes, Purge(codes, env.purgedAt) + [code], env), if env.write == Written then Created(code) else IOError)
      case Take(hash) =>
        var i := FirstByHash(codes, hash);
        if i < 0 then (Saved(codes, Purge(codes, env.now), env), Invalid)
        else
          var next := Purge(codes[..i] + codes[i + 1..], env.now);
          if env.now > codes[i].expiresAt then (Saved(codes, next, env), Expired)
          else (Saved(codes, next, env), if env.write == Written then Taken(codes[i]) else IOError)
      case Restore(taken) =>
        if taken.expiresAt != 0 && env.now > taken.expiresAt then
          (Saved(codes, Purge(codes, env.now), env), if env.write == Written then Restored else IOError)
        else if FirstByHash(codes, taken.hash) >= 0 then (codes, Restored)
        else
          (Saved(codes, Purge(codes + [taken], env.now), env), if env.write == Written then Restored else IOError)
  }

  // ---- histories ----

  datatype Action = Action(op: Op, env: Env)

  function Run(acts: seq<Action>): seq<Code> {
    if acts == [] then [] else Step(Run(acts[..|acts| - 1]), acts[|acts| - 1].op, acts[|acts| - 1].env).0
  }

  function ResultAt(acts: seq<Action>, i: nat): Result
    requires i < |acts|
  {
    Step(Run(acts[..i]), acts[i].op, acts[i].env).1
  }

  function Holding(codes: seq<Code>, hash: string): nat {
    if codes == [] then 0
    else Holding(codes[..|codes| - 1], hash) + if codes[|codes| - 1].hash == hash then 1 else 0
  }

  /** How many calls so far handed this code out or put it back. */
  function Supplied(acts: seq<Action>, hash: string): nat {
    if acts == [] then 0
    else
      var op := acts[|acts| - 1].op;
      Supplied(acts[..|acts| - 1], hash)
      + if (op.Create? && op.hash == hash) || (op.Restore? && op.taken.hash == hash) then 1 else 0
  }

  /** How many calls so far took it. */
  function Redeemed(acts: seq<Action>, hash: string): nat {
    if acts == [] then 0
    else
      var r := ResultAt(acts, |acts| - 1);
      Redeemed(acts[..|acts| - 1], hash) + if r.Taken? && r.code.hash == hash then 1 else 0
  }

  lemma {:induction false} HoldingConcat(a: seq<Code>, b: seq<Code>, hash: string)
    ensures Holding(a + b, hash) == Holding(a, hash) + Holding(b, hash)
  {
    if b == [] {
      assert a + b == a;
    } else {
      HoldingConcat(a, b[..|b| - 1], hash);
      assert (a + b)[..|a + b| - 1] == a + b[..|b| - 1];
    }
  }

  lemma {:induction false} PurgeHolds(codes: seq<Code>, now: Time, hash: string)
    ensures Holding(Purge(codes, now), hash) <= Holding(codes, hash)
  {
    if codes != [] {
      var n := |codes| - 1;
      PurgeHolds(codes[..n], now, hash);
      HoldingConcat(Purge(codes[..n], now), [codes[n]], hash);
      HoldingOne(codes[n], hash);
    }
  }

  lemma {:induction false} PurgeMembers(codes: seq<Code>, now: Time)
    ensures forall c :: c in Purge(codes, now) <==> c in codes && now <= c.expiresAt
  {
    if codes != [] {
      var n := |codes| - 1;
      PurgeMembers(codes[..n], now);
      assert codes == codes[..n] + [codes[n]];
    }
  }

  lemma HoldingOne(c: Code, hash: string)
    ensures Holding([c], hash) == if c.hash == hash then 1 else 0
  {
    assert [c][..0] == [];
  }

  lemma HoldingRemoved(codes: seq<Code>, i: nat, hash: string)
    requires i < |codes|
    ensures Holding(codes[..i] + codes[i + 1..], hash) == Holding(codes, hash) - if codes[i].hash == hash then 1 else 0
  {
    assert codes == codes[..i] + ([codes[i]] + codes[i + 1..]);
    HoldingConcat(codes[..i], [codes[i]] + codes[i + 1..], hash);
    HoldingConcat([codes[i]], codes[i + 1..], hash);
    HoldingConcat(codes[..i], codes[i + 1..], hash);
    HoldingOne(codes[i], hash);
  }

  lemma StepBalances(codes: seq<Code>, op: Op, env: Env, hash: string)
    ensures var (next, r) := Step(codes, op, env);
            Holding(next, hash) + (if r.Taken? && r.code.hash == hash then 1 else 0)
            <= Holding(codes, hash)
               + if (op.Create? && op.hash == hash) || (op.Restore? && op.taken.hash == hash) then 1 else 0
  {
    match op {
      case Create(h, name, ttl) => CreateBalances(codes, h, name, ttl, env, hash);
      case Take(h) => TakeBalances(codes, h, env, hash);
      case Restore(taken) => RestoreBalances(codes, taken, env, hash);
    }
  }

  lemma CreateBalances(codes: seq<Code>, h: string, name: string, ttl: Time, env: Env, hash: string)
    ensures Holding(Step(codes, Create(h, name, ttl), env).0, hash) <= Holding(codes, hash) + if h == hash then 1 else 0
  {
    var code := NewCode(h, name, ttl, env.now);
    PurgeHolds(codes, env.purgedAt, hash);
    HoldingConcat(Purge(codes, env.purgedAt), [code], hash);
    HoldingOne(code, hash);
  }

  lemma TakeBalances(codes: seq<Code>, h: string, env: Env, hash: string)
    ensures var (next, r) := Step(codes, Take(h), env);
            Holding(next, hash) + (if r.Taken? && r.code.hash == hash then 1 else 0) <= Holding(codes, hash)
  {
    var (next, r) := Step(codes, Take(h), env);
    var i := FirstByHash(codes, h);
    if i < 0 {
      PurgeHolds(codes, env.now, hash);
      assert !r.Taken? && (next == codes || next == Purge(codes, env.now));
    } else {
      TakeOne(codes, i, env.now, hash);
      assert next == codes || next == Purge(codes[..i] + codes[i + 1..], env.now);
      assert r.Taken? ==> r.code == codes[i] && next == Purge(codes[..i] + codes[i + 1..], env.now);
    }
  }

  lemma TakeOne(codes: seq<Code>, i: nat, now: Time, hash: string)
    requires i < |codes|
    ensures Holding(Purge(codes[..i] + codes[i + 1..], now), hash) + (if codes[i].hash == hash then 1 else 0)
            <= Holding(codes, hash)
  {
    HoldingRemoved(codes, i, hash);
    PurgeHolds(codes[..i] + codes[i + 1..], now, hash);
  }

  lemma RestoreBalances(codes: seq<Code>, taken: Code, env: Env, hash: string)
    ensures Holding(Step(codes, Restore(taken), env).0, hash)
            <= Holding(codes, hash) + if taken.hash == hash then 1 else 0
  {
    PurgeHolds(codes, env.now, hash);
    HoldingConcat(codes, [taken], hash);
    HoldingOne(taken, hash);
    PurgeHolds(codes + [taken], env.now, hash);
  }

  /**
    Codes are one-shot: over every history a code is taken successfully no more often than it was created
    or put back, whichever writes failed and whether or not their bytes reached the file.
   */
  lemma {:induction false} RedeemedAtMostSupplied(acts: seq<Action>, hash: string)
    ensures Redeemed(acts, hash) + Holding(Run(acts), hash) <= Supplied(acts, hash)
  {
    if acts != [] {
      var n := |acts| - 1;
      RedeemedAtMostSupplied(acts[..n], hash);
      StepBalances(Run(acts[..n]), acts[n].op, acts[n].env, hash);
    }
  }

  // ---- expiry ----

  /** The codes that the Create calls of a history stamp. */
  function Minted(acts: seq<Action>): set<Code> {
    if acts == [] then {}
    else
      var a := acts[|acts| - 1];
      Minted(acts[..|acts| - 1])
      + if a.op.Create? then {NewCode(a.op.hash, a.op.name, a.op.ttl, a.env.now)} else {}
  }

  /** What Take handed out so far. */
  function HandedOut(acts: seq<Action>): set<Code> {
    if acts == [] then {}
    else
      var r := ResultAt(acts, |acts| - 1);
      HandedOut(acts[..|acts| - 1]) + if r.Taken? then {r.code} else {}
  }

  /** Only what Take handed out is ever put back; the empty hash is the zero value. */
  predicate Honest(acts: seq<Action>) {
    acts != [] ==>
      var before, op := acts[..|acts| - 1], acts[|acts| - 1].op;
      Honest(before) && (op.Restore? ==> op.taken.hash == "" || op.taken in HandedOut(before))
  }

  lemma StepMembers(codes: seq<Code>, op: Op, env: Env, c: Code)
    requires c in Step(codes, op, env).0
    ensures c in codes || (op.Restore? && c == op.taken && op.taken.hash != "")
            || (op.Create? && c == NewCode(op.hash, op.name, op.ttl, env.now))
  {
    PurgeMembers(codes, env.purgedAt);
    PurgeMembers(codes, env.now);
    if op.Take? {
      var i := FirstByHash(codes, op.hash);
      if i >= 0 {
        PurgeMembers(codes[..i] + codes[i + 1..], env.now);
      }
    } else if op.Restore? {
      PurgeMembers(codes + [op.taken], env.now);
    }
  }

  lemma {:induction false} EveryCodeWasMinted(acts: seq<Action>)
    requires Honest(acts)
    ensures forall c :: c in Run(acts) || c in HandedOut(acts) ==> c in Minted(acts)
  {
    if acts != [] {
      var n := |acts| - 1;
      EveryCodeWasMinted(acts[..n]);
      forall c | c in Run(acts) ensures c in Minted(acts) {
        StepMembers(Run(acts[..n]), acts[n].op, acts[n].env, c);
      }
    }
  }

  lemma {:induction false} MintedLifetime(acts: seq<Action>, c: Code)
    requires c in Minted(acts)
    ensures c.createdAt < c.expiresAt <= c.createdAt + MAX_TTL
  {
    var n := |acts| - 1;
    if c in Minted(acts[..n]) {
      MintedLifetime(acts[..n], c);
    }
  }

  lemma {:induction false} HonestPrefix(acts: seq<Action>, i: nat)
    requires Honest(acts) && i <= |acts|
    ensures Honest(acts[..i])
  {
    if i < |acts| {
      HonestPrefix(acts[..|acts| - 1], i);
      assert acts[..|acts| - 1][..i] == acts[..i];
    } else {
      assert acts[..i] == acts;
    }
  }

  /**
    Every code taken carries exactly the stamp a Create gave it, is taken no later than the expiry in that
    stamp, and so never more than MAX_TTL after it was created: putting a code back does not extend it.
   */
  lemma TakenWithinLifetime(acts: seq<Action>, i: nat)
    requires Honest(acts) && i < |acts| && ResultAt(acts, i).Taken?
    ensures var c := ResultAt(acts, i).code;
            && c in Minted(acts[..i]) && acts[i].env.now <= c.expiresAt <= c.createdAt + MAX_TTL
            && acts[i].op == Take(c.hash)
  {
    HonestPrefix(acts, i);
    EveryCodeWasMinted(acts[..i]);
    var c := ResultAt(acts, i).code;
    assert c in Run(acts[..i]);
    MintedLifetime(acts[..i], c);
  }

  /** A code in the file that is not yet expired can be taken once, and then not again until it is put back. */
  lemma TakeThenTake(codes: seq<Code>, hash: string, env: Env, later: Env)
    requires Holding(codes, hash) == 1 && Step(codes, Take(hash), env).1.Taken?
    ensures !Step(Step(codes, Take(hash), env).0, Take(hash), later).1.Taken?
  {
    var (next, r) := Step(codes, Take(hash), env);
    StepBalances(codes, Take(hash), env, hash);
    var j := FirstByHash(next, hash);
    if j >= 0 {
      HoldingRemoved(next, j, hash);
      assert false;
    }
  }

  /** Putting a taken code back in time makes it takeable again, with its old stamp. */
  lemma RestoreThenTake(codes: seq<Code>, c: Code, env: Env, later: Env)
    requires c.hash != "" && FirstByHash(codes, c.hash) < 0
    requires env.locked && env.readable && env.write == Written && env.now <= c.expiresAt
    requires later.locked && later.readable && later.write == Written && later.now <= c.expiresAt
    ensures Step(Step(codes, Restore(c), env).0, Take(c.hash), later).1 == Taken(c)
  {
    var next := Purge(codes + [c], env.now);
    assert Step(codes, Restore(c), env).0 == next;
    PurgeMembers(codes + [c], env.now);
    TakeFinds(next, c, later);
  }

  lemma TakeFinds(codes: seq<Code>, c: Code, env: Env)
    requires c in codes && forall x :: x in codes && x.hash == c.hash ==> x == c
    requires env.locked && env.readable && env.write == Written && env.now <= c.expiresAt
    ensures Step(codes, Take(c.hash), env).1 == Taken(c)
  {
    var i := FirstByHash(codes, c.hash);
    assert codes[i] in codes;
  }

  // ---- what a caller can count on ----

  /** The stamp of a created code: from now, for the time asked for, or five minutes, or at most an hour. */
  lemma CreatedStamp(codes: seq<Code>, hash: string, name: string, ttl: Time, env: Env)
    requires Step(codes, Create(hash, name, ttl), env).1.Created?
    ensures var c := Step(codes, Create(hash, name, ttl), env).1.code;
            && c.hash == hash && c.createdAt == env.now && (name != "" ==> c.name == name) && (name == "" ==> c.name == "device")
            && (0 < ttl <= 3600 ==> c.expiresAt == env.now + ttl)
            && (ttl <= 0 ==> c.expiresAt == env.now + 300) && (ttl > 3600 ==> c.expiresAt == env.now + 3600)
            && c in Step(codes, Create(hash, name, ttl), env).0
  {
    var c := NewCode(hash, name, ttl, env.now);
    assert c in Purge(codes, env.purgedAt) + [c];
  }

  /** No operation but a Take of the code itself drops a code that has not expired, whatever its write does. */
  lemma StepKeeps(codes: seq<Code>, op: Op, env: Env, c: Code)
    requires c in codes && op != Take(c.hash) && env.now <= c.expiresAt && env.purgedAt <= c.expiresAt
    ensures c in Step(codes, op, env).0
  {
    match op {
      case Take(h) => TakeKeeps(codes, h, env, c);
      case Restore(taken) =>
        PurgeMembers(codes, env.now);
        PurgeMembers(codes + [taken], env.now);
        assert c in codes + [taken];
      case Create(_, _, _) => PurgeMembers(codes, env.purgedAt);
    }
  }

  lemma TakeKeeps(codes: seq<Code>, h: string, env: Env, c: Code)
    requires c in codes && h != c.hash && env.now <= c.expiresAt
    ensures c in Step(codes, Take(h), env).0
  {
    var i := FirstByHash(codes, h);
    if i < 0 {
      PurgeMembers(codes, env.now);
    } else {
      OthersRemain(codes, i, c);
      PurgeMembers(codes[..i] + codes[i + 1..], env.now);
    }
  }

  lemma OthersRemain(codes: seq<Code>, i: nat, c: Code)
    requires i < |codes| && c in codes && c != codes[i]
    ensures c in codes[..i] + codes[i + 1..]
  {
    var k :| 0 <= k < |codes| && codes[k] == c;
    if k < i {
      assert codes[..i][k] == c;
    } else {
      assert codes[i + 1..][k - i - 1] == c;
    }
  }

  /** The only code with its hash. */
  predicate OnlyOne(codes: seq<Code>, c: Code) {
    c in codes && forall i :: 0 <= i < |codes| && codes[i].hash == c.hash ==> codes[i] == c
  }

  /** What Take answers about a code that is in the file once: taken in time, reported as expired afterwards. */
  lemma TakeAnswers(codes: seq<Code>, c: Code, env: Env)
    requires OnlyOne(codes, c) && env.locked && env.readable
    ensures var r := Step(codes, Take(c.hash), env).1;
            && (r == Taken(c) <==> env.now <= c.expiresAt && env.write == Written)
            && (r == Expired <==> env.now > c.expiresAt)
  {
    var i := FirstByHash(codes, c.hash);
    var k :| 0 <= k < |codes| && codes[k] == c;
  }

  /** An unknown code is invalid, and only an unknown one. */
  lemma InvalidIff(codes: seq<Code>, hash: string, env: Env)
    requires env.locked && env.readable
    ensures Step(codes, Take(hash), env).1 == Invalid <==> forall i :: 0 <= i < |codes| ==> codes[i].hash != hash
  {
    var i := FirstByHash(codes, hash);
    if i >= 0 {
      assert codes[i].hash == hash;
    }
  }

  /** An action that neither takes, makes nor puts back a code with this hash, at a time not after `until`. */
  predicate Elsewhere(a: Action, hash: string, until: Time) {
    && a.env.now <= until && a.env.purgedAt <= until
    && (match a.op case Create(h, _, _) => h != hash case Take(h) => h != hash case Restore(t) => t.hash != hash)
  }

  lemma ElsewhereKeeps(codes: seq<Code>, a: Action, c: Code)
    requires OnlyOne(codes, c) && Elsewhere(a, c.hash, c.expiresAt)
    ensures OnlyOne(Step(codes, a.op, a.env).0, c)
  {
    StepKeeps(codes, a.op, a.env, c);
    var next := Step(codes, a.op, a.env).0;
    forall i | 0 <= i < |next| && next[i].hash == c.hash ensures next[i] == c {
      StepMembers(codes, a.op, a.env, next[i]);
    }
  }

  lemma {:induction false} CreatedStays(acts: seq<Action>, k: nat, c: Code)
    requires k < |acts| && acts[k].op.Create? && ResultAt(acts, k) == Created(c)
    requires forall i :: 0 <= i < |Run(acts[..k])| ==> Run(acts[..k])[i].hash != c.hash
    requires forall i :: k < i < |acts| ==> Elsewhere(acts[i], c.hash, c.expiresAt)
    ensures OnlyOne(Run(acts), c)
  {
    var n := |acts| - 1;
    if k == n {
      CreatedIsOnly(Run(acts[..k]), acts[k], c);
    } else {
      assert acts[..n][..k] == acts[..k];
      CreatedStays(acts[..n], k, c);
      ElsewhereKeeps(Run(acts[..n]), acts[n], c);
    }
  }

  lemma CreatedIsOnly(codes: seq<Code>, a: Action, c: Code)
    requires a.op.Create? && Step(codes, a.op, a.env).1 == Created(c)
    requires forall i :: 0 <= i < |codes| ==> codes[i].hash != c.hash
    ensures OnlyOne(Step(codes, a.op, a.env).0, c)
  {
    var next := Step(codes, a.op, a.env).0;
    assert next[|next| - 1] == c;
    forall i | 0 <= i < |next| && next[i].hash == c.hash ensures next[i] == c {
      StepMembers(codes, a.op, a.env, next[i]);
    }
  }

  /**
    A code that was created can be used: after a Create that succeeded, for a hash not yet in the file, and any
    actions since on other codes, a Take no later than the code's expiry yields that very code.
   */
  lemma CreatedCanBeTaken(acts: seq<Action>, k: nat, c: Code, env: Env)
    requires k < |acts| && acts[k].op.Create? && ResultAt(acts, k) == Created(c)
    requires forall i :: 0 <= i < |Run(acts[..k])| ==> Run(acts[..k])[i].hash != c.hash
    requires forall i :: k < i < |acts| ==> Elsewhere(acts[i], c.hash, c.expiresAt)
    requires env.locked && env.readable && env.write == Written && env.now <= c.expiresAt
    ensures Step(Run(acts), Take(c.hash), env).1 == Taken(c)
  {
    CreatedStays(acts, k, c);
    TakeAnswers(Run(acts), c, env);
  }

  /** A code past its expiry is not put back. */
  lemma ExpiredIsNotRestored(codes: seq<Code>, c: Code, env: Env)
    requires c.hash != "" && c.expiresAt != 0 && env.now > c.expiresAt && c !in codes
    ensures c !in Step(codes, Restore(c), env).0
  {
    PurgeMembers(codes, env.now);
  }

  /** Restore never doubles a code: what was in the file at most once stays so, and what was already there stays as it was. */
  lemma RestoreNeverDoubles(codes: seq<Code>, c: Code, env: Env, hash: string)
    requires Holding(codes, hash) <= 1
    ensures Holding(Step(codes, Restore(c), env).0, hash) <= 1
  {
    if c.hash == hash {
      if FirstByHash(codes, hash) < 0 {
        NoneHeld(codes, hash);
        RestoreBalances(codes, c, env, hash);
      } else {
        PurgeHolds(codes, env.now, hash);
      }
    } else {
      RestoreBalances(codes, c, env, hash);
    }
  }

  lemma {:induction false} NoneHeld(codes: seq<Code>, hash: string)
    requires forall i :: 0 <= i < |codes| ==> codes[i].hash != hash
    ensures Holding(codes, hash) == 0
  {
    if codes != [] {
      NoneHeld(codes[..|codes| - 1], hash);
    }
  }

  /** Every Create of a history is of a hash not in the file at that moment. */
  predicate FreshCreates(acts: seq<Action>) {
    acts != [] ==>
      var before, op := acts[..|acts| - 1], acts[|acts| - 1].op;
      FreshCreates(before) && (op.Create? ==> Holding(Run(before), op.hash) == 0)
  }

  /** So no code is ever in the file twice, however often it is taken and put back. */
  lemma {:induction false} NeverTwice(acts: seq<Action>, hash: string)
    requires FreshCreates(acts)
    ensures Holding(Run(acts), hash) <= 1
  {
    if acts != [] {
      var n := |acts| - 1;
      NeverTwice(acts[..n], hash);
      if acts[n].op.Restore? {
        RestoreNeverDoubles(Run(acts[..n]), acts[n].op.taken, acts[n].env, hash);
      } else {
        StepBalances(Run(acts[..n]), acts[n].op, acts[n].env, hash);
      }
    }
  }

  /** Expired codes do not pile up: whenever Take or Create writes the file, nothing expired by then is left in it. */
  lemma ExpiredArePurged(codes: seq<Code>, op: Op, env: Env)
    requires op.Take? || op.Create?
    requires env.locked && env.readable && env.write != NotWritten && env.purgedAt <= env.now
    ensures forall c :: c in Step(codes, op, env).0 ==> (if op.Create? then env.purgedAt else env.now) <= c.expiresAt
  {
    PurgeMembers(codes, env.purgedAt);
    PurgeMembers(codes, env.now);
    if op.Take? {
      var i := FirstByHash(codes, op.hash);
      if i >= 0 {
        PurgeMembers(codes[..i] + codes[i + 1..], env.now);
      }
    }
  }
}
