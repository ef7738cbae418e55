/** Any number of processes sharing one device file, over any interleaving of their operations. */
module DeviceHistory {
  import opened Common
  import opened DeviceList
  import opened DeviceProofs

  datatype System = System(file: File, procs: seq<Mem>)

  /** Process `p` performs one operation. */
  datatype Action = Action(p: nat, op: Op, env: Env)

  function Next(s: System, a: Action): System
    requires a.p < |s.procs|
  {
    var (f, m, _) := Step(s.file, s.procs[a.p], a.op, a.env);
    System(f, s.procs[a.p := m])
  }

  predicate Actors(s: System, acts: seq<Action>) {
    forall i :: 0 <= i < |acts| ==> acts[i].p < |s.procs|
  }

  function Run(s: System, acts: seq<Action>): (r: System)
    requires Actors(s, acts)
    ensures |r.procs| == |s.procs|
  {
    if acts == [] then s else Next(Run(s, acts[..|acts| - 1]), acts[|acts| - 1])
  }

  /** Ids and token hashes that were ever given out: to the devices first listed, or by a Create. */
  function IssuedIds(s: System, acts: seq<Action>): set<string> {
    if acts == [] then Ids(Contents(s.file))
    else
      var a := acts[|acts| - 1];
      IssuedIds(s, acts[..|acts| - 1]) + if a.op.Create? then {a.op.device.id} else {}
  }

  function IssuedHashes(s: System, acts: seq<Action>): set<string> {
    if acts == [] then Hashes(Contents(s.file))
    else
      var a := acts[|acts| - 1];
      IssuedHashes(s, acts[..|acts| - 1]) + if a.op.Create? then {a.op.device.tokenHash} else {}
  }

  /** Create mints an id and a token never given out before, for a device never used. */
  predicate MintsFresh(s: System, acts: seq<Action>) {
    acts != [] ==>
      var before, a := acts[..|acts| - 1], acts[|acts| - 1];
      && MintsFresh(s, before)
      && (a.op.Create? ==>
            && a.op.device.id !in IssuedIds(s, before)
            && a.op.device.tokenHash !in IssuedHashes(s, before)
            && a.op.device.lastUsed.None?)
  }

  /** No device is listed twice, in the file or in a cache. */
  predicate Sound(s: System) {
    Distinct(Contents(s.file)) && forall p :: 0 <= p < |s.procs| ==> Distinct(s.procs[p].devices)
  }

  lemma StepSound(f: File, m: Mem, op: Op, env: Env)
    requires Distinct(Contents(f)) && Distinct(m.devices)
    requires op.Create? ==> op.device.id !in Ids(Contents(f))
    ensures Distinct(Contents(Step(f, m, op, env).0)) && Distinct(Step(f, m, op, env).1.devices)
  {
    MergedFollows(Pending(m), Contents(f));
    BodySound(f, Refreshed(f, m), op, env);
  }

  lemma BodySound(f: File, m: Mem, op: Op, env: Env)
    requires Distinct(Contents(f)) && Distinct(m.devices)
    requires op.Create? ==> op.device.id !in Ids(m.devices)
    ensures Distinct(Contents(Body(f, m, op, env).0)) && Distinct(Body(f, m, op, env).1.devices)
  {
    ApplyDistinct(op, m.devices, env.now);
  }

  /** A step lists nothing new but what it creates. */
  lemma StepIds(f: File, m: Mem, op: Op, env: Env)
    requires Distinct(Contents(f))
    ensures Ids(Contents(Step(f, m, op, env).0)) <= Ids(Contents(f)) + if op.Create? then {op.device.id} else {}
    ensures Hashes(Contents(Step(f, m, op, env).0))
            <= Hashes(Contents(f)) + if op.Create? then {op.device.tokenHash} else {}
  {
    FileAfter(f, m, op, env);
    if Took(f, m, op, env) {
      MergedFollows(Pending(m), Contents(f));
      MergedHashes(Pending(m), Contents(f));
      ApplyIds(op, Refreshed(f, m).devices, env.now);
    }
  }

  lemma MergedHashes(pending: map<string, Time>, devices: seq<Device>)
    ensures Hashes(Merged(pending, devices)) <= Hashes(devices)
  {
    var merged := Merged(pending, devices);
    forall d | d in merged ensures d.tokenHash in Hashes(devices) {
      var i :| 0 <= i < |merged| && merged[i] == d;
      assert d == Touched(pending, devices[i]) && devices[i] in devices;
    }
  }

  lemma ApplyIds(op: Op, devices: seq<Device>, now: Time)
    requires Distinct(devices)
    ensures Ids(Apply(op, devices, now)) <= Ids(devices) + if op.Create? then {op.device.id} else {}
    ensures Hashes(Apply(op, devices, now)) <= Hashes(devices) + if op.Create? then {op.device.tokenHash} else {}
  {
    forall e | e in Apply(op, devices, now) && op != Create(e)
      ensures e.id in Ids(devices) && e.tokenHash in Hashes(devices)
    {
      var d := ApplySource(op, devices, now, e);
    }
  }

  lemma ApplySource(op: Op, devices: seq<Device>, now: Time, e: Device) returns (d: Device)
    requires Distinct(devices) && e in Apply(op, devices, now) && op != Create(e)
    ensures d in devices && d.id == e.id && d.tokenHash == e.tokenHash
  {
    d := e;
    match op {
      case Revoke(key) => RemoveMembers(devices, RevokeIndex(devices, key));
      case RevokeByKey(_, _) => KeptMembers(op, devices);
      case Prune(_, _) => KeptMembers(op, devices);
      case Validate(_) => var k :| 0 <= k < |devices| && e == Apply(op, devices, now)[k]; d := devices[k];
      case Backfill(_, _) => var k :| 0 <= k < |devices| && e == Apply(op, devices, now)[k]; d := devices[k];
      case _ =>
    }
  }

  /** Every reachable system lists no device twice and only devices that were given out. */
  lemma {:induction false} RunSound(s: System, acts: seq<Action>)
    requires Sound(s) && Actors(s, acts) && MintsFresh(s, acts)
    ensures Sound(Run(s, acts))
    ensures Ids(Contents(Run(s, acts).file)) <= IssuedIds(s, acts)
    ensures Hashes(Contents(Run(s, acts).file)) <= IssuedHashes(s, acts)
  {
    if acts != [] {
      var before, a := acts[..|acts| - 1], acts[|acts| - 1];
      RunSound(s, before);
      var t := Run(s, before);
      StepSound(t.file, t.procs[a.p], a.op, a.env);
      StepIds(t.file, t.procs[a.p], a.op, a.env);
    }
  }

  lemma {:induction false} IssuedGrows(s: System, acts: seq<Action>, k: nat)
    requires k <= |acts|
    ensures IssuedIds(s, acts[..k]) <= IssuedIds(s, acts)
    ensures IssuedHashes(s, acts[..k]) <= IssuedHashes(s, acts)
  {
    if k < |acts| {
      IssuedGrows(s, acts[..|acts| - 1], k);
      assert acts[..|acts| - 1][..k] == acts[..k];
    } else {
      assert acts[..k] == acts;
    }
  }

  /**
    A device that was given out and is no longer in the file never comes back: no cache, no flush of use
    times, no failed write and no restart of any process brings it back, and neither does its token.
   */
  lemma {:induction false} RevokedNeverReturns(s: System, acts: seq<Action>, k: nat, id: string, hash: string)
    requires Sound(s) && Actors(s, acts) && MintsFresh(s, acts) && k <= |acts|
    ensures id in IssuedIds(s, acts[..k]) && id !in Ids(Contents(Run(s, acts[..k]).file))
            ==> id !in Ids(Contents(Run(s, acts).file))
    ensures hash in IssuedHashes(s, acts[..k]) && hash !in Hashes(Contents(Run(s, acts[..k]).file))
            ==> hash !in Hashes(Contents(Run(s, acts).file))
  {
    if k == |acts| {
      assert acts[..k] == acts;
    } else {
      var before, a := acts[..|acts| - 1], acts[|acts| - 1];
      assert before[..k] == acts[..k];
      RevokedNeverReturns(s, before, k, id, hash);
      RunSound(s, before);
      IssuedGrows(s, before, k);
      var t := Run(s, before);
      StepIds(t.file, t.procs[a.p], a.op, a.env);
    }
  }

  /** A token that no listed device carries is refused by every process. */
  lemma UnlistedTokenRefused(f: File, m: Mem, hash: string, env: Env)
    requires hash !in Hashes(Contents(f))
    ensures !Step(f, m, Validate(hash), env).2.Ok?
  {
    var devices := Refreshed(f, m).devices;
    if FirstByHash(devices, hash) >= 0 {
      MergedFollows(Pending(m), Contents(f));
      assert false;
    }
  }

  /**
    Revocation is final across processes: once some process's Revoke of a listed id has succeeded, then
    after any further actions of anybody the id is not listed and its token is accepted by no process.
   */
  lemma RevokeIsFinal(s: System, acts: seq<Action>, k: nat, device: Device, p: nat, env: Env)
    requires Sound(s) && UniqueTokens(Contents(s.file)) && Actors(s, acts) && MintsFresh(s, acts)
    requires k < |acts| && p < |s.procs|
    requires acts[k].op == Revoke(device.id) && Core(device) in Cores(Contents(Run(s, acts[..k]).file))
    requires var t := Run(s, acts[..k]); Step(t.file, t.procs[acts[k].p], acts[k].op, acts[k].env).2.Ok?
    ensures device.id !in Ids(Contents(Run(s, acts).file))
    ensures !Step(Run(s, acts).file, Run(s, acts).procs[p], Validate(device.tokenHash), env).2.Ok?
  {
    var t, a := Run(s, acts[..k]), acts[k];
    PrefixFresh(s, acts, k);
    RunSound(s, acts[..k]);
    RunUniqueTokens(s, acts[..k]);
    var listed := ListedCore(Contents(t.file), device);
    RevokedTokenIsGone(t.file, t.procs[a.p], listed, a.env);
    assert acts[..k + 1][..k] == acts[..k];
    IssuedGrows(s, acts[..k + 1], k);
    RevokedNeverReturns(s, acts, k + 1, device.id, device.tokenHash);
    UnlistedTokenRefused(Run(s, acts).file, Run(s, acts).procs[p], device.tokenHash, env);
  }

  lemma ListedCore(devices: seq<Device>, device: Device) returns (d: Device)
    requires Core(device) in Cores(devices)
    ensures d in devices && d.id == device.id && d.tokenHash == device.tokenHash
  {
    var i :| 0 <= i < |devices| && Core(device) == Cores(devices)[i];
    d := devices[i];
  }

  lemma RevokedTokenIsGone(f: File, m: Mem, d: Device, env: Env)
    requires Distinct(Contents(f)) && UniqueTokens(Contents(f)) && d in Contents(f) && Step(f, m, Revoke(d.id), env).2.Ok?
    ensures d.id !in Ids(Contents(Step(f, m, Revoke(d.id), env).0))
    ensures d.tokenHash !in Hashes(Contents(Step(f, m, Revoke(d.id), env).0))
  {
    RevokeRemoves(f, m, d.id, env);
    RevokeHashes(f, m, d.id, env, d.tokenHash);
  }

  // ---- tokens ----

  predicate UniqueTokens(devices: seq<Device>) {
    forall i, j :: 0 <= i < j < |devices| ==> devices[i].tokenHash != devices[j].tokenHash
  }

  lemma KeptUniqueTokens(op: Op, devices: seq<Device>)
    requires UniqueTokens(devices)
    ensures UniqueTokens(Kept(op, devices))
  {
    if devices != [] {
      var n := |devices| - 1;
      var rest := Kept(op, devices[..n]);
      KeptUniqueTokens(op, devices[..n]);
      KeptMembers(op, devices[..n]);
      forall i | 0 <= i < |rest| ensures rest[i].tokenHash != devices[n].tokenHash {
        assert rest[i] in devices[..n];
      }
    }
  }

  lemma RemoveUniqueTokens(devices: seq<Device>, i: int)
    requires -1 <= i < |devices| && UniqueTokens(devices)
    ensures UniqueTokens(RemoveAt(devices, i))
  {
    if i >= 0 {
      var rest := RemoveAt(devices, i);
      forall j, k | 0 <= j < k < |rest| ensures rest[j].tokenHash != rest[k].tokenHash {
        var a, b := if j < i then j else j + 1, if k < i then k else k + 1;
        assert rest[j] == devices[a] && rest[k] == devices[b];
      }
    }
  }

  lemma ApplyUniqueTokens(op: Op, devices: seq<Device>, now: Time)
    requires UniqueTokens(devices) && (op.Create? ==> op.device.tokenHash !in Hashes(devices))
    ensures UniqueTokens(Apply(op, devices, now))
  {
    match op {
      case Create(d) =>
        forall i | 0 <= i < |devices| ensures devices[i].tokenHash != d.tokenHash {
          assert devices[i] in devices;
        }
      case Revoke(key) => RemoveUniqueTokens(devices, RevokeIndex(devices, key));
      case RevokeByKey(_, _) => KeptUniqueTokens(op, devices);
      case Prune(_, _) => KeptUniqueTokens(op, devices);
      case _ =>
    }
  }

  /** No two devices ever share a token, given that none did at first and Create never repeats one. */
  lemma {:induction false} RunUniqueTokens(s: System, acts: seq<Action>)
    requires Sound(s) && UniqueTokens(Contents(s.file)) && Actors(s, acts) && MintsFresh(s, acts)
    ensures UniqueTokens(Contents(Run(s, acts).file))
  {
    if acts != [] {
      var before, a := acts[..|acts| - 1], acts[|acts| - 1];
      RunUniqueTokens(s, before);
      RunSound(s, before);
      var t := Run(s, before);
      StepUniqueTokens(t.file, t.procs[a.p], a.op, a.env);
    }
  }

  lemma StepUniqueTokens(f: File, m: Mem, op: Op, env: Env)
    requires UniqueTokens(Contents(f)) && (op.Create? ==> op.device.tokenHash !in Hashes(Contents(f)))
    ensures UniqueTokens(Contents(Step(f, m, op, env).0))
  {
    FileAfter(f, m, op, env);
    if Took(f, m, op, env) {
      var devices := Refreshed(f, m).devices;
      assert forall i :: 0 <= i < |devices| ==> devices[i] == Touched(Pending(m), Contents(f)[i]);
      MergedHashes(Pending(m), Contents(f));
      ApplyUniqueTokens(op, devices, env.now);
    }
  }

  lemma {:induction false} PrefixFresh(s: System, acts: seq<Action>, k: nat)
    requires MintsFresh(s, acts) && k <= |acts|
    ensures MintsFresh(s, acts[..k])
  {
    if k < |acts| {
      PrefixFresh(s, acts[..|acts| - 1], k);
      assert acts[..|acts| - 1][..k] == acts[..k];
    } else {
      assert acts[..k] == acts;
    }
  }

  lemma RevokeRemoves(f: File, m: Mem, id: string, env: Env)
    requires Distinct(Contents(f)) && id in Ids(Contents(f)) && Step(f, m, Revoke(id), env).2.Ok?
    ensures id !in Ids(Contents(Step(f, m, Revoke(id), env).0))
  {
    var devices := Refreshed(f, m).devices;
    MergedFollows(Pending(m), Contents(f));
    assert id in Ids(devices);
    var i := FirstById(devices, id);
    RemoveMembers(devices, RevokeIndex(devices, id));
  }

  lemma RevokeHashes(f: File, m: Mem, id: string, env: Env, hash: string)
    requires Distinct(Contents(f)) && UniqueTokens(Contents(f)) && Step(f, m, Revoke(id), env).2.Ok?
    requires exists d :: d in Contents(f) && d.id == id && d.tokenHash == hash
    ensures hash !in Hashes(Contents(Step(f, m, Revoke(id), env).0))
  {
    var f' := Step(f, m, Revoke(id), env).0;
    var d :| d in Contents(f) && d.id == id && d.tokenHash == hash;
    RevokeRemoves(f, m, id, env);
    FileAfter(f, m, Revoke(id), env);
    forall e | e in Contents(f') ensures e.tokenHash != hash {
      var source := RevokeSource(f, m, id, env, e);
      if e.tokenHash == hash {
        SameToken(Contents(f), source, d);
        assert false;
      }
    }
  }

  lemma SameToken(devices: seq<Device>, a: Device, b: Device)
    requires UniqueTokens(devices) && a in devices && b in devices && a.tokenHash == b.tokenHash
    ensures a == b
  {
    var i :| 0 <= i < |devices| && devices[i] == a;
    var j :| 0 <= j < |devices| && devices[j] == b;
  }

  lemma RevokeSource(f: File, m: Mem, id: string, env: Env, e: Device) returns (d: Device)
    requires Distinct(Contents(f)) && e in Contents(Step(f, m, Revoke(id), env).0)
    ensures d in Contents(f) && d.id == e.id && d.tokenHash == e.tokenHash
  {
    FileAfter(f, m, Revoke(id), env);
    d := e;
    if Took(f, m, Revoke(id), env) {
      var devices := Refreshed(f, m).devices;
      MergedFollows(Pending(m), Contents(f));
      var x := ApplySource(Revoke(id), devices, env.now, e);
      var j :| 0 <= j < |devices| && devices[j] == x;
      d := Contents(f)[j];
    }
  }

  /**
    A device leaves the file only through an operation that removes it, judged on the refreshed list, and
    whose bytes became visible; every other step of every process keeps it.
   */
  lemma GoneOnlyByRemoval(f: File, m: Mem, op: Op, env: Env, d: Device)
    requires Distinct(Contents(f))
    requires d in Contents(f) && d.id !in Ids(Contents(Step(f, m, op, env).0))
    ensures (op.Revoke? || op.RevokeByKey? || op.Prune?) && Took(f, m, op, env)
    ensures exists e :: e in Refreshed(f, m).devices && Follows(d, e) && Removes(op, Refreshed(f, m).devices, e)
  {
    FileAfter(f, m, op, env);
    var devices := Refreshed(f, m).devices;
    MergedFollows(Pending(m), Contents(f));
    var i :| 0 <= i < |Contents(f)| && Contents(f)[i] == d;
    var e := devices[i];
    assert e in devices && Follows(d, e);
    GoneWasRemoved(op, devices, env.now, e);
  }

  /** Step `i` of the history removed this device from the file. */
  ghost predicate RemovedAt(s: System, acts: seq<Action>, i: nat, id: string)
    requires Actors(s, acts) && i < |acts|
  {
    var t, a := Run(s, acts[..i]), acts[i];
    var devices := Refreshed(t.file, t.procs[a.p]).devices;
    && (a.op.Revoke? || a.op.RevokeByKey? || a.op.Prune?) && Took(t.file, t.procs[a.p], a.op, a.env)
    && exists e :: e in devices && e.id == id && Removes(a.op, devices, e)
  }

  /**
    Over any interleaving and any clock: a device listed at one moment and not listed at a later one was taken
    off by a removal between them, judged on the list that removal read, and whose bytes became visible.
   */
  lemma {:induction false} LostOnlyByRemoval(s: System, acts: seq<Action>, k: nat, id: string) returns (i: nat)
    requires Sound(s) && Actors(s, acts) && MintsFresh(s, acts) && k <= |acts|
    requires id in Ids(Contents(Run(s, acts[..k]).file)) && id !in Ids(Contents(Run(s, acts).file))
    ensures k <= i < |acts| && RemovedAt(s, acts, i, id)
  {
    var n := |acts| - 1;
    assert acts[..|acts|] == acts;
    var before := acts[..n];
    assert before[..k] == acts[..k];
    if id in Ids(Contents(Run(s, before).file)) {
      i := n;
      RunSound(s, before);
      LastStepRemoved(Run(s, before), acts[n], id);
    } else {
      i := LostOnlyByRemoval(s, before, k, id);
      assert before[..i] == acts[..i];
    }
  }

  lemma LastStepRemoved(t: System, a: Action, id: string)
    requires a.p < |t.procs| && Distinct(Contents(t.file))
    requires id in Ids(Contents(t.file)) && id !in Ids(Contents(Next(t, a).file))
    ensures (a.op.Revoke? || a.op.RevokeByKey? || a.op.Prune?) && Took(t.file, t.procs[a.p], a.op, a.env)
    ensures var devices := Refreshed(t.file, t.procs[a.p]).devices;
            exists e :: e in devices && e.id == id && Removes(a.op, devices, e)
  {
    var d :| d in Contents(t.file) && d.id == id;
    GoneOnlyByRemoval(t.file, t.procs[a.p], a.op, a.env, d);
  }

  lemma GoneWasRemoved(op: Op, devices: seq<Device>, now: Time, d: Device)
    requires Distinct(devices) && d in devices && d.id !in Ids(Apply(op, devices, now))
    ensures Removes(op, devices, d) && (op.Revoke? || op.RevokeByKey? || op.Prune?)
  {
    if !Removes(op, devices, d) {
      ApplyKeepsId(op, devices, now, d);
      assert false;
    }
  }
}
