/** What each operation of the device store does for its caller: who is let in, who is listed, who is removed. */
module DeviceAccess {
  import opened Common
  import opened GoStrings
  import opened DeviceList
  import opened DeviceProofs
  import opened DeviceHistory

  /** The environment lets an operation work on the file. */
  predicate Reachable(env: Env) {
    env.locked && env.readable
  }

  // ---- Validate ----

  /** The process owes the file a write of use times. */
  predicate Due(m: Mem, now: Time) {
    now - m.lastFlush >= 5 * 60
  }

  lemma HashesKept(f: File, m: Mem, hash: string)
    ensures hash in Hashes(Contents(f)) <==> FirstByHash(Refreshed(f, m).devices, hash) >= 0
  {
    var devices, file := Refreshed(f, m).devices, Contents(f);
    if hash in Hashes(file) {
      var d :| d in file && d.tokenHash == hash;
      var i :| 0 <= i < |file| && file[i] == d;
      assert devices[i] == Touched(Pending(m), d);
    }
    var k := FirstByHash(devices, hash);
    if k >= 0 {
      assert devices[k] == Touched(Pending(m), file[k]) && file[k] in file;
    }
  }

  /**
    Who is let in, exactly: a token is accepted if and only if it is not empty, a listed device carries it, the
    file could be locked and read, and a write that was due succeeded. What is returned is that device, used now.
   */
  lemma TokenAcceptedIff(f: File, m: Mem, hash: string, env: Env)
    ensures var r := Step(f, m, Validate(hash), env).2;
            && (r.Ok? <==> && hash != "" && hash in Hashes(Contents(f)) && Reachable(env)
                           && (Due(m, env.now) ==> env.write == Written))
            && (r.Ok? ==> && |r.devices| == 1 && r.devices[0].tokenHash == hash && r.devices[0].lastUsed == Some(env.now)
                          && Core(r.devices[0]) in Cores(Contents(f)))
            && (r.InvalidToken? <==> hash == "" || (Reachable(env) && hash !in Hashes(Contents(f))))
  {
    HashesKept(f, m, hash);
    var devices := Refreshed(f, m).devices;
    var k := FirstByHash(devices, hash);
    if k >= 0 {
      CoresMerged(Pending(m), Contents(f));
      assert Cores(devices)[k] == Core(devices[k]) && Cores(devices)[k] in Cores(devices);
    }
  }

  /** Uses are written at most every five minutes, and then they are written. */
  lemma ValidateIsDebounced(f: File, m: Mem, hash: string, env: Env)
    ensures var (f', m', r) := Step(f, m, Validate(hash), env);
            && (!Due(m, env.now) ==> f' == f)
            && (r.Ok? && Due(m, env.now) ==> m' == Mem(Contents(f'), false, env.now) && r.devices[0] in Contents(f'))
            && (r.Ok? && !Due(m, env.now) ==> m'.dirty && r.devices[0] in m'.devices)
  {
    var devices := Refreshed(f, m).devices;
    var k := FirstByHash(devices, hash);
    if k >= 0 {
      var after := devices[k := devices[k].(lastUsed := Some(env.now))];
      assert after[k] in after;
    }
  }

  /** The file lists a device with this id and this token. */
  ghost predicate Lists(devices: seq<Device>, id: string, hash: string) {
    exists d :: d in devices && d.id == id && d.tokenHash == hash
  }

  lemma StepKeepsToken(f: File, m: Mem, op: Op, env: Env, id: string, hash: string)
    requires Distinct(Contents(f)) && Lists(Contents(f), id, hash) && id in Ids(Contents(Step(f, m, op, env).0))
    requires op.Create? ==> op.device.id !in Ids(Contents(f))
    ensures Lists(Contents(Step(f, m, op, env).0), id, hash)
  {
    var d :| d in Contents(f) && d.id == id && d.tokenHash == hash;
    var e :| e in Contents(Step(f, m, op, env).0) && e.id == id;
    PairingNeverChanges(f, m, op, env, d, e);
  }

  lemma {:induction false} TokenStaysWithDevice(s: System, acts: seq<Action>, k: nat, id: string, hash: string)
    requires Sound(s) && Actors(s, acts) && MintsFresh(s, acts) && k <= |acts|
    requires Lists(Contents(Run(s, acts[..k]).file), id, hash)
    requires forall i :: k <= i < |acts| ==> !RemovedAt(s, acts, i, id)
    ensures Lists(Contents(Run(s, acts).file), id, hash)
  {
    if k == |acts| {
      assert acts[..k] == acts;
    } else {
      var n := |acts| - 1;
      var before := acts[..n];
      assert before[..k] == acts[..k];
      forall i | k <= i < n ensures !RemovedAt(s, before, i, id) {
        assert before[..i] == acts[..i] && !RemovedAt(s, acts, i, id);
      }
      TokenStaysWithDevice(s, before, k, id, hash);
      RunSound(s, before);
      NotRemovedStays(s, acts, id, hash);
    }
  }

  lemma NotRemovedStays(s: System, acts: seq<Action>, id: string, hash: string)
    requires Actors(s, acts) && MintsFresh(s, acts) && acts != [] && Sound(Run(s, acts[..|acts| - 1]))
    requires Ids(Contents(Run(s, acts[..|acts| - 1]).file)) <= IssuedIds(s, acts[..|acts| - 1])
    requires Lists(Contents(Run(s, acts[..|acts| - 1]).file), id, hash) && !RemovedAt(s, acts, |acts| - 1, id)
    ensures Lists(Contents(Run(s, acts).file), id, hash)
  {
    var t, a := Run(s, acts[..|acts| - 1]), acts[|acts| - 1];
    if id !in Ids(Contents(Next(t, a).file)) {
      LastStepRemoved(t, a, id);
      assert false;
    }
    StepKeepsToken(t.file, t.procs[a.p], a.op, a.env, id, hash);
  }

  /**
    A paired device gets in: once a Create has succeeded, then after any further actions of anybody in which the
    device was not removed, every process that can reach the file, and write it if it must, accepts its token.
   */
  lemma CreatedDeviceGetsIn(s: System, acts: seq<Action>, k: nat, p: nat, env: Env)
    requires Sound(s) && Actors(s, acts) && MintsFresh(s, acts) && k < |acts| && p < |s.procs|
    requires acts[k].op.Create? && acts[k].op.device.tokenHash != ""
    requires var t := Run(s, acts[..k]); Step(t.file, t.procs[acts[k].p], acts[k].op, acts[k].env).2.Ok?
    requires forall i :: k < i < |acts| ==> !RemovedAt(s, acts, i, acts[k].op.device.id)
    requires Reachable(env) && env.write == Written
    ensures var r := Run(s, acts); Step(r.file, r.procs[p], Validate(acts[k].op.device.tokenHash), env).2.Ok?
  {
    var d, t := acts[k].op.device, Run(s, acts[..k]);
    CreateLists(t.file, t.procs[acts[k].p], d, acts[k].env);
    assert acts[..k + 1][..k] == acts[..k];
    TokenStaysWithDevice(s, acts, k + 1, d.id, d.tokenHash);
    TokenAcceptedIff(Run(s, acts).file, Run(s, acts).procs[p], d.tokenHash, env);
  }

  // ---- Create ----

  /** A Create that succeeds lists its device after all the others, which keep their places, names and keys. */
  lemma CreateLists(f: File, m: Mem, d: Device, env: Env)
    requires Step(f, m, Create(d), env).2.Ok?
    ensures Cores(Contents(Step(f, m, Create(d), env).0)) == Cores(Contents(f)) + [Core(d)]
    ensures d in Contents(Step(f, m, Create(d), env).0) && Step(f, m, Create(d), env).2 == Ok([d])
  {
    var devices := Refreshed(f, m).devices;
    CoresMerged(Pending(m), Contents(f));
    CoresAppend(devices, [d]);
    assert d in devices + [d];
  }

  // ---- Revoke ----

  /** The device a Revoke means: the one with that id, or, when no id matches, one with that name. */
  predicate Means(key: string, devices: seq<Device>, d: Device) {
    d.id == key || (d.name == key && forall i :: 0 <= i < |devices| ==> devices[i].id != key)
  }

  /** Revoke removes exactly one device, the one it means, or reports that there is none and changes nothing. */
  lemma RevokeTakesExactlyOne(f: File, m: Mem, key: string, env: Env)
    requires Distinct(Contents(f)) && Reachable(env) && env.write == Written
    ensures var (f', _, r) := Step(f, m, Revoke(key), env);
            && (r.Ok? || r.NotFound?)
            && (r.NotFound? <==> Unknown(key, Contents(f)))
            && (r.NotFound? ==> f' == f)
            && (r.Ok? ==> && |r.devices| == 1 && Means(key, Contents(f), r.devices[0]) && Core(r.devices[0]) in Cores(Contents(f))
                          && Ids(Contents(f')) == Ids(Contents(f)) - {r.devices[0].id})
  {
    var devices := Refreshed(f, m).devices;
    MergedFollows(Pending(m), Contents(f));
    CoresMerged(Pending(m), Contents(f));
    RevokeFinds(devices, key);
    SameNames(devices, Contents(f), key);
    var k := RevokeIndex(devices, key);
    if k >= 0 {
      assert Means(key, Contents(f), devices[k]) <==> Means(key, devices, devices[k]);
      CoreListed(devices, k);
      RemoveIds(devices, k);
    }
  }

  predicate Unknown(key: string, devices: seq<Device>) {
    forall i :: 0 <= i < |devices| ==> devices[i].id != key && devices[i].name != key
  }

  lemma RevokeFinds(devices: seq<Device>, key: string)
    ensures RevokeIndex(devices, key) < 0 <==> Unknown(key, devices)
    ensures RevokeIndex(devices, key) >= 0 ==> Means(key, devices, devices[RevokeIndex(devices, key)])
  {
  }

  lemma SameNames(a: seq<Device>, b: seq<Device>, key: string)
    requires Cores(a) == Cores(b)
    ensures Unknown(key, a) <==> Unknown(key, b)
    ensures forall d :: Means(key, a, d) <==> Means(key, b, d)
  {
    assert |a| == |Cores(a)| == |b|;
    forall i | 0 <= i < |a| ensures a[i].id == b[i].id && a[i].name == b[i].name {
      assert Cores(a)[i] == Cores(b)[i];
    }
  }

  lemma CoreListed(devices: seq<Device>, k: nat)
    requires k < |devices|
    ensures Core(devices[k]) in Cores(devices)
  {
    assert Cores(devices)[k] == Core(devices[k]);
  }

  lemma RemoveIds(devices: seq<Device>, k: nat)
    requires k < |devices| && Distinct(devices)
    ensures Ids(RemoveAt(devices, k)) == Ids(devices) - {devices[k].id}
  {
    RemoveMembers(devices, k);
    forall id | id in Ids(devices) - {devices[k].id} ensures id in Ids(RemoveAt(devices, k)) {
      var d :| d in devices && d.id == id;
      assert d in RemoveAt(devices, k);
    }
    forall id | id in Ids(RemoveAt(devices, k)) ensures id in Ids(devices) - {devices[k].id} {
      var d :| d in RemoveAt(devices, k) && d.id == id;
      assert d in devices;
    }
  }

  // ---- RevokeByClientKeyFP and Prune ----

  /** After one of the two removals by rule succeeds, the file lists what of the refreshed list the rule keeps, and no more. */
  lemma RuleLeaves(f: File, m: Mem, op: Op, env: Env)
    requires (op.RevokeByKey? || op.Prune?) && !Immediate(op, m) && Step(f, m, op, env).2.Ok?
    ensures forall d :: d in Contents(Step(f, m, op, env).0) ==>
              exists e :: e in Refreshed(f, m).devices && Core(d) == Core(e) && !Drops(op, e)
    ensures forall e :: e in Refreshed(f, m).devices && !Drops(op, e) ==> Core(e) in Cores(Contents(Step(f, m, op, env).0))
  {
    var devices, after := Refreshed(f, m).devices, Contents(Step(f, m, op, env).0);
    FileAfter(f, m, op, env);
    CoresMerged(Pending(m), Contents(f));
    KeptCores(op, devices);
    if !Took(f, m, op, env) {
      NothingDropped(op, devices);
      KeepsAll(op, devices);
    }
    assert Cores(after) == Cores(Kept(op, devices));
    forall d | d in after ensures exists e :: e in devices && Core(d) == Core(e) && !Drops(op, e) {
      var i :| 0 <= i < |after| && after[i] == d;
      CoreListed(after, i);
    }
  }

  lemma KeptCores(op: Op, devices: seq<Device>)
    ensures forall c :: c in Cores(Kept(op, devices)) ==> exists e :: e in devices && c == Core(e) && !Drops(op, e)
    ensures forall e :: e in devices && !Drops(op, e) ==> Core(e) in Cores(Kept(op, devices))
  {
    var kept := Kept(op, devices);
    KeptMembers(op, devices);
    forall c | c in Cores(kept) ensures exists e :: e in devices && c == Core(e) && !Drops(op, e) {
      var i :| 0 <= i < |kept| && Cores(kept)[i] == c;
      assert kept[i] in kept && c == Core(kept[i]);
    }
    forall e | e in devices && !Drops(op, e) ensures Core(e) in Cores(kept) {
      var i :| 0 <= i < |kept| && kept[i] == e;
      CoreListed(kept, i);
    }
  }

  lemma {:induction false} NothingDropped(op: Op, devices: seq<Device>)
    requires Lost(op, devices) == []
    ensures forall d :: d in devices ==> !Drops(op, d)
  {
    if devices != [] {
      var n := |devices| - 1;
      NothingDropped(op, devices[..n]);
      assert devices == devices[..n] + [devices[n]];
    }
  }

  /**
    Pairing the same phone again leaves no twin: after RevokeByClientKeyFP succeeds, no device but the kept one
    carries the key, the kept one is still listed if it was, and so is every device with another key.
   */
  lemma TwinsAreGone(f: File, m: Mem, fp: string, keep: string, env: Env)
    requires TrimSpace(fp) != "" && Step(f, m, RevokeByKey(fp, keep), env).2.Ok?
    ensures var after := Contents(Step(f, m, RevokeByKey(fp, keep), env).0);
            && (forall d :: d in after && d.keyFP == TrimSpace(fp) ==> d.id == keep)
            && (forall d :: d in Contents(f) && (d.id == keep || d.keyFP != TrimSpace(fp)) ==> Core(d) in Cores(after))
  {
    var op := RevokeByKey(fp, keep);
    RuleLeaves(f, m, op, env);
    var after := Contents(Step(f, m, op, env).0);
    forall d | d in Contents(f) && (d.id == keep || d.keyFP != TrimSpace(fp)) ensures Core(d) in Cores(after) {
      var e := InRefreshed(f, m, d);
    }
  }

  lemma InRefreshed(f: File, m: Mem, d: Device) returns (e: Device)
    requires d in Contents(f)
    ensures e in Refreshed(f, m).devices && Core(e) == Core(d) && e.id == d.id && e.keyFP == d.keyFP
  {
    var i :| 0 <= i < |Contents(f)| && Contents(f)[i] == d;
    e := Refreshed(f, m).devices[i];
  }

  /** Pruning devices without a key removes all of them and nobody else. */
  lemma KeylessAreGone(f: File, m: Mem, stale: Option<Time>, env: Env)
    requires Step(f, m, Prune(stale, true), env).2.Ok?
    ensures var after := Contents(Step(f, m, Prune(stale, true), env).0);
            && (forall d :: d in after ==> d.keyFP != "")
            && (forall d :: d in Contents(f) && d.keyFP != "" ==> Core(d) in Cores(after))
  {
    var op := Prune(stale, true);
    RuleLeaves(f, m, op, env);
    var after := Contents(Step(f, m, op, env).0);
    forall d | d in Contents(f) && d.keyFP != "" ensures Core(d) in Cores(after) {
      var e := InRefreshed(f, m, d);
    }
  }

  /**
    Pruning by age goes by the later of the file's and the process's own use times: whoever stays was used at the
    bound or later by that list, and whoever was so used stays. Without a bound nobody goes.
   */
  lemma StaleAreGone(f: File, m: Mem, stale: Option<Time>, env: Env)
    requires Step(f, m, Prune(stale, false), env).2.Ok?
    ensures var op := Prune(stale, false);
            var after, seen := Contents(Step(f, m, op, env).0), Refreshed(f, m).devices;
            && (stale.Some? ==>
                  forall d :: d in after ==>
                    exists e :: e in seen && Core(e) == Core(d) && e.lastUsed.Some? && e.lastUsed.value >= stale.value)
            && (forall e :: e in seen && (stale.None? || (e.lastUsed.Some? && e.lastUsed.value >= stale.value)) ==>
                  Core(e) in Cores(after))
            && (stale.None? ==> Cores(after) == Cores(Contents(f)))
  {
    var op := Prune(stale, false);
    RuleLeaves(f, m, op, env);
    FileAfter(f, m, op, env);
    CoresMerged(Pending(m), Contents(f));
    if stale.None? {
      KeepsAll(op, Refreshed(f, m).devices);
    }
  }

  lemma {:induction false} KeepsAll(op: Op, devices: seq<Device>)
    requires forall d :: d in devices ==> !Drops(op, d)
    ensures Kept(op, devices) == devices
  {
    if devices != [] {
      var n := |devices| - 1;
      assert devices[n] in devices;
      KeepsAll(op, devices[..n]);
      assert devices == devices[..n] + [devices[n]];
    }
  }

  // ---- what never changes ----

  /** The same pairing, with its key filled in at most once. */
  predicate SamePairing(d: Device, e: Device) {
    && d.id == e.id && d.name == e.name && d.tokenHash == e.tokenHash && d.createdAt == e.createdAt && d.keyFP == e.keyFP
    && (d.spki != "" ==> e.spki == d.spki)
  }

  lemma ApplyPairing(op: Op, devices: seq<Device>, now: Time, e: Device) returns (d: Device)
    requires Distinct(devices) && e in Apply(op, devices, now) && op != Create(e)
    ensures d in devices && SamePairing(d, e)
  {
    d := e;
    match op {
      case Revoke(key) => RemoveMembers(devices, RevokeIndex(devices, key));
      case RevokeByKey(_, _) => KeptMembers(op, devices);
      case Prune(_, _) => KeptMembers(op, devices);
      case Validate(_) => var k :| 0 <= k < |devices| && e == Apply(op, devices, now)[k]; d := devices[k];
      case Backfill(_, _) => var k :| 0 <= k < |devices| && e == Apply(op, devices, now)[k]; d := devices[k];
      case _ =>
    }
  }

  /** No step of any process renames a device, changes its token or its key, or overwrites a public key once recorded. */
  lemma PairingNeverChanges(f: File, m: Mem, op: Op, env: Env, d: Device, e: Device)
    requires Distinct(Contents(f)) && (op.Create? ==> op.device.id !in Ids(Contents(f)))
    requires d in Contents(f) && e in Contents(Step(f, m, op, env).0) && d.id == e.id
    ensures SamePairing(d, e)
  {
    FileAfter(f, m, op, env);
    var file := Contents(f);
    var i :| 0 <= i < |file| && file[i] == d;
    if Took(f, m, op, env) {
      var devices := Refreshed(f, m).devices;
      MergedFollows(Pending(m), file);
      assert e.id in Ids(file);
      var x := ApplyPairing(op, devices, env.now, e);
      var j :| 0 <= j < |devices| && devices[j] == x;
      assert x == Touched(Pending(m), file[j]) && i == j;
    } else {
      var j :| 0 <= j < |file| && file[j] == e;
      assert i == j;
    }
  }

  /** Backfill records the key of a listed device that has none, and says so when there is no such device. */
  lemma BackfillRecords(f: File, m: Mem, id: string, spki: string, env: Env)
    requires Distinct(Contents(f)) && spki != "" && Reachable(env) && env.write == Written
    ensures var (f', _, r) := Step(f, m, Backfill(id, spki), env);
            && (r.Ok? || r.NotFound?) && (r.Ok? <==> id in Ids(Contents(f)))
            && (forall d :: d in Contents(f) && d.id == id ==> KeyAfter(Contents(f'), id, if d.spki == "" then spki else d.spki))
  {
    var devices, file := Refreshed(f, m).devices, Contents(f);
    MergedFollows(Pending(m), file);
    FileAfter(f, m, Backfill(id, spki), env);
    ListedIffFound(devices, id);
    forall d | d in file && d.id == id
      ensures KeyAfter(Contents(Step(f, m, Backfill(id, spki), env).0), id, if d.spki == "" then spki else d.spki)
    {
      var k :| 0 <= k < |file| && file[k] == d;
      assert devices[k] == Touched(Pending(m), d);
      assert FirstById(devices, id) == k;
      var after := Contents(Step(f, m, Backfill(id, spki), env).0);
      assert after[k] in after;
    }
  }

  /** The list has this device, with this public key. */
  ghost predicate KeyAfter(devices: seq<Device>, id: string, spki: string) {
    exists d :: d in devices && d.id == id && d.spki == spki
  }

  lemma ListedIffFound(devices: seq<Device>, id: string)
    ensures id in Ids(devices) <==> FirstById(devices, id) >= 0
  {
    if id in Ids(devices) {
      var d :| d in devices && d.id == id;
    }
    var k := FirstById(devices, id);
    if k >= 0 {
      assert devices[k] in devices;
    }
  }

  // ---- starting and reading ----

  /** A start that succeeds sees exactly the file, which it creates empty if there was none, and owes it nothing. */
  lemma OpenSeesFile(f: File, m: Mem, env: Env)
    ensures var (f', m', r) := Step(f, m, Open, env);
            && Contents(f') == Contents(f)
            && (r.Ok? <==> env.locked && if f.Missing? then env.write == Written else env.readable)
            && (r.Ok? ==> f'.Holds? && m' == Mem(Contents(f'), false, env.now))
            && (!r.Ok? ==> r.IOError? && m' == m)
  {
  }

  /** Whoever reads the list sees the file as it is now, however old the cache, with use times no earlier than the file's. */
  lemma ReadSeesFile(f: File, m: Mem, env: Env)
    ensures var (f', _, r) := Step(f, m, Read, env);
            && f' == f && (r.Ok? <==> Reachable(env))
            && (r.Ok? ==> && |r.devices| == |Contents(f)|
                          && forall i :: 0 <= i < |r.devices| ==>
                               Core(r.devices[i]) == Core(Contents(f)[i]) && Leq(Contents(f)[i].lastUsed, r.devices[i].lastUsed))
  {
    MergedFollows(Pending(m), Contents(f));
  }

  /** A removal by rule reports exactly the devices it took off the list. */
  lemma RemovalIsReported(f: File, m: Mem, op: Op, env: Env)
    requires Distinct(Contents(f)) && (op.RevokeByKey? || op.Prune?) && Step(f, m, op, env).2.Ok?
    ensures var (f', _, r) := Step(f, m, op, env); Ids(r.devices) == Ids(Contents(f)) - Ids(Contents(f'))
  {
    FileAfter(f, m, op, env);
    if !Immediate(op, m) {
      var devices := Refreshed(f, m).devices;
      MergedFollows(Pending(m), Contents(f));
      LostIds(op, devices);
      if !Took(f, m, op, env) {
        NothingDropped(op, devices);
        KeepsAll(op, devices);
      }
    }
  }

  lemma {:induction false} LostAre(op: Op, devices: seq<Device>)
    ensures forall d :: d in Lost(op, devices) <==> d in devices && Drops(op, d)
  {
    if devices != [] {
      var n := |devices| - 1;
      LostAre(op, devices[..n]);
      assert devices == devices[..n] + [devices[n]];
    }
  }

  lemma LostIds(op: Op, devices: seq<Device>)
    requires Distinct(devices)
    ensures Ids(Lost(op, devices)) == Ids(devices) - Ids(Kept(op, devices))
  {
    LostAre(op, devices);
    KeptMembers(op, devices);
    forall id | id in Ids(Lost(op, devices)) ensures id in Ids(devices) && id !in Ids(Kept(op, devices)) {
      var d :| d in Lost(op, devices) && d.id == id;
      DroppedIsNotKept(op, devices, d);
    }
    forall id | id in Ids(devices) && id !in Ids(Kept(op, devices)) ensures id in Ids(Lost(op, devices)) {
      var d :| d in devices && d.id == id;
      assert Drops(op, d);
    }
  }

  lemma DroppedIsNotKept(op: Op, devices: seq<Device>, d: Device)
    requires Distinct(devices) && d in devices && Drops(op, d)
    ensures d.id !in Ids(Kept(op, devices))
  {
    KeptMembers(op, devices);
    forall e | e in Kept(op, devices) ensures e.id != d.id {
      if e.id == d.id {
        SameId(devices, d, e);
      }
    }
  }

  lemma SameId(devices: seq<Device>, a: Device, b: Device)
    requires Distinct(devices) && a in devices && b in devices && a.id == b.id
    ensures a == b
  {
    var i :| 0 <= i < |devices| && devices[i] == a;
    var j :| 0 <= j < |devices| && devices[j] == b;
  }
}
