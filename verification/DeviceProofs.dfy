/** What holds of the shared device file however many processes work on it, in whatever order. */
module DeviceProofs {
  import opened Common
  import opened DeviceList

  // ---- the file as one sequential list ----

  /** A device without its use time: what pairing and revoking are about. */
  function Core(d: Device): Device {
    d.(lastUsed := None)
  }

  function Cores(devices: seq<Device>): seq<Device> {
    seq(|devices|, i requires 0 <= i < |devices| => Core(devices[i]))
  }

  function Ids(devices: seq<Device>): set<string> {
    set d | d in devices :: d.id
  }

  function Hashes(devices: seq<Device>): set<string> {
    set d | d in devices :: d.tokenHash
  }

  predicate Distinct(devices: seq<Device>) {
    forall i, j :: 0 <= i < j < |devices| ==> devices[i].id != devices[j].id
  }

  /** Pruning by age looks at use times, so its choice is not a function of the cores alone. */
  predicate ByAge(op: Op) {
    op.Prune? && !op.keylessOnly
  }

  function WithoutIds(list: seq<Device>, ids: set<string>): seq<Device> {
    if list == [] then []
    else
      var d := list[|list| - 1];
      var rest := WithoutIds(list[..|list| - 1], ids);
      if d.id in ids then rest else rest + [d]
  }

  function DroppedIds(op: Op, devices: seq<Device>): set<string> {
    set d | d in devices && Drops(op, d) :: d.id
  }

  /** The operation on one list that nobody else touches. */
  function OnOneList(op: Op, list: seq<Device>, aged: set<string>): seq<Device> {
    if ByAge(op) then WithoutIds(list, aged) else Cores(Apply(op, list, 0))
  }

  lemma CoresMerged(pending: map<string, Time>, devices: seq<Device>)
    ensures Cores(Merged(pending, devices)) == Cores(devices)
  {
    var merged := Merged(pending, devices);
    assert forall i :: 0 <= i < |devices| ==> Core(merged[i]) == Core(devices[i]);
  }

  lemma CoresAppend(a: seq<Device>, b: seq<Device>)
    ensures Cores(a + b) == Cores(a) + Cores(b)
  {
  }

  lemma IndicesOnCores(devices: seq<Device>, key: string)
    ensures FirstById(Cores(devices), key) == FirstById(devices, key)
    ensures FirstByName(Cores(devices), key) == FirstByName(devices, key)
    ensures FirstByHash(Cores(devices), key) == FirstByHash(devices, key)
  {
    assert forall k :: 0 <= k < |devices| ==> Cores(devices)[k] == Core(devices[k]);
  }

  lemma {:induction false} KeptOnCores(op: Op, devices: seq<Device>)
    requires !ByAge(op)
    ensures Cores(Kept(op, devices)) == Cores(Kept(op, Cores(devices)))
  {
    if devices != [] {
      var n := |devices| - 1;
      KeptOnCores(op, devices[..n]);
      assert Cores(devices)[..n] == Cores(devices[..n]);
      assert Drops(op, devices[n]) <==> Drops(op, Cores(devices)[n]);
      CoresAppend(Kept(op, devices[..n]), [devices[n]]);
      CoresAppend(Kept(op, Cores(devices[..n])), [Cores(devices)[n]]);
    }
  }

  lemma CoresTwice(devices: seq<Device>)
    ensures Cores(Cores(devices)) == Cores(devices)
  {
  }

  lemma CoresRemove(devices: seq<Device>, i: int)
    requires -1 <= i < |devices|
    ensures Cores(RemoveAt(devices, i)) == RemoveAt(Cores(devices), i)
  {
    if i >= 0 {
      CoresAppend(devices[..i], devices[i + 1..]);
      assert Cores(devices[..i]) == Cores(devices)[..i];
      assert Cores(devices[i + 1..]) == Cores(devices)[i + 1..];
    }
  }

  lemma CoresUpdate(devices: seq<Device>, i: nat, d: Device)
    requires i < |devices|
    ensures Cores(devices[i := d]) == Cores(devices)[i := Core(d)]
  {
  }

  lemma RevokeOnCores(devices: seq<Device>, key: string)
    ensures Cores(RemoveAt(devices, RevokeIndex(devices, key)))
         == Cores(RemoveAt(Cores(devices), RevokeIndex(Cores(devices), key)))
  {
    IndicesOnCores(devices, key);
    var i := RevokeIndex(devices, key);
    CoresRemove(devices, i);
    CoresRemove(Cores(devices), i);
    CoresTwice(devices);
  }

  lemma UpdateOnCores(devices: seq<Device>, i: nat, d: Device, e: Device)
    requires i < |devices| && Core(d) == Core(e)
    ensures Cores(devices[i := d]) == Cores(Cores(devices)[i := e])
  {
    CoresUpdate(devices, i, d);
    CoresUpdate(Cores(devices), i, e);
    CoresTwice(devices);
  }

  lemma ApplyOnCores(op: Op, devices: seq<Device>, now: Time)
    requires !ByAge(op)
    ensures Cores(Apply(op, devices, now)) == Cores(Apply(op, Cores(devices), 0))
  {
    var cores := Cores(devices);
    match op {
      case Create(d) =>
        CoresAppend(devices, [d]);
        CoresAppend(cores, [d]);
        CoresTwice(devices);
      case Revoke(key) => RevokeOnCores(devices, key);
      case RevokeByKey(_, _) => KeptOnCores(op, devices);
      case Prune(_, _) => KeptOnCores(op, devices);
      case Validate(hash) =>
        IndicesOnCores(devices, hash);
        CoresTwice(devices);
        var i := FirstByHash(devices, hash);
        if i >= 0 {
          UpdateOnCores(devices, i, devices[i].(lastUsed := Some(now)), cores[i].(lastUsed := Some(0)));
        }
      case Backfill(id, spki) =>
        IndicesOnCores(devices, id);
        CoresTwice(devices);
        var i := FirstById(devices, id);
        if i >= 0 {
          UpdateOnCores(devices, i, devices[i].(spki := spki), cores[i].(spki := spki));
        }
      case _ => CoresTwice(devices);
    }
  }

  lemma {:induction false} AgedOnCores(op: Op, devices: seq<Device>, all: seq<Device>)
    requires devices <= all && Distinct(all)
    ensures Cores(Kept(op, devices)) == WithoutIds(Cores(devices), DroppedIds(op, all))
  {
    if devices != [] {
      var n := |devices| - 1;
      AgedOnCores(op, devices[..n], all);
      assert Cores(devices)[..n] == Cores(devices[..n]);
      assert devices[n] in all && all[n] == devices[n];
      assert devices[n].id in DroppedIds(op, all) <==> Drops(op, devices[n]);
      CoresAppend(Kept(op, devices[..n]), [devices[n]]);
    }
  }

  /** The operation reached the file. */
  predicate Took(f: File, m: Mem, op: Op, env: Env) {
    && !Immediate(op, m) && env.locked && env.readable && !op.Open?
    && Writes(op, Refreshed(f, m), env.now) && env.write != NotWritten
  }

  /**
    Each step of any process acts on the file's list as if that process worked on it alone and without a
    cache: a stale cache can change use times, never which devices there are, in what order, or their keys.
   */
  lemma FileRefinesOneList(f: File, m: Mem, op: Op, env: Env)
    requires Distinct(Contents(f))
    ensures Cores(Contents(Step(f, m, op, env).0))
            == if Took(f, m, op, env)
               then OnOneList(op, Cores(Contents(f)), DroppedIds(op, Refreshed(f, m).devices))
               else Cores(Contents(f))
  {
    var devices := Refreshed(f, m).devices;
    CoresMerged(Pending(m), Contents(f));
    FileAfter(f, m, op, env);
    if Took(f, m, op, env) {
      if ByAge(op) {
        AgedOnCores(op, devices, devices);
      } else {
        ApplyOnCores(op, devices, env.now);
      }
    }
  }

  lemma FileAfter(f: File, m: Mem, op: Op, env: Env)
    ensures Contents(Step(f, m, op, env).0)
         == if Took(f, m, op, env) then Apply(op, Refreshed(f, m).devices, env.now) else Contents(f)
  {
  }

  // ---- where a listed device comes from, and how it goes ----

  /** Use times are ordered, with "never" first. */
  predicate Leq(a: Option<Time>, b: Option<Time>) {
    a.None? || (b.Some? && a.value <= b.value)
  }

  /** `e` is the same pairing as `d`, used no earlier. */
  predicate Follows(d: Device, e: Device) {
    d.id == e.id && d.tokenHash == e.tokenHash && Leq(d.lastUsed, e.lastUsed)
  }

  /** No use time lies in the future. */
  predicate Past(devices: seq<Device>, now: Time) {
    forall d :: d in devices ==> Leq(d.lastUsed, Some(now))
  }

  lemma {:induction false} KeptMembers(op: Op, devices: seq<Device>)
    ensures forall d :: d in Kept(op, devices) <==> d in devices && !Drops(op, d)
    ensures Distinct(devices) ==> Distinct(Kept(op, devices))
  {
    if devices != [] {
      var n := |devices| - 1;
      var rest := Kept(op, devices[..n]);
      KeptMembers(op, devices[..n]);
      assert devices == devices[..n] + [devices[n]];
      if Distinct(devices) {
        forall i | 0 <= i < |rest| ensures rest[i].id != devices[n].id {
          assert rest[i] in devices[..n];
        }
      }
    }
  }

  lemma RemoveDistinct(devices: seq<Device>, i: nat)
    requires i < |devices| && Distinct(devices)
    ensures Distinct(RemoveAt(devices, i))
  {
    var rest := RemoveAt(devices, i);
    forall j, k | 0 <= j < k < |rest| ensures rest[j].id != rest[k].id {
      var a, b := if j < i then j else j + 1, if k < i then k else k + 1;
      assert rest[j] == devices[a] && rest[k] == devices[b];
    }
  }

  lemma RemoveKeeps(devices: seq<Device>, i: nat, d: Device)
    requires i < |devices| && d in devices && d != devices[i]
    ensures d in RemoveAt(devices, i)
  {
    var k :| 0 <= k < |devices| && devices[k] == d;
    assert d == RemoveAt(devices, i)[if k < i then k else k - 1];
  }

  lemma RemoveDrops(devices: seq<Device>, i: nat, d: Device)
    requires i < |devices| && Distinct(devices) && d in RemoveAt(devices, i)
    ensures d in devices && d.id != devices[i].id
  {
    if d in devices[..i] {
      var k :| 0 <= k < i && devices[..i][k] == d;
      assert devices[k] == d;
    } else {
      var k :| 0 <= k < |devices| - i - 1 && devices[i + 1..][k] == d;
      assert devices[i + 1 + k] == d;
    }
  }

  lemma RemoveMembers(devices: seq<Device>, i: int)
    requires -1 <= i < |devices| && Distinct(devices)
    ensures Distinct(RemoveAt(devices, i))
    ensures forall d :: d in RemoveAt(devices, i) <==> d in devices && (i >= 0 ==> d.id != devices[i].id)
  {
    if i >= 0 {
      RemoveDistinct(devices, i);
      forall d | d in devices && d.id != devices[i].id ensures d in RemoveAt(devices, i) {
        RemoveKeeps(devices, i, d);
      }
      forall d | d in RemoveAt(devices, i) ensures d in devices && d.id != devices[i].id {
        RemoveDrops(devices, i, d);
      }
    }
  }

  /** What the removal operations take away. */
  predicate Removes(op: Op, devices: seq<Device>, d: Device) {
    if op.Revoke? then
      var i := RevokeIndex(devices, op.idOrName);
      i >= 0 && d.id == devices[i].id
    else Drops(op, d)
  }

  /** After an operation every device follows an earlier one or was just created. */
  lemma ApplyFrom(op: Op, devices: seq<Device>, now: Time, e: Device)
    requires Distinct(devices) && Past(devices, now) && e in Apply(op, devices, now)
    ensures op == Create(e) || exists d :: d in devices && Follows(d, e) && !Removes(op, devices, d)
  {
    match op {
      case Create(d) => if e != d { assert e in devices && Follows(e, e); }
      case Revoke(key) => RemoveMembers(devices, RevokeIndex(devices, key)); assert e in devices && Follows(e, e);
      case RevokeByKey(_, _) => KeptMembers(op, devices); assert e in devices && Follows(e, e);
      case Prune(_, _) => KeptMembers(op, devices); assert e in devices && Follows(e, e);
      case Validate(_) => var k :| 0 <= k < |devices| && e == Apply(op, devices, now)[k]; assert Follows(devices[k], e);
      case Backfill(_, _) => var k :| 0 <= k < |devices| && e == Apply(op, devices, now)[k]; assert Follows(devices[k], e);
      case _ => assert Follows(e, e);
    }
  }

  /** A device is still there after an operation, used no earlier, unless the operation removes it. */
  lemma ApplyTo(op: Op, devices: seq<Device>, now: Time, d: Device)
    requires Distinct(devices) && Past(devices, now) && d in devices && !Removes(op, devices, d)
    ensures exists e :: e in Apply(op, devices, now) && Follows(d, e)
  {
    var after := Apply(op, devices, now);
    match op {
      case Create(_) => assert d in after && Follows(d, d);
      case Revoke(key) => RemoveMembers(devices, RevokeIndex(devices, key)); assert d in after && Follows(d, d);
      case RevokeByKey(_, _) => KeptMembers(op, devices); assert d in after && Follows(d, d);
      case Prune(_, _) => KeptMembers(op, devices); assert d in after && Follows(d, d);
      case Validate(_) => var k :| 0 <= k < |devices| && d == devices[k]; assert after[k] in after && Follows(d, after[k]);
      case Backfill(_, _) => var k :| 0 <= k < |devices| && d == devices[k]; assert after[k] in after && Follows(d, after[k]);
      case _ => assert d in after && Follows(d, d);
    }
  }

  /** The same without use times, and so under any clock. */
  lemma ApplyKeepsId(op: Op, devices: seq<Device>, now: Time, d: Device)
    requires Distinct(devices) && d in devices && !Removes(op, devices, d)
    ensures d.id in Ids(Apply(op, devices, now))
  {
    var after := Apply(op, devices, now);
    match op {
      case Revoke(key) => RemoveMembers(devices, RevokeIndex(devices, key)); assert d in after;
      case RevokeByKey(_, _) => KeptMembers(op, devices); assert d in after;
      case Prune(_, _) => KeptMembers(op, devices); assert d in after;
      case Validate(_) => var k :| 0 <= k < |devices| && d == devices[k]; assert after[k] in after;
      case Backfill(_, _) => var k :| 0 <= k < |devices| && d == devices[k]; assert after[k] in after;
      case _ => assert d in after;
    }
  }

  lemma ApplyDistinct(op: Op, devices: seq<Device>, now: Time)
    requires Distinct(devices) && (op.Create? ==> op.device.id !in Ids(devices))
    ensures Distinct(Apply(op, devices, now))
  {
    match op {
      case Revoke(key) => RemoveMembers(devices, RevokeIndex(devices, key));
      case RevokeByKey(_, _) => KeptMembers(op, devices);
      case Prune(_, _) => KeptMembers(op, devices);
      case _ =>
    }
  }

  lemma MergedFollows(pending: map<string, Time>, devices: seq<Device>)
    ensures var merged := Merged(pending, devices);
            && |merged| == |devices| && (Distinct(devices) ==> Distinct(merged)) && Ids(merged) == Ids(devices)
            && (forall i :: 0 <= i < |devices| ==> Follows(devices[i], merged[i]))
  {
    var merged := Merged(pending, devices);
    assert forall i :: 0 <= i < |devices| ==> merged[i] == Touched(pending, devices[i]) && Follows(devices[i], merged[i]);
    forall id | id in Ids(devices) ensures id in Ids(merged) {
      var d :| d in devices && d.id == id;
      var i :| 0 <= i < |devices| && devices[i] == d;
      assert merged[i] in merged;
    }
    forall id | id in Ids(merged) ensures id in Ids(devices) {
      var d :| d in merged && d.id == id;
      var i :| 0 <= i < |devices| && merged[i] == d;
      assert devices[i] in devices;
    }
  }

  lemma {:induction false} SnapshotPast(devices: seq<Device>, now: Time)
    requires Past(devices, now)
    ensures forall id :: id in Snapshot(devices) ==> Snapshot(devices)[id] <= now
  {
    if devices != [] {
      var n := |devices| - 1;
      assert devices[n] in devices && forall d :: d in devices[..n] ==> d in devices;
      SnapshotPast(devices[..n], now);
    }
  }

  lemma RefreshedPast(f: File, m: Mem, now: Time)
    requires Past(Contents(f), now) && Past(m.devices, now)
    ensures Past(Refreshed(f, m).devices, now)
  {
    SnapshotPast(m.devices, now);
    var merged := Refreshed(f, m).devices;
    forall d | d in merged ensures Leq(d.lastUsed, Some(now)) {
      var i :| 0 <= i < |merged| && merged[i] == d;
      assert d == Touched(Pending(m), Contents(f)[i]) && Contents(f)[i] in Contents(f);
    }
  }

  lemma ApplyPast(op: Op, devices: seq<Device>, now: Time)
    requires Past(devices, now) && Distinct(devices) && (op.Create? ==> op.device.lastUsed.None?)
    ensures Past(Apply(op, devices, now), now)
  {
    match op {
      case Revoke(key) => RemoveMembers(devices, RevokeIndex(devices, key));
      case RevokeByKey(_, _) => KeptMembers(op, devices);
      case Prune(_, _) => KeptMembers(op, devices);
      case _ =>
    }
  }
}
