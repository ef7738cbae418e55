/** Use times: debounced in memory, merged onto whatever the file holds by then, never taken back. */
module DeviceTimes {
  import opened Common
  import opened DeviceList
  import opened DeviceProofs
  import opened DeviceHistory

  /** The list shows the device as used at `t` or later. */
  ghost predicate Shows(devices: seq<Device>, id: string, t: Time) {
    exists d :: d in devices && d.id == id && d.lastUsed.Some? && d.lastUsed.value >= t
  }

  // ---- the file never goes back ----

  /** No use time in the file or in a cache lies in the future. */
  predicate AllPast(s: System, now: Time) {
    Past(Contents(s.file), now) && forall p :: 0 <= p < |s.procs| ==> Past(s.procs[p].devices, now)
  }

  /** Actions carry a clock that does not run backwards from `now`. */
  predicate Forward(acts: seq<Action>, now: Time) {
    && (acts != [] ==> now <= acts[0].env.now)
    && (forall i, j :: 0 <= i < j < |acts| ==> acts[i].env.now <= acts[j].env.now)
  }

  function Clock(acts: seq<Action>, now: Time): Time {
    if acts == [] then now else acts[|acts| - 1].env.now
  }

  lemma StepPast(f: File, m: Mem, op: Op, env: Env)
    requires Distinct(Contents(f)) && Past(Contents(f), env.now) && Past(m.devices, env.now)
    requires op.Create? ==> op.device.lastUsed.None?
    ensures Past(Contents(Step(f, m, op, env).0), env.now) && Past(Step(f, m, op, env).1.devices, env.now)
  {
    MergedFollows(Pending(m), Contents(f));
    RefreshedPast(f, m, env.now);
    BodyPast(f, Refreshed(f, m), op, env);
  }

  lemma BodyPast(f: File, m: Mem, op: Op, env: Env)
    requires Distinct(m.devices) && Past(Contents(f), env.now) && Past(m.devices, env.now)
    requires op.Create? ==> op.device.lastUsed.None?
    ensures Past(Contents(Body(f, m, op, env).0), env.now) && Past(Body(f, m, op, env).1.devices, env.now)
  {
    ApplyPast(op, m.devices, env.now);
  }

  lemma PastLater(devices: seq<Device>, now: Time, later: Time)
    requires Past(devices, now) && now <= later
    ensures Past(devices, later)
  {
  }

  lemma {:induction false} RunPast(s: System, acts: seq<Action>, now: Time)
    requires Sound(s) && Actors(s, acts) && MintsFresh(s, acts) && AllPast(s, now) && Forward(acts, now)
    ensures AllPast(Run(s, acts), Clock(acts, now))
  {
    if acts != [] {
      var before, a := acts[..|acts| - 1], acts[|acts| - 1];
      RunPast(s, before, now);
      RunSound(s, before);
      var t := Run(s, before);
      forall p | 0 <= p < |t.procs| ensures Past(t.procs[p].devices, a.env.now) {
        PastLater(t.procs[p].devices, Clock(before, now), a.env.now);
      }
      PastLater(Contents(t.file), Clock(before, now), a.env.now);
      StepPast(t.file, t.procs[a.p], a.op, a.env);
    }
  }

  /** One step of any process, whatever its write does, leaves a listed device's use time where it was or later. */
  lemma StepNeverTakesBack(f: File, m: Mem, op: Op, env: Env, id: string, t: Time)
    requires Distinct(Contents(f)) && Past(Contents(f), env.now) && Past(m.devices, env.now)
    requires op.Create? ==> op.device.id !in Ids(Contents(f))
    requires Shows(Contents(f), id, t) && id in Ids(Contents(Step(f, m, op, env).0))
    ensures Shows(Contents(Step(f, m, op, env).0), id, t)
  {
    FileAfter(f, m, op, env);
    if Took(f, m, op, env) {
      MergedFollows(Pending(m), Contents(f));
      RefreshedPast(f, m, env.now);
      MergedShows(Pending(m), Contents(f), id, t);
      ApplyShows(op, Refreshed(f, m).devices, env.now, id, t);
    }
  }

  lemma MergedShows(pending: map<string, Time>, devices: seq<Device>, id: string, t: Time)
    requires Shows(devices, id, t)
    ensures Shows(Merged(pending, devices), id, t)
  {
    var d :| d in devices && d.id == id && d.lastUsed.Some? && d.lastUsed.value >= t;
    var i :| 0 <= i < |devices| && devices[i] == d;
    assert Merged(pending, devices)[i] == Touched(pending, d);
  }

  /**
    With a clock that never runs backwards, a device's use time in the file never decreases while the
    device is listed, however the processes interleave and whichever writes fail.
   */
  lemma {:induction false} FileTimesNeverDecrease(s: System, acts: seq<Action>, now: Time, k: nat, id: string, t: Time)
    requires Sound(s) && Actors(s, acts) && MintsFresh(s, acts) && AllPast(s, now) && Forward(acts, now)
    requires k <= |acts| && Shows(Contents(Run(s, acts[..k]).file), id, t)
    requires id in Ids(Contents(Run(s, acts).file))
    ensures Shows(Contents(Run(s, acts).file), id, t)
  {
    if k == |acts| {
      assert acts[..k] == acts;
    } else {
      var before, a := acts[..|acts| - 1], acts[|acts| - 1];
      var r := Run(s, before);
      assert before[..k] == acts[..k];
      RunSound(s, before);
      ListedBefore(s, acts, k, id);
      FileTimesNeverDecrease(s, before, now, k, id, t);
      RunPast(s, before, now);
      PastLater(Contents(r.file), Clock(before, now), a.env.now);
      PastLater(r.procs[a.p].devices, Clock(before, now), a.env.now);
      StepNeverTakesBack(r.file, r.procs[a.p], a.op, a.env, id, t);
    }
  }

  /** A device listed early and listed at the end was listed one step before the end. */
  lemma ListedBefore(s: System, acts: seq<Action>, k: nat, id: string)
    requires Sound(s) && Actors(s, acts) && MintsFresh(s, acts) && k < |acts|
    requires id in Ids(Contents(Run(s, acts[..k]).file)) && id in Ids(Contents(Run(s, acts).file))
    ensures id in Ids(Contents(Run(s, acts[..|acts| - 1]).file))
  {
    var before, a := acts[..|acts| - 1], acts[|acts| - 1];
    assert id in IssuedIds(s, before) by {
      PrefixFresh(s, acts, k);
      RunSound(s, acts[..k]);
      assert before[..k] == acts[..k];
      IssuedGrows(s, before, k);
    }
    RunSound(s, before);
    var t := Run(s, before);
    StepIds(t.file, t.procs[a.p], a.op, a.env);
  }

  // ---- what a process recorded is not lost ----

  /** The device is gone, or the file shows the use, or this process still remembers it and knows it must write. */
  ghost predicate Covered(f: File, m: Mem, id: string, t: Time) {
    id !in Ids(Contents(f)) || Shows(Contents(f), id, t) || (m.dirty && Shows(m.devices, id, t))
  }

  lemma {:induction false} SnapshotShows(devices: seq<Device>, id: string, t: Time)
    requires Distinct(devices) && Shows(devices, id, t)
    ensures id in Snapshot(devices) && Snapshot(devices)[id] >= t
  {
    var n := |devices| - 1;
    var d :| d in devices && d.id == id && d.lastUsed.Some? && d.lastUsed.value >= t;
    if d != devices[n] {
      assert d in devices[..n];
      SnapshotShows(devices[..n], id, t);
    }
  }

  /** Reading the file again and merging keeps what was covered, in the cache and in the dirty flag. */
  lemma RefreshedCovers(f: File, m: Mem, id: string, t: Time)
    requires Distinct(Contents(f)) && Distinct(m.devices) && Covered(f, m, id, t) && id in Ids(Contents(f))
    ensures Shows(Refreshed(f, m).devices, id, t)
    ensures Shows(Contents(f), id, t) || Refreshed(f, m).dirty
  {
    var r := Refreshed(f, m);
    MergedFollows(Pending(m), Contents(f));
    var d :| d in Contents(f) && d.id == id;
    var i :| 0 <= i < |Contents(f)| && Contents(f)[i] == d;
    assert r.devices[i] == Touched(Pending(m), d) && r.devices[i] in r.devices;
    if Shows(Contents(f), id, t) {
      var e :| e in Contents(f) && e.id == id && e.lastUsed.Some? && e.lastUsed.value >= t;
      assert e == d;
    } else {
      SnapshotShows(m.devices, id, t);
      assert Newer(Pending(m), d);
    }
  }

  /** The operation would take the device off the list, but its write reported an error and changed nothing. */
  predicate FailedRemoval(f: File, m: Mem, op: Op, env: Env, id: string) {
    && !Immediate(op, m) && env.locked && env.readable && env.write == NotWritten && !op.Open?
    && Writes(op, Refreshed(f, m), env.now)
    && id !in Ids(Apply(op, Refreshed(f, m).devices, env.now))
  }

  /**
    Exactly when a process forgets a use it had recorded: a restart apart, its own step leaves the use
    covered unless it is a failed attempt to remove that very device, and then, if only the process's
    memory held it, the use is lost.
   */
  lemma OwnStepCoversIff(f: File, m: Mem, op: Op, env: Env, id: string, t: Time)
    requires Distinct(Contents(f)) && Distinct(m.devices) && Past(Contents(f), env.now) && Past(m.devices, env.now)
    requires op.Create? ==> op.device.id !in Ids(Contents(f))
    requires !op.Open? && Covered(f, m, id, t) && id in Ids(Contents(f)) && !Shows(Contents(f), id, t)
    ensures var (f', m', _) := Step(f, m, op, env);
            Covered(f', m', id, t) <==> !FailedRemoval(f, m, op, env, id)
  {
    var (f', m', _) := Step(f, m, op, env);
    if !Immediate(op, m) && env.locked && env.readable {
      RefreshedCovers(f, m, id, t);
      MergedFollows(Pending(m), Contents(f));
      RefreshedPast(f, m, env.now);
      BodyCovers(f, Refreshed(f, m), op, env, id, t);
    }
  }

  /** The process starts again and reads the file, so that its old cache is gone. */
  predicate Restarts(op: Op, env: Env) {
    op.Open? && env.locked && env.readable
  }

  /** All the ways together: a use only the process's memory held is lost by a restart or by that failed removal, and by nothing else. */
  lemma UseIsForgottenIff(f: File, m: Mem, op: Op, env: Env, id: string, t: Time)
    requires Distinct(Contents(f)) && Distinct(m.devices) && Past(Contents(f), env.now) && Past(m.devices, env.now)
    requires op.Create? ==> op.device.id !in Ids(Contents(f))
    requires Covered(f, m, id, t) && id in Ids(Contents(f)) && !Shows(Contents(f), id, t)
    ensures var (f', m', _) := Step(f, m, op, env);
            Covered(f', m', id, t) <==> !Restarts(op, env) && !FailedRemoval(f, m, op, env, id)
  {
    if !op.Open? {
      OwnStepCoversIff(f, m, op, env, id, t);
    }
  }

  lemma BodyCovers(f: File, m: Mem, op: Op, env: Env, id: string, t: Time)
    requires Distinct(m.devices) && Past(m.devices, env.now) && id in Ids(Contents(f)) && !Shows(Contents(f), id, t)
    requires Shows(m.devices, id, t) && m.dirty && (op.Create? ==> op.device.id != id)
    ensures var (f', m', _) := Body(f, m, op, env);
            Covered(f', m', id, t)
            <==> !(Writes(op, m, env.now) && env.write == NotWritten && id !in Ids(Apply(op, m.devices, env.now)))
  {
    var after := Apply(op, m.devices, env.now);
    ApplyShows(op, m.devices, env.now, id, t);
    if id !in Ids(after) {
      NothingLostUnwritten(op, m, env.now, id);
    }
  }

  lemma ApplyShows(op: Op, devices: seq<Device>, now: Time, id: string, t: Time)
    requires Distinct(devices) && Past(devices, now) && Shows(devices, id, t) && (op.Create? ==> op.device.id != id)
    ensures Shows(Apply(op, devices, now), id, t) <==> id in Ids(Apply(op, devices, now))
  {
    var after := Apply(op, devices, now);
    if id in Ids(after) {
      var e :| e in after && e.id == id;
      ApplyFrom(op, devices, now, e);
      var d :| d in devices && Follows(d, e);
      var x :| x in devices && x.id == id && x.lastUsed.Some? && x.lastUsed.value >= t;
      assert d == x;
    }
  }

  /** An operation that writes nothing removes nothing. */
  lemma NothingLostUnwritten(op: Op, m: Mem, now: Time, id: string)
    requires Distinct(m.devices) && Past(m.devices, now) && id in Ids(m.devices) && id !in Ids(Apply(op, m.devices, now))
    ensures Writes(op, m, now) && !op.Create?
  {
    var d :| d in m.devices && d.id == id;
    if !Removes(op, m.devices, d) {
      ApplyTo(op, m.devices, now, d);
      assert false;
    } else if !op.Revoke? {
      LostMembers(op, m.devices, d);
    }
  }

  lemma {:induction false} LostMembers(op: Op, devices: seq<Device>, d: Device)
    requires d in devices && Drops(op, d)
    ensures Lost(op, devices) != []
  {
    var n := |devices| - 1;
    if d != devices[n] {
      assert d in devices[..n];
      LostMembers(op, devices[..n], d);
    }
  }

  /** Another process's step never uncovers a use. */
  lemma OtherStepCovers(f: File, other: Mem, op: Op, env: Env, m: Mem, id: string, t: Time)
    requires Distinct(Contents(f)) && Past(Contents(f), env.now) && Past(other.devices, env.now)
    requires op.Create? ==> op.device.id != id && op.device.id !in Ids(Contents(f))
    requires Covered(f, m, id, t)
    ensures Covered(Step(f, other, op, env).0, m, id, t)
  {
    var f' := Step(f, other, op, env).0;
    StepIds(f, other, op, env);
    if id in Ids(Contents(f')) && Shows(Contents(f), id, t) {
      StepNeverTakesBack(f, other, op, env, id, t);
    }
  }

  lemma OwnStepCovers(f: File, m: Mem, op: Op, env: Env, id: string, t: Time)
    requires Distinct(Contents(f)) && Distinct(m.devices) && Past(Contents(f), env.now) && Past(m.devices, env.now)
    requires op.Create? ==> op.device.id != id && op.device.id !in Ids(Contents(f))
    requires Covered(f, m, id, t) && !Restarts(op, env) && !FailedRemoval(f, m, op, env, id)
    ensures Covered(Step(f, m, op, env).0, Step(f, m, op, env).1, id, t)
  {
    StepIds(f, m, op, env);
    if id in Ids(Contents(f)) {
      if Shows(Contents(f), id, t) {
        OtherStepCovers(f, m, op, env, Step(f, m, op, env).1, id, t);
      } else {
        UseIsForgottenIff(f, m, op, env, id, t);
      }
    }
  }

  /** From action `v` on, process `p` neither restarts nor fails to remove this device. */
  ghost predicate Careful(s: System, acts: seq<Action>, v: nat, p: nat, id: string)
    requires Actors(s, acts) && p < |s.procs|
  {
    forall i :: v <= i < |acts| && acts[i].p == p ==>
      var r := Run(s, acts[..i]);
      !Restarts(acts[i].op, acts[i].env) && !FailedRemoval(r.file, r.procs[p], acts[i].op, acts[i].env, id)
  }

  lemma CarefulPrefix(s: System, acts: seq<Action>, v: nat, p: nat, id: string)
    requires Actors(s, acts) && p < |s.procs| && Careful(s, acts, v, p, id) && acts != []
    ensures Careful(s, acts[..|acts| - 1], v, p, id)
  {
    forall i | v <= i < |acts| - 1 && acts[i].p == p
      ensures var r := Run(s, acts[..|acts| - 1][..i]);
              !Restarts(acts[i].op, acts[i].env) && !FailedRemoval(r.file, r.procs[p], acts[i].op, acts[i].env, id)
    {
      assert acts[..|acts| - 1][..i] == acts[..i];
    }
  }

  lemma {:induction false} UseStaysCovered(s: System, acts: seq<Action>, now: Time, v: nat, p: nat, id: string, t: Time)
    requires Sound(s) && Actors(s, acts) && MintsFresh(s, acts) && AllPast(s, now) && Forward(acts, now)
    requires p < |s.procs| && v <= |acts| && id in IssuedIds(s, acts[..v]) && Careful(s, acts, v, p, id)
    requires Covered(Run(s, acts[..v]).file, Run(s, acts[..v]).procs[p], id, t)
    ensures Covered(Run(s, acts).file, Run(s, acts).procs[p], id, t)
  {
    if v == |acts| {
      assert acts[..v] == acts;
    } else {
      var before, a := acts[..|acts| - 1], acts[|acts| - 1];
      var r := Run(s, before);
      assert before[..v] == acts[..v];
      CarefulPrefix(s, acts, v, p, id);
      UseStaysCovered(s, before, now, v, p, id, t);
      RunSound(s, before);
      RunPast(s, before, now);
      IssuedGrows(s, before, v);
      PastLater(Contents(r.file), Clock(before, now), a.env.now);
      PastLater(r.procs[a.p].devices, Clock(before, now), a.env.now);
      if a.p == p {
        OwnStepCovers(r.file, r.procs[p], a.op, a.env, id, t);
      } else {
        OtherStepCovers(r.file, r.procs[a.p], a.op, a.env, r.procs[p], id, t);
      }
    }
  }

  /** A token check that finds its device records the use, in the file or in memory. */
  lemma ValidateCovers(f: File, m: Mem, hash: string, env: Env)
    requires Step(f, m, Validate(hash), env).2.Ok?
    ensures var (f', m', r) := Step(f, m, Validate(hash), env);
            |r.devices| == 1 && r.devices[0].id in Ids(Contents(f)) && Covered(f', m', r.devices[0].id, env.now)
  {
    var (f', m', r) := Step(f, m, Validate(hash), env);
    var devices := Refreshed(f, m).devices;
    MergedFollows(Pending(m), Contents(f));
    var i := FirstByHash(devices, hash);
    assert Contents(f)[i] in Contents(f);
    assert m'.devices[i] in m'.devices && m'.devices[i] == r.devices[0];
    assert Shows(m'.devices, r.devices[0].id, env.now);
  }

  /** A flush that reports success has written every use this process still answered for. */
  lemma FlushShows(f: File, m: Mem, env: Env, id: string, t: Time)
    requires Distinct(Contents(f)) && Distinct(m.devices) && Covered(f, m, id, t)
    requires Step(f, m, Flush, env).2.Ok? && id in Ids(Contents(Step(f, m, Flush, env).0))
    ensures Shows(Contents(Step(f, m, Flush, env).0), id, t)
  {
    MergedFollows(Pending(m), Contents(f));
    if m.dirty {
      RefreshedCovers(f, m, id, t);
    }
  }

  /**
    Every use is written down in the end: if process `p` accepted a token at time t, and later flushes with
    success, then the file shows the device as used at t or later, or the device is gone, whatever all
    the processes did in between, provided `p` did not restart or fail to remove that device.
   */
  lemma FlushRecordsEveryUse(s: System, acts: seq<Action>, now: Time, v: nat, device: Device)
    requires Sound(s) && Actors(s, acts) && MintsFresh(s, acts) && AllPast(s, now) && Forward(acts, now)
    requires v < |acts| - 1 && acts[v].op.Validate? && ResultAt(s, acts, v) == Ok([device])
    requires Careful(s, acts, v + 1, acts[v].p, device.id)
    requires var n := |acts| - 1; acts[n].p == acts[v].p && acts[n].op == Flush && ResultAt(s, acts, n).Ok?
    ensures device.id !in Ids(Contents(Run(s, acts).file)) || Shows(Contents(Run(s, acts).file), device.id, acts[v].env.now)
  {
    AcceptedIsCovered(s, acts, v, device);
    UseCoveredBeforeLast(s, acts, now, v + 1, acts[v].p, device.id, acts[v].env.now);
    LastFlushShows(s, acts, device.id, acts[v].env.now);
  }

  /** What the action at `i` returned. */
  ghost function ResultAt(s: System, acts: seq<Action>, i: nat): Result
    requires Actors(s, acts) && i < |acts|
  {
    var r := Run(s, acts[..i]);
    Step(r.file, r.procs[acts[i].p], acts[i].op, acts[i].env).2
  }

  lemma LastFlushShows(s: System, acts: seq<Action>, id: string, t: Time)
    requires Actors(s, acts) && acts != []
    requires var n := |acts| - 1; var r := Run(s, acts[..n]);
             && acts[n].op == Flush && ResultAt(s, acts, n).Ok? && Distinct(Contents(r.file))
             && Distinct(r.procs[acts[n].p].devices) && Covered(r.file, r.procs[acts[n].p], id, t)
    ensures id !in Ids(Contents(Run(s, acts).file)) || Shows(Contents(Run(s, acts).file), id, t)
  {
    var n := |acts| - 1;
    var r := Run(s, acts[..n]);
    if id in Ids(Contents(Run(s, acts).file)) {
      FlushShows(r.file, r.procs[acts[n].p], acts[n].env, id, t);
    }
  }

  lemma UseCoveredBeforeLast(s: System, acts: seq<Action>, now: Time, v: nat, p: nat, id: string, t: Time)
    requires Sound(s) && Actors(s, acts) && MintsFresh(s, acts) && AllPast(s, now) && Forward(acts, now)
    requires p < |s.procs| && v < |acts| && id in IssuedIds(s, acts[..v]) && Careful(s, acts, v, p, id)
    requires Covered(Run(s, acts[..v]).file, Run(s, acts[..v]).procs[p], id, t)
    ensures var r := Run(s, acts[..|acts| - 1]);
            Distinct(Contents(r.file)) && Distinct(r.procs[p].devices) && Covered(r.file, r.procs[p], id, t)
  {
    var before := acts[..|acts| - 1];
    assert before[..v] == acts[..v];
    CarefulPrefix(s, acts, v, p, id);
    UseStaysCovered(s, before, now, v, p, id, t);
    RunSound(s, before);
  }

  lemma AcceptedIsCovered(s: System, acts: seq<Action>, v: nat, device: Device)
    requires Sound(s) && Actors(s, acts) && MintsFresh(s, acts)
    requires v < |acts| && acts[v].op.Validate? && ResultAt(s, acts, v) == Ok([device])
    ensures var r := Run(s, acts[..v + 1]);
            device.id in IssuedIds(s, acts[..v + 1]) && Covered(r.file, r.procs[acts[v].p], device.id, acts[v].env.now)
  {
    var r, p := Run(s, acts[..v]), acts[v].p;
    PrefixFresh(s, acts, v);
    RunSound(s, acts[..v]);
    ValidateCovers(r.file, r.procs[p], acts[v].op.hash, acts[v].env);
    assert acts[..v + 1][..v] == acts[..v];
  }

  /** The proviso is needed: a failed Revoke makes a process forget a use it had recorded, for good. */
  lemma FailedRevokeForgetsUse()
    ensures var d := Device("a", "phone", "h", 1, Some(1), "", "");
            var f := Holds([d]);
            var m := Mem([d.(lastUsed := Some(9))], true, 0);
            var env := Env(true, true, NotWritten, 10);
            var (f1, m1, r1) := Step(f, m, Revoke("a"), env);
            var (f2, m2, r2) := Step(f1, m1, Flush, env.(write := Written));
            Covered(f, m, "a", 9) && r1 == IOError && r2 == Ok([]) && f2 == f && !Covered(f2, m2, "a", 9)
  {
    var d := Device("a", "phone", "h", 1, Some(1), "", "");
    var seen := d.(lastUsed := Some(9));
    var m := Mem([seen], true, 0);
    assert seen in m.devices;
    assert Snapshot([seen]) == map["a" := 9] by { assert [seen][..0] == []; }
    assert Refreshed(Holds([d]), m).devices == [seen] && Refreshed(Holds([d]), m).dirty by {
      assert Newer(Pending(m), Contents(Holds([d]))[0]);
    }
    assert RemoveAt([seen], 0) == [];
    assert d in Contents(Holds([d]));
    var m1 := Step(Holds([d]), m, Revoke("a"), Env(true, true, NotWritten, 10)).1;
    assert m1 == Mem([], true, 0);
    assert Snapshot([]) == map[];
    assert Merged(map[], [d]) == [d];
  }

  /** An error from Create does not mean that nothing happened: the device is paired if only the sync failed. */
  lemma FailedCreateMayPair(d: Device, now: Time)
    ensures var (f, m, r) := Step(Holds([]), Mem([], false, 0), Create(d), Env(true, true, Unsynced, now));
            r == IOError && f == Holds([d]) && m.devices == []
  {
    assert Merged(map[], []) == [] && [] + [d] == [d];
  }

  /**
    Exactly when: a Create that reports an error has listed its device if and only if the write went through
    and only the sync after it failed. In every case the process that called it does not remember the device.
   */
  lemma FailedCreatePairsIff(f: File, m: Mem, d: Device, env: Env)
    requires Distinct(Contents(f)) && d.id !in Ids(Contents(f)) && Step(f, m, Create(d), env).2.IOError?
    ensures d.id in Ids(Contents(Step(f, m, Create(d), env).0)) <==> env.locked && env.readable && env.write == Unsynced
    ensures d.id !in Ids(m.devices) ==> d.id !in Ids(Step(f, m, Create(d), env).1.devices)
  {
    FileAfter(f, m, Create(d), env);
    MergedFollows(Pending(m), Contents(f));
    var devices := Refreshed(f, m).devices;
    assert d in devices + [d];
    assert forall e :: e in devices + [d] ==> e in devices || e == d;
  }
}
