/** The store as each process holds it: a cache over a file shared with the other processes. */
module DeviceStore {
  import opened Common
  import opened GoStrings
  import opened DeviceList

  class DeviceFile {
    var content: File

    constructor (content: File)
      ensures this.content == content
    {
      this.content := content;
    }
  }

  method IndexById(devices: seq<Device>, id: string) returns (i: int)
    ensures i == FirstById(devices, id)
  {
    i := 0;
    while i < |devices|
      invariant 0 <= i <= |devices|
      invariant forall k :: 0 <= k < i ==> devices[k].id != id
    {
      if devices[i].id == id { return; }
      i := i + 1;
    }
    i := -1;
  }

  method IndexByName(devices: seq<Device>, name: string) returns (i: int)
    ensures i == FirstByName(devices, name)
  {
    i := 0;
    while i < |devices|
      invariant 0 <= i <= |devices|
      invariant forall k :: 0 <= k < i ==> devices[k].name != name
    {
      if devices[i].name == name { return; }
      i := i + 1;
    }
    i := -1;
  }

  method IndexByHash(devices: seq<Device>, hash: string) returns (i: int)
    ensures i == FirstByHash(devices, hash)
  {
    i := 0;
    while i < |devices|
      invariant 0 <= i <= |devices|
      invariant forall k :: 0 <= k < i ==> devices[k].tokenHash != hash
    {
      if devices[i].tokenHash == hash { return; }
      i := i + 1;
    }
    i := -1;
  }

  /** Splits a list into what an operation keeps and what it removes. */
  method DeleteMatching(op: Op, devices: seq<Device>) returns (kept: seq<Device>, removed: seq<Device>)
    ensures kept == Kept(op, devices) && removed == Lost(op, devices)
  {
    kept, removed := [], [];
    var i := 0;
    while i < |devices|
      invariant 0 <= i <= |devices|
      invariant kept == Kept(op, devices[..i]) && removed == Lost(op, devices[..i])
    {
      assert devices[..i + 1][..i] == devices[..i];
      if Drops(op, devices[i]) {
        removed := removed + [devices[i]];
      } else {
        kept := kept + [devices[i]];
      }
      i := i + 1;
    }
    assert devices[..i] == devices;
  }

  class Store {
    const file: DeviceFile
    var devices: seq<Device>
    var lastFlush: Time
    var lastUsedDirty: bool

    ghost function Cache(): Mem
      reads this
    {
      Mem(devices, lastUsedDirty, lastFlush)
    }

    constructor (file: DeviceFile, now: Time)
      ensures this.file == file && Cache() == Mem([], false, now)
    {
      this.file, devices, lastUsedDirty, lastFlush := file, [], false, now;
    }

    method SnapshotLastUsed() returns (pending: map<string, Time>)
      ensures pending == Pending(Cache())
    {
      pending := map[];
      if !lastUsedDirty { return; }
      var i := 0;
      while i < |devices|
        invariant 0 <= i <= |devices| && pending == Snapshot(devices[..i])
      {
        assert devices[..i + 1][..i] == devices[..i];
        if devices[i].lastUsed.Some? {
          pending := pending[devices[i].id := devices[i].lastUsed.value];
        }
        i := i + 1;
      }
      assert devices[..i] == devices;
    }

    /** Puts newer use times back onto the list just read. */
    method MergeLastUsed(pending: map<string, Time>)
      modifies this
      ensures devices == Merged(pending, old(devices)) && lastFlush == old(lastFlush)
      ensures lastUsedDirty <==> exists i :: 0 <= i < |old(devices)| && Newer(pending, old(devices)[i])
    {
      ghost var was := devices;
      if |pending| == 0 {
        lastUsedDirty := false;
        assert Merged(pending, was) == was;
        return;
      }
      var dirty := false;
      var i := 0;
      while i < |devices|
        invariant 0 <= i <= |devices| == |was| && lastFlush == old(lastFlush)
        invariant forall k :: 0 <= k < |was| ==> devices[k] == if k < i then Touched(pending, was[k]) else was[k]
        invariant dirty <==> exists k :: 0 <= k < i && Newer(pending, was[k])
      {
        var d := devices[i];
        if d.id in pending && (d.lastUsed.None? || pending[d.id] > d.lastUsed.value) {
          devices := devices[i := d.(lastUsed := Some(pending[d.id]))];
          dirty := true;
          assert Newer(pending, was[i]);
        }
        i := i + 1;
      }
      lastUsedDirty := dirty;
    }

    /** Reads the file again and merges pending use times, as every operation does under the lock. */
    method Refresh()
      modifies this
      ensures Cache() == Refreshed(file.content, old(Cache()))
    {
      var pending := SnapshotLastUsed();
      devices := if file.content.Holds? then file.content.devices else [];
      MergeLastUsed(pending);
    }

    /** Rewrites the file from the cache. */
    method Persist(env: Env) returns (ok: bool)
      modifies this, file
      ensures ok <==> env.write == Written
      ensures file.content == if env.write == NotWritten then old(file.content) else Holds(old(devices))
      ensures Cache() == if ok then Mem(old(devices), false, env.now) else old(Cache())
    {
      ok := env.write == Written;
      if env.write != NotWritten {
        file.content := Holds(devices);
      }
      if ok {
        lastUsedDirty, lastFlush := false, env.now;
      }
    }

    /** A process starts on the file, which it creates empty if it is still absent. */
    method OpenStore(env: Env) returns (r: Result)
      modifies this, file
      ensures (file.content, Cache(), r) == Step(old(file.content), old(Cache()), Open, env)
    {
      if !env.locked { return IOError; }
      if file.content.Missing? {
        var previous := devices;
        devices := [];
        var ok := Persist(env);
        if !ok {
          devices := previous;
          return IOError;
        }
      } else if !env.readable {
        return IOError;
      } else {
        devices, lastUsedDirty, lastFlush := file.content.devices, false, env.now;
      }
      return Ok([]);
    }

    method CreateDevice(d: Device, env: Env) returns (r: Result)
      modifies this, file
      ensures (file.content, Cache(), r) == Step(old(file.content), old(Cache()), Create(d), env)
    {
      if !env.locked || !env.readable { return IOError; }
      Refresh();
      devices := devices + [d];
      var ok := Persist(env);
      if !ok {
        devices := devices[..|devices| - 1];
        return IOError;
      }
      return Ok([d]);
    }

    method RevokeDevice(idOrName: string, env: Env) returns (r: Result)
      modifies this, file
      ensures (file.content, Cache(), r) == Step(old(file.content), old(Cache()), Revoke(idOrName), env)
    {
      if !env.locked || !env.readable { return IOError; }
      Refresh();
      var i := IndexById(devices, idOrName);
      if i < 0 {
        i := IndexByName(devices, idOrName);
      }
      if i < 0 { return NotFound; }
      var d := devices[i];
      devices := devices[..i] + devices[i + 1..];
      var ok := Persist(env);
      return if ok then Ok([d]) else IOError;
    }

    /** RevokeByClientKeyFP and Prune: remove every device that matches. */
    method RemoveMatching(op: Op, env: Env) returns (r: Result)
      requires op.RevokeByKey? || op.Prune?
      modifies this, file
      ensures (file.content, Cache(), r) == Step(old(file.content), old(Cache()), op, env)
    {
      if op.RevokeByKey? && TrimSpace(op.fp) == "" { return Ok([]); }
      if !env.locked || !env.readable { return IOError; }
      Refresh();
      var removed;
      devices, removed := DeleteMatching(op, devices);
      if removed == [] { return Ok([]); }
      var ok := Persist(env);
      return if ok then Ok(removed) else IOError;
    }

    method ValidateToken(hash: string, env: Env) returns (r: Result)
      modifies this, file
      ensures (file.content, Cache(), r) == Step(old(file.content), old(Cache()), Validate(hash), env)
    {
      if hash == "" { return InvalidToken; }
      if !env.locked || !env.readable { return IOError; }
      Refresh();
      var i := IndexByHash(devices, hash);
      if i < 0 { return InvalidToken; }
      devices := devices[i := devices[i].(lastUsed := Some(env.now))];
      lastUsedDirty := true;
      var d := devices[i];
      if env.now - lastFlush >= FLUSH_INTERVAL {
        var ok := Persist(env);
        if !ok { return IOError; }
      }
      return Ok([d]);
    }

    method FlushTimes(env: Env) returns (r: Result)
      modifies this, file
      ensures (file.content, Cache(), r) == Step(old(file.content), old(Cache()), Flush, env)
    {
      if !lastUsedDirty { return Ok([]); }
      if !env.locked || !env.readable { return IOError; }
      Refresh();
      if !lastUsedDirty { return Ok([]); }
      var ok := Persist(env);
      return if ok then Ok([]) else IOError;
    }

    method BackfillKey(id: string, spki: string, env: Env) returns (r: Result)
      modifies this, file
      ensures (file.content, Cache(), r) == Step(old(file.content), old(Cache()), Backfill(id, spki), env)
    {
      if spki == "" { return Ok([]); }
      if !env.locked || !env.readable { return IOError; }
      Refresh();
      var i := IndexById(devices, id);
      if i < 0 { return NotFound; }
      if devices[i].spki != "" { return Ok([]); }
      devices := devices[i := devices[i].(spki := spki)];
      var ok := Persist(env);
      return if ok then Ok([]) else IOError;
    }
  }
}
