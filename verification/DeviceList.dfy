/**
  The paired-device store of internal/auth/store.go: what one operation does to the shared file and
  to the calling process's cached copy. An operation runs under the cross-process path lock, so it is
  one atomic step of the whole system.
 */
module DeviceList {
  import opened Common
  import opened GoStrings

  type Time = int

  /** One paired device; an empty `spki` means no public key has been recorded yet. */
  datatype Device = Device(
    id: string,
    name: string,
    tokenHash: string,
    createdAt: Time,
    lastUsed: Option<Time>,
    keyFP: string,
    spki: string
  )

  datatype File = Missing | Holds(devices: seq<Device>)

  /** A process's cache: the list as last seen, and whether it carries use times the file may lack. */
  datatype Mem = Mem(devices: seq<Device>, dirty: bool, lastFlush: Time)

  datatype Op =
    | Create(device: Device)
    | Revoke(idOrName: string)
    | RevokeByKey(fp: string, keepId: string)
    | Prune(staleBefore: Option<Time>, keylessOnly: bool)
    | Validate(hash: string)          // the empty hash stands for the empty token
    | Flush
    | Backfill(id: string, spki: string)
    | Read                            // list, or look up a public key
    | Open                            // a process starts, or starts again

  /** How a write ends. Unsynced reports an error after the new bytes are already visible. */
  datatype Write = Written | NotWritten | Unsynced

  /** What the environment decides for one operation. */
  datatype Env = Env(locked: bool, readable: bool, write: Write, now: Time)

  datatype Result = Ok(devices: seq<Device>) | NotFound | InvalidToken | IOError

  /** Five minutes, in seconds. */
  const FLUSH_INTERVAL: Time := 300

  function Contents(f: File): seq<Device> {
    if f.Holds? then f.devices else []
  }

  // ---- use times ----

  function Snapshot(devices: seq<Device>): map<string, Time> {
    if devices == [] then map[]
    else
      var d := devices[|devices| - 1];
      var rest := Snapshot(devices[..|devices| - 1]);
      if d.lastUsed.Some? then rest[d.id := d.lastUsed.value] else rest
  }

  function Pending(m: Mem): map<string, Time> {
    if m.dirty then Snapshot(m.devices) else map[]
  }

  /** The cached use time is newer than the recorded one, or there is none recorded. */
  predicate Newer(pending: map<string, Time>, d: Device) {
    d.id in pending && (d.lastUsed.None? || pending[d.id] > d.lastUsed.value)
  }

  function Touched(pending: map<string, Time>, d: Device): Device {
    if Newer(pending, d) then d.(lastUsed := Some(pending[d.id])) else d
  }

  function Merged(pending: map<string, Time>, devices: seq<Device>): seq<Device> {
    seq(|devices|, i requires 0 <= i < |devices| => Touched(pending, devices[i]))
  }

  /** The cache after the file was read again and pending use times were put back. */
  function Refreshed(f: File, m: Mem): Mem {
    var pending := Pending(m);
    Mem(Merged(pending, Contents(f)),
        exists i :: 0 <= i < |Contents(f)| && Newer(pending, Contents(f)[i]),
        m.lastFlush)
  }

  // ---- operations on a list ----

  function FirstById(devices: seq<Device>, id: string): (i: int)
    ensures -1 <= i < |devices|
    ensures i >= 0 ==> devices[i].id == id
    ensures forall k :: 0 <= k < (if i < 0 then |devices| else i) ==> devices[k].id != id
  {
    if devices == [] then -1
    else if devices[0].id == id then 0
    else var i := FirstById(devices[1..], id); if i < 0 then -1 else i + 1
  }

  function FirstByName(devices: seq<Device>, name: string): (i: int)
    ensures -1 <= i < |devices|
    ensures i >= 0 ==> devices[i].name == name
    ensures forall k :: 0 <= k < (if i < 0 then |devices| else i) ==> devices[k].name != name
  {
    if devices == [] then -1
    else if devices[0].name == name then 0
    else var i := FirstByName(devices[1..], name); if i < 0 then -1 else i + 1
  }

  function FirstByHash(devices: seq<Device>, hash: string): (i: int)
    ensures -1 <= i < |devices|
    ensures i >= 0 ==> devices[i].tokenHash == hash
    ensures forall k :: 0 <= k < (if i < 0 then |devices| else i) ==> devices[k].tokenHash != hash
  {
    if devices == [] then -1
    else if devices[0].tokenHash == hash then 0
    else var i := FirstByHash(devices[1..], hash); if i < 0 then -1 else i + 1
  }

  /** An exact id wins over a name. */
  function RevokeIndex(devices: seq<Device>, idOrName: string): (i: int)
    ensures -1 <= i < |devices|
  {
    var i := FirstById(devices, idOrName);
    if i >= 0 then i else FirstByName(devices, idOrName)
  }

  /** What RevokeByKey and Prune remove. */
  predicate Drops(op: Op, d: Device) {
    match op
    case RevokeByKey(fp, keepId) => d.keyFP == TrimSpace(fp) && d.id != keepId
    case Prune(staleBefore, keylessOnly) =>
      if keylessOnly then d.keyFP == ""
      else staleBefore.Some? && (d.lastUsed.None? || d.lastUsed.value < staleBefore.value)
    case _ => false
  }

  function Kept(op: Op, devices: seq<Device>): seq<Device> {
    if devices == [] then []
    else
      var d := devices[|devices| - 1];
      var rest := Kept(op, devices[..|devices| - 1]);
      if Drops(op, d) then rest else rest + [d]
  }

  /** The devices an operation reports as removed. */
  function Lost(op: Op, devices: seq<Device>): seq<Device> {
    if devices == [] then []
    else
      var d := devices[|devices| - 1];
      var rest := Lost(op, devices[..|devices| - 1]);
      if Drops(op, d) then rest + [d] else rest
  }

  function RemoveAt(devices: seq<Device>, i: int): seq<Device>
    requires -1 <= i < |devices|
  {
    if i < 0 then devices else devices[..i] + devices[i + 1..]
  }

  /** The list an operation turns a list into. */
  function Apply(op: Op, devices: seq<Device>, now: Time): seq<Device> {
    match op
    case Create(d) => devices + [d]
    case Revoke(key) => RemoveAt(devices, RevokeIndex(devices, key))
    case RevokeByKey(_, _) => Kept(op, devices)
    case Prune(_, _) => Kept(op, devices)
    case Validate(hash) =>
      var i := FirstByHash(devices, hash);
      if i < 0 then devices else devices[i := devices[i].(lastUsed := Some(now))]
    case Backfill(id, spki) =>
      var i := FirstById(devices, id);
      if i < 0 || devices[i].spki != "" then devices else devices[i := devices[i].(spki := spki)]
    case Flush => devices
    case Read => devices
    case Open => devices
  }

  // ---- one step of one process ----

  /** Whether the operation, run on the refreshed cache, rewrites the file. */
  predicate Writes(op: Op, m: Mem, now: Time) {
    match op
    case Create(_) => true
    case Revoke(key) => RevokeIndex(m.devices, key) >= 0
    case RevokeByKey(_, _) => Lost(op, m.devices) != []
    case Prune(_, _) => Lost(op, m.devices) != []
    case Validate(hash) => FirstByHash(m.devices, hash) >= 0 && now - m.lastFlush >= FLUSH_INTERVAL
    case Backfill(id, _) => var i := FirstById(m.devices, id); i >= 0 && m.devices[i].spki == ""
    case Flush => m.dirty
    case Read => false
    case Open => false
  }

  function ResultOf(op: Op, m: Mem, now: Time): Result {
    match op
    case Create(d) => Ok([d])
    case Revoke(key) => var i := RevokeIndex(m.devices, key); if i < 0 then NotFound else Ok([m.devices[i]])
    case RevokeByKey(_, _) => Ok(Lost(op, m.devices))
    case Prune(_, _) => Ok(Lost(op, m.devices))
    case Validate(hash) =>
      var i := FirstByHash(m.devices, hash);
      if i < 0 then InvalidToken else Ok([m.devices[i].(lastUsed := Some(now))])
    case Backfill(id, _) => if FirstById(m.devices, id) < 0 then NotFound else Ok([])
    case Flush => Ok([])
    case Read => Ok(m.devices)
    case Open => Ok([])
  }

  /** Calls that return before taking the lock. */
  predicate Immediate(op: Op, m: Mem) {
    || (op.Flush? && !m.dirty)
    || (op.Validate? && op.hash == "")
    || (op.RevokeByKey? && TrimSpace(op.fp) == "")
    || (op.Backfill? && op.spki == "")
  }

  function Body(f: File, m: Mem, op: Op, env: Env): (File, Mem, Result) {
    var after := Apply(op, m.devices, env.now);
    var hit := op.Validate? && FirstByHash(m.devices, op.hash) >= 0;
    if !Writes(op, m, env.now) then
      (f, m.(devices := after, dirty := m.dirty || hit), ResultOf(op, m, env.now))
    else match env.write
      case Written => (Holds(after), Mem(after, false, env.now), ResultOf(op, m, env.now))
      case NotWritten => (f, Unwritten(op, m, after, hit), IOError)
      case Unsynced => (Holds(after), Unwritten(op, m, after, hit), IOError)
  }

  /** The cache after a write that reported an error: only Create takes its change back. */
  function Unwritten(op: Op, m: Mem, after: seq<Device>, hit: bool): Mem {
    if op.Create? then m else m.(devices := after, dirty := m.dirty || hit)
  }

  function Start(f: File, m: Mem, env: Env): (File, Mem, Result) {
    if f.Missing? then
      match env.write
      case Written => (Holds([]), Mem([], false, env.now), Ok([]))
      case NotWritten => (f, m, IOError)
      case Unsynced => (Holds([]), m, IOError)
    else if !env.readable then (f, m, IOError)
    else (f, Mem(f.devices, false, env.now), Ok([]))
  }

  /** One operation of one process: the file, its cache and its result afterwards. */
  function Step(f: File, m: Mem, op: Op, env: Env): (File, Mem, Result) {
    if Immediate(op, m) then (f, m, if op.Validate? then InvalidToken else Ok([]))
    else if !env.locked then (f, m, IOError)
    else if op.Open? then Start(f, m, env)
    else if !env.readable then (f, m, IOError)
    else Body(f, Refreshed(f, m), op, env)
  }
}
