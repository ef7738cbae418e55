/**
  The four files of the daemon's TLS identity and the operations of
  internal/certs/certs.go on them, as functions of the file state.

  A process is given a script that decides the outcome of each file operation it
  performs: the operation happens, it reports an error and changes nothing, or the
  process dies just before it. A dead process performs no further operation, so one
  function describes every place at which a run may be cut short.
 */
module IdentityFiles {
  import opened Common

  type Time = int

  /** A certificate names the key it was made for and its expiry. */
  datatype Cert = Cert(key: nat, notAfter: Time)

  /** tls.crt, tls.key, tls.crt.new and tls.key.new; a key file holds a key name. */
  datatype Files = Files(cert: Option<Cert>, key: Option<nat>, certNew: Option<Cert>, keyNew: Option<nat>)

  datatype Outcome = Done | Fails | Crashes

  datatype World = World(files: Files, script: nat -> Outcome, pc: nat, alive: bool)

  datatype Result =
    | Served(cert: Cert, generated: bool)
    | Refused     // the pair exists but could not be loaded
    | Failed      // any other error
    | Crashed

  /** Thirty days, in seconds. */
  const RENEW_BEFORE: Time := 30 * 24 * 3600

  /** A certificate file and a key file load exactly when both exist and belong together. */
  predicate Loads(cert: Option<Cert>, key: Option<nat>) {
    cert.Some? && key.Some? && cert.value.key == key.value
  }

  function InstallKey(f: Files): Files
    requires f.keyNew.Some?
  {
    f.(key := f.keyNew, keyNew := None)
  }

  function InstallCert(f: Files): Files
    requires f.certNew.Some?
  {
    f.(cert := f.certNew, certNew := None)
  }

  /** One file operation that would leave the files as `f`. */
  function Act(w: World, f: Files): (World, bool) {
    if !w.alive then (w, false)
    else match w.script(w.pc)
      case Done => (w.(files := f, pc := w.pc + 1), true)
      case Fails => (w.(pc := w.pc + 1), false)
      case Crashes => (w.(alive := false), false)
  }

  /** A stat or a read: nothing changes, but it can fail. */
  function Look(w: World): (World, bool) {
    Act(w, w.files)
  }

  function Promote(w: World): (World, bool) {
    var (w1, certThere) := Look(w);
    if !certThere || w.files.certNew.None? then (w1, false) else
    var (w2, keyThere) := Look(w1);
    if !keyThere || w.files.keyNew.None? then (w2, false) else
    var (w3, read) := Look(w2);
    if !read || !Loads(w.files.certNew, w.files.keyNew) then (w3, false) else
    var (w4, renamed) := Act(w3, InstallKey(w.files));
    if !renamed then (w4, false) else
    Act(w4, InstallCert(w4.files))
  }

  function Cleanup(w: World): World {
    var (w1, certSeen) := Look(w);
    var (w2, keySeen) := Look(w1);
    var certThere := certSeen && w.files.certNew.Some?;
    var keyThere := keySeen && w.files.keyNew.Some?;
    if certThere && !keyThere then
      var (w3, read) := Look(w2);
      if !read || !Loads(w.files.certNew, w.files.key) then
        Act(w3, w.files.(certNew := None)).0
      else
        var (w4, renamed) := Act(w3, InstallCert(w.files));
        if renamed then w4 else Act(w4, w.files.(certNew := None)).0
    else if keyThere && !certThere then
      var (w3, read) := Look(w2);
      if !read || !Loads(w.files.cert, w.files.keyNew) then
        Act(w3, w.files.(keyNew := None)).0
      else
        var (w4, renamed) := Act(w3, InstallKey(w.files));
        if renamed then w4 else Act(w4, w.files.(keyNew := None)).0
    else w2
  }

  function WritePair(w: World, c: Cert): (World, bool) {
    var (w1, keyStaged) := Act(w, w.files.(keyNew := Some(c.key)));
    if !keyStaged then (w1, false) else
    var (w2, certStaged) := Act(w1, w1.files.(certNew := Some(c)));
    if !certStaged then (Act(w2, w2.files.(keyNew := None)).0, false) else
    var (w3, keyInstalled) := Act(w2, InstallKey(w2.files));
    if !keyInstalled then
      var w4 := Act(w3, w3.files.(certNew := None)).0;
      (Act(w4, w4.files.(keyNew := None)).0, false)
    else
      Act(w3, InstallCert(w3.files))
  }

  function Generate(w: World, mint: Cert): (World, Result) {
    var (w1, ok) := WritePair(w, mint);
    (w1, if ok then Served(mint, true) else Failed)
  }

  /** Promote a complete staged pair, or else settle a lone staged file. */
  function Recover(w: World): World {
    var (w1, promoted) := Promote(w);
    if promoted then w1 else Cleanup(w1)
  }

  /** The last attempt made when the live pair does not load. */
  function LastChance(w: World): (World, Result) {
    var (w1, promoted) := Promote(w);
    if !promoted then (w1, Refused) else
    var (w2, read) := Look(w1);
    if read && Loads(w2.files.cert, w2.files.key) then (w2, Served(w2.files.cert.value, false)) else (w2, Refused)
  }

  /** Everything after recovery: decide between serving, generating and refusing. */
  function Decide(w: World, now: Time, mint: Cert): (World, Result) {
    var (w1, certStat) := Look(w);
    if !certStat then (w1, Failed) else
    var (w2, keyStat) := Look(w1);
    if !keyStat then (w2, Failed) else
    if w.files.cert.None? && w.files.key.None? then Generate(w2, mint) else
    var (w3, read) := Look(w2);
    if !read || !Loads(w.files.cert, w.files.key) then LastChance(w3)
    else if now < w.files.cert.value.notAfter - RENEW_BEFORE then (w3, Served(w.files.cert.value, false))
    else Generate(w3, mint)
  }

  /** One call of Ensure; `mint` is the identity that generate would create. */
  function Ensure(w: World, now: Time, mint: Cert): (World, Result) {
    var (w1, r) := Decide(Recover(w), now, mint);
    (w1, if w1.alive then r else Crashed)
  }
}
