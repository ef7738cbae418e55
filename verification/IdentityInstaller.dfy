/** The certificate directory as an object, and the install protocol as code that changes it. */
module IdentityInstaller {
  import opened Common
  import opened IdentityFiles
  import opened IdentityProofs

  class CertDir {
    var files: Files
    const script: nat -> Outcome
    var pc: nat
    var alive: bool

    ghost function State(): World
      reads this
    {
      World(files, script, pc, alive)
    }

    constructor (files: Files, script: nat -> Outcome)
      ensures State() == World(files, script, 0, true)
    {
      this.files, this.script, this.pc, this.alive := files, script, 0, true;
    }

    /** Attempts the operation that would leave the files as `f`. */
    method Attempt(f: Files) returns (ok: bool)
      modifies this
      ensures (State(), ok) == Act(old(State()), f)
    {
      ok := false;
      if alive {
        match script(pc) {
          case Done => files, pc, ok := f, pc + 1, true;
          case Fails => pc := pc + 1;
          case Crashes => alive := false;
        }
      }
    }

    /** Renames tls.key.new to tls.key. */
    method RenameKey() returns (ok: bool)
      requires files.keyNew.Some?
      modifies this
      ensures (State(), ok) == Act(old(State()), InstallKey(old(files)))
    {
      ok := Attempt(files.(key := files.keyNew, keyNew := None));
    }

    /** Renames tls.crt.new to tls.crt. */
    method RenameCert() returns (ok: bool)
      requires files.certNew.Some?
      modifies this
      ensures (State(), ok) == Act(old(State()), InstallCert(old(files)))
    {
      ok := Attempt(files.(cert := files.certNew, certNew := None));
    }

    method PromoteNewPair() returns (ok: bool)
      modifies this
      ensures (State(), ok) == Promote(old(State()))
    {
      var certThere := Attempt(files);
      if !certThere || files.certNew.None? { return false; }
      var keyThere := Attempt(files);
      if !keyThere || files.keyNew.None? { return false; }
      var read := Attempt(files);
      if !read || !Loads(files.certNew, files.keyNew) { return false; }
      ok := RenameKey();
      if ok {
        ok := RenameCert();
      }
    }

    method CleanupOrphanNew()
      modifies this
      ensures State() == Cleanup(old(State()))
    {
      var certThere := Attempt(files);
      certThere := certThere && files.certNew.Some?;
      var keyThere := Attempt(files);
      keyThere := keyThere && files.keyNew.Some?;
      var done := false;
      if certThere && !keyThere {
        done := Attempt(files);
        if done && Loads(files.certNew, files.key) {
          done := RenameCert();
          if done { return; }
        }
        done := Attempt(files.(certNew := None));
      }
      if keyThere && !certThere {
        done := Attempt(files);
        if done && Loads(files.cert, files.keyNew) {
          done := RenameKey();
          if done { return; }
        }
        done := Attempt(files.(keyNew := None));
      }
    }

    method WritePairAtomic(c: Cert) returns (ok: bool)
      modifies this
      ensures (State(), ok) == WritePair(old(State()), c)
    {
      ok := Attempt(files.(keyNew := Some(c.key)));
      if !ok { return; }
      var ignored;
      ok := Attempt(files.(certNew := Some(c)));
      if !ok {
        ignored := Attempt(files.(keyNew := None));
        return;
      }
      ok := RenameKey();
      if !ok {
        ignored := Attempt(files.(certNew := None));
        ignored := Attempt(files.(keyNew := None));
        return;
      }
      ok := RenameCert();
    }

    method GenerateIdentity(mint: Cert) returns (r: Result)
      modifies this
      ensures (State(), r) == Generate(old(State()), mint)
    {
      var ok := WritePairAtomic(mint);
      r := if ok then Served(mint, true) else Failed;
    }

    method LoadOrDecide(now: Time, mint: Cert) returns (r: Result)
      modifies this
      ensures (State(), r) == Decide(old(State()), now, mint)
    {
      var ok := Attempt(files);
      if !ok { return Failed; }
      ok := Attempt(files);
      if !ok { return Failed; }
      if files.cert.None? && files.key.None? {
        r := GenerateIdentity(mint);
        return;
      }
      ok := Attempt(files);
      if !ok || !Loads(files.cert, files.key) {
        ok := PromoteNewPair();
        if ok {
          ok := Attempt(files);
          if ok && Loads(files.cert, files.key) { return Served(files.cert.value, false); }
        }
        return Refused;
      }
      if now < files.cert.value.notAfter - RENEW_BEFORE { return Served(files.cert.value, false); }
      r := GenerateIdentity(mint);
    }

    method EnsureIdentity(now: Time, mint: Cert) returns (r: Result)
      modifies this
      ensures (State(), r) == Ensure(old(State()), now, mint)
      ensures Recoverable(old(files)) ==> (Recoverable(files) <==> !Strands(old(State())))
      ensures (&& CrashesOnly(script) && old(alive) && Recoverable(old(files)) && Fresh(mint, old(files))) ==>
                && (|| Effective(files) == Effective(old(files))
                    || (Effective(files) == Some(mint) && Warranted(Effective(old(files)), now)))
                && (r.Crashed? <==> !alive) && (r.Crashed? || r.Served?)
                && (r.Served? ==> files.cert == Some(r.cert) && Loads(files.cert, files.key) && Effective(files) == Some(r.cert))
    {
      ghost var w := State();
      var ok := PromoteNewPair();
      if !ok {
        CleanupOrphanNew();
      }
      r := LoadOrDecide(now, mint);
      if !alive {
        r := Crashed;
      }
      if Recoverable(w.files) {
        EnsureStaysRecoverableIff(w, now, mint);
        if CrashesOnly(w.script) && w.alive && Fresh(mint, w.files) {
          EnsureIsAtomicReplace(w, now, mint);
        }
      }
    }
  }
}
