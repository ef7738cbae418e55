/** What a start reports, for every way its operations may turn out: success only with the pair in place, and which error when. */
module IdentityOutcomes {
  import opened Common
  import opened IdentityFiles
  import opened IdentityProofs

  /** Whatever fails and wherever the process dies, an identity that is served is the live pair. */
  lemma ServedIsLive(w: World, now: Time, mint: Cert)
    ensures var (w1, r) := Ensure(w, now, mint);
            r.Served? ==> w1.alive && Loads(w1.files.cert, w1.files.key) && w1.files.cert == Some(r.cert)
  {
  }

  /** All four operations of an install are done: two files staged, two renamed. */
  predicate Installs(w: World) {
    w.script(w.pc) == Done && w.script(w.pc + 1) == Done && w.script(w.pc + 2) == Done && w.script(w.pc + 3) == Done
  }

  /** A new identity is reported exactly when one was called for and all of it was installed. */
  lemma GeneratedIffInstalled(w: World, now: Time, mint: Cert)
    ensures var (w1, r) := Ensure(w, now, mint);
            var g := GeneratesIn(Recover(w), now);
            && (r.Served? && r.generated <==> g.Some? && Installs(g.value))
            && (r.Served? && r.generated ==> r.cert == mint && w1.files == Files(Some(mint), Some(mint.key), None, None))
  {
    var v := Recover(w);
    if GeneratesIn(v, now).Some? {
      DecideInstalls(v, now, mint);
      InstallOutcome(GeneratesIn(v, now).value, mint);
    }
  }

  lemma InstallOutcome(w: World, mint: Cert)
    requires w.alive
    ensures WritePair(w, mint).1 <==> Installs(w)
    ensures Installs(w) ==> WritePair(w, mint).0.alive && WritePair(w, mint).0.files == Files(Some(mint), Some(mint.key), None, None)
  {
  }

  /** The two stats of the live files succeed. */
  predicate SeesLivePair(w: World) {
    w.alive && w.script(w.pc) == Done && w.script(w.pc + 1) == Done
  }

  /** The live pair is read and belongs together. */
  predicate ReadsLivePair(w: World) {
    w.script(w.pc + 2) == Done && Loads(w.files.cert, w.files.key)
  }

  /** A pair still staged is promoted and read at the last attempt. */
  predicate LateRescue(w: World) {
    && StagedPair(w.files)
    && w.script(w.pc + 3) == Done && w.script(w.pc + 4) == Done && w.script(w.pc + 5) == Done
    && w.script(w.pc + 6) == Done && w.script(w.pc + 7) == Done && w.script(w.pc + 8) == Done
  }

  /**
    Which error: a start that is not killed fails when a stat fails or an install is not completed, and refuses
    exactly when it sees live files that it cannot load and no staged pair rescues it.
   */
  lemma ErrorsIff(w: World, now: Time, mint: Cert)
    ensures var (w1, r) := Ensure(w, now, mint);
            var v, g := Recover(w), GeneratesIn(Recover(w), now);
            && (r.Crashed? <==> !w1.alive)
            && (r.Failed? <==> w1.alive && (!SeesLivePair(v) || (g.Some? && !Installs(g.value))))
            && (r.Refused? <==> w1.alive && SeesLivePair(v) && HasLiveFile(v.files) && !ReadsLivePair(v) && !LateRescue(v))
  {
    DecideErrors(Recover(w), now, mint);
  }

  predicate HasLiveFile(f: Files) {
    f.cert.Some? || f.key.Some?
  }

  lemma DecideErrors(v: World, now: Time, mint: Cert)
    ensures var (w1, r) := Decide(v, now, mint);
            && !r.Crashed?
            && (w1.alive ==> (r.Failed? <==> !SeesLivePair(v) || (GeneratesIn(v, now).Some? && !Installs(GeneratesIn(v, now).value))))
            && (w1.alive ==> (r.Refused? <==> SeesLivePair(v) && HasLiveFile(v.files) && !ReadsLivePair(v) && !LateRescue(v)))
  {
    if !SeesLivePair(v) {
      UnseenFails(v, now, mint);
    } else if GeneratesIn(v, now).Some? {
      DecideInstalls(v, now, mint);
      InstallOutcome(GeneratesIn(v, now).value, mint);
    } else if !ReadsLivePair(v) {
      LastChanceOutcome(Look(Look(Look(v).0).0).0);
    }
  }

  lemma UnseenFails(v: World, now: Time, mint: Cert)
    requires !SeesLivePair(v)
    ensures Decide(v, now, mint).1 == Failed && GeneratesIn(v, now).None?
  {
  }

  lemma LastChanceOutcome(w: World)
    ensures LastChance(w).1.Served?
            <==> && w.alive && StagedPair(w.files)
                 && w.script(w.pc) == Done && w.script(w.pc + 1) == Done && w.script(w.pc + 2) == Done
                 && w.script(w.pc + 3) == Done && w.script(w.pc + 4) == Done && w.script(w.pc + 5) == Done
    ensures LastChance(w).1.Served? ==> LastChance(w).0.alive
    ensures LastChance(w).1.Served? || LastChance(w).1.Refused?
  {
  }

  /** When nothing goes wrong on the way, from any four files at all, a start refuses exactly when they are beyond repair. */
  lemma FaultlessRefusesIff(w: World, now: Time, mint: Cert)
    requires w.alive && forall i: nat :: w.script(i) == Done
    ensures var r := Ensure(w, now, mint).1;
            && (r.Refused? <==> !Settled(Recover(w).files))
            && (r.Served? <==> Settled(Recover(w).files))
  {
    AlwaysDoneSurvives(w, now, mint);
    ErrorsIff(w, now, mint);
    FaultlessRecovers(w);
  }

  lemma FaultlessRecovers(w: World)
    requires w.alive && forall i: nat :: w.script(i) == Done
    ensures Recover(w).alive && Recover(w).script == w.script && !StagedPair(Recover(w).files)
  {
    var p := Promote(w).0;
    assert w.script(w.pc) == Done && p.script == w.script;
  }

  /** One of the first three operations of an install fails, and everything else it does is done. */
  ghost predicate FailsOnce(w: World, k: nat) {
    k < 3 && w.script(w.pc + k) == Fails && forall i: nat :: i != w.pc + k ==> w.script(i) == Done
  }

  /** A failed install leaves no trace: before the first rename a single failure is cleaned up, and the files are as before. */
  lemma FailedInstallLeavesNoTrace(w: World, mint: Cert, k: nat)
    requires w.alive && w.files.certNew.None? && w.files.keyNew.None? && FailsOnce(w, k)
    ensures WritePair(w, mint).0.files == w.files && WritePair(w, mint).0.alive && !WritePair(w, mint).1
  {
    assert k == 0 || k == 1 || k == 2;
  }
}
