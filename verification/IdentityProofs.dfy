/**
  What the four-file protocol guarantees. The central result is that, however often the
  process dies, the four files behave as ONE cell holding an identity that is replaced
  in a single step, and replaced only when the code has a reason to.
 */
module IdentityProofs {
  import opened Common
  import opened IdentityFiles

  /** The live pair is complete, or there is none. */
  predicate Settled(f: Files) {
    (f.cert.None? && f.key.None?) || Loads(f.cert, f.key)
  }

  /** The key of a new identity is live and its certificate is still staged. */
  predicate HalfInstalled(f: Files) {
    f.keyNew.None? && Loads(f.certNew, f.key)
  }

  predicate Recoverable(f: Files) {
    Settled(f) || HalfInstalled(f)
  }

  /** The identity a caller is entitled to: the abstract value of the four files. */
  function Effective(f: Files): Option<Cert> {
    if Loads(f.certNew, f.keyNew) || HalfInstalled(f) then f.certNew else f.cert
  }

  /** The two reasons for which a new identity may be made. */
  predicate Warranted(current: Option<Cert>, now: Time) {
    current.None? || now >= current.value.notAfter - RENEW_BEFORE
  }

  /** The new key occurs in none of the files. */
  predicate Fresh(mint: Cert, f: Files) {
    && (f.cert.Some? ==> f.cert.value.key != mint.key)
    && (f.certNew.Some? ==> f.certNew.value.key != mint.key)
    && f.key != Some(mint.key)
    && f.keyNew != Some(mint.key)
  }

  ghost predicate CrashesOnly(script: nat -> Outcome) {
    forall i: nat :: script(i) != Fails
  }

  // ---- one run that may die anywhere ----

  lemma PromoteKeepsEffective(w: World)
    requires CrashesOnly(w.script) && Recoverable(w.files)
    ensures var (w1, ok) := Promote(w);
            && Recoverable(w1.files) && Effective(w1.files) == Effective(w.files)
            && w1.script == w.script
            && (ok ==> Settled(w1.files) && w1.files.certNew.None? && w1.files.keyNew.None?)
            && (!ok && w1.alive ==> w1.files == w.files && !Loads(w.files.certNew, w.files.keyNew))
  {
    assert w.script(w.pc) != Fails && w.script(w.pc + 1) != Fails && w.script(w.pc + 2) != Fails;
    assert w.script(w.pc + 3) != Fails && w.script(w.pc + 4) != Fails;
  }

  lemma CleanupKeepsEffective(w: World)
    requires CrashesOnly(w.script) && Recoverable(w.files) && !Loads(w.files.certNew, w.files.keyNew)
    ensures var w1 := Cleanup(w);
            && Recoverable(w1.files) && Effective(w1.files) == Effective(w.files)
            && w1.script == w.script
            && (w1.alive ==> Settled(w1.files) && Effective(w1.files) == w1.files.cert)
  {
    assert w.script(w.pc) != Fails && w.script(w.pc + 1) != Fails && w.script(w.pc + 2) != Fails;
    assert w.script(w.pc + 3) != Fails;
  }

  lemma RecoverKeepsEffective(w: World)
    requires CrashesOnly(w.script) && Recoverable(w.files)
    ensures var w1 := Recover(w);
            && Recoverable(w1.files) && Effective(w1.files) == Effective(w.files)
            && w1.script == w.script
            && (w1.alive ==> Settled(w1.files) && Effective(w1.files) == w1.files.cert)
  {
    PromoteKeepsEffective(w);
    var (w1, ok) := Promote(w);
    if !ok && w1.alive {
      CleanupKeepsEffective(w1);
    }
  }

  /** Installing a fresh pair moves the abstract cell from the old identity to the new one, or leaves it. */
  lemma WritePairReplaces(w: World, mint: Cert)
    requires CrashesOnly(w.script) && w.alive && Settled(w.files)
    requires Effective(w.files) == w.files.cert && Fresh(mint, w.files)
    ensures var (w1, ok) := WritePair(w, mint);
            && Recoverable(w1.files)
            && (Effective(w1.files) == Effective(w.files) || Effective(w1.files) == Some(mint))
            && (w1.alive <==> ok)
            && (ok ==> w1.files == Files(Some(mint), Some(mint.key), None, None))
  {
    assert w.script(w.pc) != Fails && w.script(w.pc + 1) != Fails;
    assert w.script(w.pc + 2) != Fails && w.script(w.pc + 3) != Fails;
  }

  /**
    One run of Ensure, cut short anywhere, is one step of a single cell: the identity stays or
    is replaced by the minted one, and the latter only with cause. A run that is not cut short
    serves exactly the identity the cell holds, and never refuses.
   */
  lemma EnsureIsAtomicReplace(w: World, now: Time, mint: Cert)
    requires CrashesOnly(w.script) && w.alive && Recoverable(w.files) && Fresh(mint, w.files)
    ensures var (w1, r) := Ensure(w, now, mint);
            && Recoverable(w1.files)
            && (|| Effective(w1.files) == Effective(w.files)
                || (Effective(w1.files) == Some(mint) && Warranted(Effective(w.files), now)))
            && (r.Crashed? || r.Served?)
            && (r.Crashed? <==> !w1.alive)
            && (r.Served? ==>
                  && Loads(w1.files.cert, w1.files.key) && w1.files.cert == Some(r.cert)
                  && Effective(w1.files) == Some(r.cert)
                  && (r.generated <==> Warranted(Effective(w.files), now))
                  && (r.cert == if r.generated then mint else Effective(w.files).value))
  {
    RecoverKeepsEffective(w);
    var w1 := Recover(w);
    RecoverKeepsFresh(w, mint);
    if w1.alive {
      DecideIsAtomicReplace(w1, now, mint);
    }
  }

  lemma RecoverKeepsFresh(w: World, mint: Cert)
    requires Fresh(mint, w.files)
    ensures Fresh(mint, Recover(w).files)
  {
    PromoteKeepsFresh(w, mint);
    CleanupKeepsFresh(Promote(w).0, mint);
  }

  lemma PromoteKeepsFresh(w: World, mint: Cert)
    requires Fresh(mint, w.files)
    ensures Fresh(mint, Promote(w).0.files)
  {
  }

  lemma CleanupKeepsFresh(w: World, mint: Cert)
    requires Fresh(mint, w.files)
    ensures Fresh(mint, Cleanup(w).files)
  {
  }

  lemma DecideIsAtomicReplace(w: World, now: Time, mint: Cert)
    requires CrashesOnly(w.script) && w.alive && Settled(w.files)
    requires Effective(w.files) == w.files.cert && Fresh(mint, w.files)
    ensures var (w1, r) := Decide(w, now, mint);
            && Recoverable(w1.files)
            && (|| Effective(w1.files) == Effective(w.files)
                || (Effective(w1.files) == Some(mint) && Warranted(Effective(w.files), now)))
            && (w1.alive ==>
                  && r.Served? && w1.files.cert == Some(r.cert)
                  && Loads(w1.files.cert, w1.files.key) && Effective(w1.files) == Some(r.cert)
                  && (r.generated <==> Warranted(Effective(w.files), now))
                  && (r.cert == if r.generated then mint else Effective(w.files).value))
  {
    assert w.script(w.pc) != Fails && w.script(w.pc + 1) != Fails && w.script(w.pc + 2) != Fails;
    if Look(w).1 && Look(Look(w).0).1 {
      var w2 := Look(Look(w).0).0;
      WritePairReplaces(w2, mint);
      if Look(w2).1 {
        WritePairReplaces(Look(w2).0, mint);
      }
    }
  }

  // ---- any number of runs ----

  /** One start of the daemon or the command line tool. */
  datatype Run = Run(script: nat -> Outcome, now: Time, mint: Cert)

  function AfterRun(f: Files, run: Run): Files {
    Ensure(World(f, run.script, 0, true), run.now, run.mint).0.files
  }

  function AfterRuns(f: Files, runs: seq<Run>): Files {
    if runs == [] then f else AfterRun(AfterRuns(f, runs[..|runs| - 1]), runs[|runs| - 1])
  }

  /** Every run only crashes, and would mint a key that no file holds at its start. */
  ghost predicate CrashHistory(f: Files, runs: seq<Run>) {
    runs != [] ==>
      var k := |runs| - 1;
      && CrashHistory(f, runs[..k])
      && CrashesOnly(runs[k].script) && Fresh(runs[k].mint, AfterRuns(f, runs[..k]))
  }

  /** Run k found cause to replace the identity, and the identity is the one it minted. */
  predicate ReplacedBy(f: Files, runs: seq<Run>, k: int, e: Option<Cert>)
    requires 0 <= k < |runs|
  {
    e == Some(runs[k].mint) && Warranted(Effective(AfterRuns(f, runs[..k])), runs[k].now)
  }

  /**
    Over any number of runs, each dying at any point or at none, the identity is the first one
    or was minted by a run that found no identity, or found one within RENEW_BEFORE of expiry.
   */
  lemma {:induction false} IdentityHistory(f: Files, runs: seq<Run>)
    requires Recoverable(f) && CrashHistory(f, runs)
    ensures Recoverable(AfterRuns(f, runs))
    ensures var e := Effective(AfterRuns(f, runs));
            e == Effective(f) || exists k :: 0 <= k < |runs| && ReplacedBy(f, runs, k, e)
  {
    if runs != [] {
      var n := |runs| - 1;
      var before := AfterRuns(f, runs[..n]);
      IdentityHistory(f, runs[..n]);
      EnsureIsAtomicReplace(World(before, runs[n].script, 0, true), runs[n].now, runs[n].mint);
      var e := Effective(AfterRuns(f, runs));
      if e == Effective(before) {
        if e != Effective(f) {
          var k :| 0 <= k < n && ReplacedBy(f, runs[..n], k, e);
          assert runs[..n][..k] == runs[..k];
          assert ReplacedBy(f, runs, k, e);
        }
      } else {
        assert ReplacedBy(f, runs, n, e);
      }
    }
  }

  /**
    A clock short of the renewal window, however far back it jumps, never re-keys: the identity
    in force at the start is in force after any number of runs.
   */
  lemma {:induction false} EarlyClockNeverRekeys(f: Files, runs: seq<Run>, e: Cert)
    requires Recoverable(f) && CrashHistory(f, runs) && Effective(f) == Some(e)
    requires forall k :: 0 <= k < |runs| ==> runs[k].now < e.notAfter - RENEW_BEFORE
    ensures Effective(AfterRuns(f, runs)) == Some(e)
  {
    if runs != [] {
      var n := |runs| - 1;
      EarlyClockNeverRekeys(f, runs[..n], e);
      IdentityHistory(f, runs[..n]);
      EnsureIsAtomicReplace(World(AfterRuns(f, runs[..n]), runs[n].script, 0, true), runs[n].now, runs[n].mint);
    }
  }

  /**
    After any history of crashes, a run that is let finish serves a matching pair: it never
    reports that the files exist but cannot be loaded.
   */
  lemma NextRunServes(f: Files, runs: seq<Run>, last: Run)
    requires Recoverable(f) && CrashHistory(f, runs + [last]) && forall i: nat :: last.script(i) == Done
    ensures var (w, r) := Ensure(World(AfterRuns(f, runs), last.script, 0, true), last.now, last.mint);
            && r.Served? && w.files.cert == Some(r.cert) && Loads(w.files.cert, w.files.key)
            && (r.generated <==> Warranted(Effective(AfterRuns(f, runs)), last.now))
  {
    assert (runs + [last])[..|runs|] == runs;
    IdentityHistory(f, runs);
    var w := World(AfterRuns(f, runs), last.script, 0, true);
    EnsureIsAtomicReplace(w, last.now, last.mint);
    AlwaysDoneSurvives(w, last.now, last.mint);
  }

  lemma AlwaysDoneSurvives(w: World, now: Time, mint: Cert)
    requires w.alive && forall i: nat :: w.script(i) == Done
    ensures Ensure(w, now, mint).0.alive
  {
    assert Recover(w).alive && Recover(w).script == w.script;
  }

  /** A renewal whose two files were both staged is finished by the next run, not replaced. */
  lemma StagedRenewalIsCompleted(w: World, now: Time, mint: Cert)
    requires w.alive && Recoverable(w.files) && Fresh(mint, w.files) && forall i: nat :: w.script(i) == Done
    requires Loads(w.files.certNew, w.files.keyNew) && now < w.files.certNew.value.notAfter - RENEW_BEFORE
    ensures Ensure(w, now, mint).1 == Served(w.files.certNew.value, false)
  {
    EnsureIsAtomicReplace(w, now, mint);
    AlwaysDoneSurvives(w, now, mint);
  }

  // ---- operations that fail without killing the process ----

  /**
    How a failing operation strands the files: the orphan certificate that would complete the install is
    found, cannot be read or renamed, and is then removed.
   */
  predicate DropsRepair(w: World) {
    && w.alive && HalfInstalled(w.files) && !Settled(w.files)
    && w.script(w.pc) == Done && w.script(w.pc + 1) != Crashes
    && (|| (w.script(w.pc + 2) == Fails && w.script(w.pc + 3) == Done)
        || (w.script(w.pc + 2) == Done && w.script(w.pc + 3) == Fails && w.script(w.pc + 4) == Done))
  }

  predicate Strands(w: World) {
    !Promote(w).1 && DropsRepair(Promote(w).0)
  }

  lemma PromoteStaysRecoverable(w: World)
    requires Recoverable(w.files)
    ensures Recoverable(Promote(w).0.files)
    ensures Promote(w).1 ==> Settled(Promote(w).0.files)
  {
  }

  lemma CleanupStaysRecoverableIff(w: World)
    requires Recoverable(w.files)
    ensures Recoverable(Cleanup(w).files) <==> !DropsRepair(w)
    ensures DropsRepair(w) ==> Stranded(Cleanup(w).files)
  {
  }

  lemma DecideStaysRecoverable(w: World, now: Time, mint: Cert)
    requires Recoverable(w.files)
    ensures Recoverable(Decide(w, now, mint).0.files)
  {
    var w2 := Look(Look(w).0).0;
    if Settled(w.files) {
      WritePairStaysRecoverable(w2, mint);
      WritePairStaysRecoverable(Look(w2).0, mint);
    }
    LastChanceStaysRecoverable(Look(w2).0);
  }

  lemma WritePairStaysRecoverable(w: World, mint: Cert)
    requires Settled(w.files)
    ensures Recoverable(WritePair(w, mint).0.files)
  {
  }

  lemma LastChanceStaysRecoverable(w: World)
    requires Recoverable(w.files)
    ensures Recoverable(LastChance(w).0.files)
  {
    PromoteStaysRecoverable(w);
  }

  /** No staged file is left and the live files do not belong together. */
  predicate Stranded(f: Files) {
    f.certNew.None? && f.keyNew.None? && !Settled(f)
  }

  /**
    Whatever fails and wherever the process dies, a run keeps the identity recoverable if and
    only if it does not remove the orphan certificate that would have completed the install.
   */
  lemma EnsureStaysRecoverableIff(w: World, now: Time, mint: Cert)
    requires Recoverable(w.files)
    ensures Recoverable(Ensure(w, now, mint).0.files) <==> !Strands(w)
  {
    PromoteStaysRecoverable(w);
    CleanupStaysRecoverableIff(Promote(w).0);
    if Strands(w) {
      StrandedForever(Recover(w), now, mint);
    } else {
      DecideStaysRecoverable(Recover(w), now, mint);
    }
  }

  /** Once stranded, no later run, however its operations turn out, changes a file or serves. */
  lemma StrandedForever(w: World, now: Time, mint: Cert)
    requires Stranded(w.files)
    ensures Recover(w).files == w.files
    ensures Decide(w, now, mint).0.files == w.files && !Decide(w, now, mint).1.Served?
    ensures Ensure(w, now, mint).0.files == w.files && !Ensure(w, now, mint).1.Served?
  {
    StrandedDecides(w, now, mint);
    assert Recover(w).files == w.files;
    StrandedDecides(Recover(w), now, mint);
  }

  lemma StrandedDecides(w: World, now: Time, mint: Cert)
    requires Stranded(w.files)
    ensures Decide(w, now, mint).0.files == w.files && !Decide(w, now, mint).1.Served?
  {
  }

  const EXPIRED := Cert(1, 0)
  const RENEWAL := Cert(2, 9)

  /** A run that renews at time zero and dies before the given operation. */
  function RenewalDyingAt(n: nat): Run {
    Run(i => if i == n then Crashes else Done, 0, RENEWAL)
  }

  /** A renewal that dies before its second rename leaves the new key live and its certificate staged. */
  lemma RenewalHalfInstalled()
    ensures var settled := Files(Some(EXPIRED), Some(1), None, None);
            && Settled(settled) && CrashesOnly(RenewalDyingAt(9).script) && Fresh(RENEWAL, settled)
            && AfterRun(settled, RenewalDyingAt(9)) == Files(Some(EXPIRED), Some(2), Some(RENEWAL), None)
  {
    RenewalReachesInstall(9);
    var script := RenewalDyingAt(9).script;
    assert script(6) == Done && script(7) == Done && script(8) == Done && script(9) == Crashes;
  }

  /** A renewal that lives long enough performs its first six operations as checks and then installs. */
  lemma RenewalReachesInstall(n: nat)
    requires n >= 6
    ensures var settled, run := Files(Some(EXPIRED), Some(1), None, None), RenewalDyingAt(n);
            AfterRun(settled, run) == WritePair(World(settled, run.script, 6, true), RENEWAL).0.files
  {
    var settled, script := Files(Some(EXPIRED), Some(1), None, None), RenewalDyingAt(n).script;
    assert script(0) == Done && script(1) == Done && script(2) == Done;
    assert script(3) == Done && script(4) == Done && script(5) == Done;
    var w := World(settled, script, 0, true);
    assert Promote(w) == (World(settled, script, 1, true), false);
    assert Recover(w) == World(settled, script, 3, true);
    assert GeneratesIn(Recover(w), 0) == Some(World(settled, script, 6, true));
    DecideInstalls(Recover(w), 0, RENEWAL);
  }

  /** The damage is reachable: a renewal that dies between its two renames, then one rename that fails. */
  lemma StrandingExample()
    ensures var half := AfterRun(Files(Some(EXPIRED), Some(1), None, None), RenewalDyingAt(9));
            Strands(World(half, (i: nat) => if i == 5 then Fails else Done, 0, true))
  {
    RenewalHalfInstalled();
    var half := Files(Some(EXPIRED), Some(2), Some(RENEWAL), None);
    var script := (i: nat) => if i == 5 then Fails else Done;
    assert script(0) == Done && script(1) == Done && script(2) == Done && script(3) == Done;
    assert script(4) == Done && script(5) == Fails && script(6) == Done;
    assert Promote(World(half, script, 0, true)) == (World(half, script, 2, true), false);
  }

  // ---- the identity in force, when operations may fail ----

  /** The staged certificate is for another key than the live one. */
  predicate Apart(f: Files) {
    f.certNew.Some? && f.cert.Some? ==> f.certNew.value.key != f.cert.value.key
  }

  /** Both staged files are there and belong together. */
  predicate StagedPair(f: Files) {
    Loads(f.certNew, f.keyNew)
  }

  /**
    One of the two stats fails, so that a complete staged pair looks like an orphan; it matches nothing live,
    and one half of it is removed.
   */
  predicate DropsHalf(w: World) {
    && w.alive && StagedPair(w.files)
    && w.script(w.pc) != Crashes && w.script(w.pc + 1) != Crashes
    && (w.script(w.pc) == Done <==> w.script(w.pc + 1) == Fails)
    && w.script(w.pc + 2) != Crashes && w.script(w.pc + 3) == Done
  }

  /** Recovery gives up the identity in force. */
  predicate RecoveryGivesUp(w: World) {
    !Promote(w).1 && (DropsHalf(Promote(w).0) || DropsRepair(Promote(w).0))
  }

  lemma CleanupKeepsEffectiveIff(w: World)
    requires Recoverable(w.files) && Apart(w.files)
    ensures Effective(Cleanup(w).files) == Effective(w.files) <==> !(DropsHalf(w) || DropsRepair(w))
    ensures DropsHalf(w) || DropsRepair(w) ==> Effective(Cleanup(w).files) == w.files.cert
    ensures Apart(Cleanup(w).files) && Cleanup(w).script == w.script
  {
    CleanupOutcome(w);
  }

  lemma CleanupOutcome(w: World)
    requires Recoverable(w.files) && Apart(w.files)
    ensures DropsHalf(w) ==> Cleanup(w).files == w.files.(certNew := None) || Cleanup(w).files == w.files.(keyNew := None)
    ensures DropsRepair(w) ==> Cleanup(w).files == w.files.(certNew := None)
    ensures Cleanup(w).script == w.script
  {
  }

  lemma PromoteMoves(w: World)
    requires Recoverable(w.files) && Apart(w.files)
    ensures var (w1, ok) := Promote(w);
            && Effective(w1.files) == Effective(w.files) && Recoverable(w1.files) && Apart(w1.files)
            && w1.script == w.script && (ok ==> !StagedPair(w1.files) && Settled(w1.files))
  {
  }

  /** Recovery keeps the identity in force if and only if it does not take a staged pair, or its second half, for rubbish. */
  lemma RecoverKeepsEffectiveIff(w: World)
    requires Recoverable(w.files) && Apart(w.files)
    ensures Effective(Recover(w).files) == Effective(w.files) <==> !RecoveryGivesUp(w)
    ensures RecoveryGivesUp(w) ==> Effective(Recover(w).files) == Promote(w).0.files.cert
    ensures Apart(Recover(w).files)
  {
    PromoteMoves(w);
    CleanupKeepsEffectiveIff(Promote(w).0);
  }

  /** The world in which a start that gets past its checks begins to generate. */
  function GeneratesIn(w: World, now: Time): Option<World> {
    var (w1, certStat) := Look(w);
    var (w2, keyStat) := Look(w1);
    if !certStat || !keyStat then None
    else if w.files.cert.None? && w.files.key.None? then Some(w2)
    else
      var (w3, read) := Look(w2);
      if read && Loads(w.files.cert, w.files.key) && now >= w.files.cert.value.notAfter - RENEW_BEFORE then Some(w3) else None
  }

  /** The install gets as far as staging both files and does not take them back. */
  predicate Mints(w: World) {
    && w.script(w.pc) == Done && w.script(w.pc + 1) == Done
    && !(&& w.script(w.pc + 2) == Fails
         && (w.script(w.pc + 3) == Done || (w.script(w.pc + 3) == Fails && w.script(w.pc + 4) == Done)))
  }

  lemma WritePairMintsIff(w: World, mint: Cert)
    requires w.alive && Settled(w.files) && Apart(w.files) && Fresh(mint, w.files)
    ensures var after := Effective(WritePair(w, mint).0.files);
            && (after == Some(mint) <==> Mints(w))
            && (!Mints(w) ==> after == if w.script(w.pc) == Done then w.files.cert else Effective(w.files))
    ensures Apart(WritePair(w, mint).0.files)
  {
  }

  /** A staged pair that recovery left in place is written over by a new one. */
  predicate WritesOver(w: World, now: Time) {
    StagedPair(w.files) && GeneratesIn(w, now).Some? && GeneratesIn(w, now).value.script(GeneratesIn(w, now).value.pc) == Done
  }

  lemma DecideInstalls(w: World, now: Time, mint: Cert)
    requires GeneratesIn(w, now).Some?
    ensures var g := GeneratesIn(w, now).value;
            && g.alive && g.files == w.files && g.script == w.script
            && Decide(w, now, mint).0 == WritePair(g, mint).0
            && (w.files.cert.None? || now >= w.files.cert.value.notAfter - RENEW_BEFORE)
            && (Recoverable(w.files) && Apart(w.files) ==> Settled(w.files) && !HalfInstalled(w.files))
  {
  }

  /** Without generating, deciding moves no identity: at most it finishes a staged install. */
  lemma DecideOtherwiseKeeps(w: World, now: Time, mint: Cert)
    requires GeneratesIn(w, now).None? && (Stranded(w.files) || Recoverable(w.files)) && Apart(w.files)
    ensures Effective(Decide(w, now, mint).0.files) == Effective(w.files) && Apart(Decide(w, now, mint).0.files)
  {
    if Stranded(w.files) {
      StrandedDecides(w, now, mint);
    } else {
      PromoteMoves(Look(Look(Look(w).0).0).0);
    }
  }

  lemma DecideMovesIff(w: World, now: Time, mint: Cert)
    requires (Stranded(w.files) || Recoverable(w.files)) && Apart(w.files) && Fresh(mint, w.files)
    ensures var before, after, g := Effective(w.files), Effective(Decide(w, now, mint).0.files), GeneratesIn(w, now);
            && (after == Some(mint) <==> g.Some? && Mints(g.value))
            && (after != Some(mint) ==> after == if WritesOver(w, now) then w.files.cert else before)
            && (after == Some(mint) && !WritesOver(w, now) ==> Warranted(before, now))
    ensures Apart(Decide(w, now, mint).0.files)
  {
    if GeneratesIn(w, now).Some? {
      DecideInstalls(w, now, mint);
      if Stranded(w.files) {
        StrandedDecides(w, now, mint);
        StrandedNeverGenerates(w, now);
      } else {
        WritePairMintsIff(GeneratesIn(w, now).value, mint);
      }
    } else {
      DecideOtherwiseKeeps(w, now, mint);
      FreshIsNotInForce(w.files, mint);
    }
  }

  lemma StrandedNeverGenerates(w: World, now: Time)
    requires Stranded(w.files)
    ensures GeneratesIn(w, now).None?
  {
  }

  lemma FreshIsNotInForce(f: Files, mint: Cert)
    requires Fresh(mint, f)
    ensures Effective(f) != Some(mint)
  {
  }

  /** A start gives up the identity in force: recovery drops it, or a new install writes over it. */
  predicate GivesUp(w: World, now: Time) {
    RecoveryGivesUp(w) || WritesOver(Recover(w), now)
  }

  /** A start puts the minted identity in force. */
  predicate PutsInForce(w: World, now: Time) {
    var g := GeneratesIn(Recover(w), now);
    g.Some? && Mints(g.value)
  }

  /**
    A start whose operations may fail as well as be cut short: the identity in force stays, or is replaced with
    cause, if and only if the start does not give it up, or had cause to replace it and put the new one in force.
   */
  lemma EnsureKeepsIdentityIff(w: World, now: Time, mint: Cert)
    requires Recoverable(w.files) && Apart(w.files) && Fresh(mint, w.files)
    ensures var before, after := Effective(w.files), Effective(Ensure(w, now, mint).0.files);
            && (after == before || (after == Some(mint) && Warranted(before, now))
                <==> !GivesUp(w, now) || (PutsInForce(w, now) && Warranted(before, now)))
            && (GivesUp(w, now) ==> after != before)
            && (after == Some(mint) <==> PutsInForce(w, now))
    ensures Apart(Ensure(w, now, mint).0.files)
  {
    RecoverKeepsEffectiveIff(w);
    RecoverKeepsFresh(w, mint);
    RecoverRecovers(w);
    DecideMovesIff(Recover(w), now, mint);
    FreshIsNotInForce(w.files, mint);
    GivenUpIsGone(w);
  }

  lemma RecoverRecovers(w: World)
    requires Recoverable(w.files)
    ensures Stranded(Recover(w).files) || Recoverable(Recover(w).files)
  {
    PromoteStaysRecoverable(w);
    CleanupStaysRecoverableIff(Promote(w).0);
  }

  /** What was in force is not the live certificate once it has been dropped, or while a staged pair is waiting. */
  lemma GivenUpIsGone(w: World)
    requires Recoverable(w.files) && Apart(w.files)
    ensures RecoveryGivesUp(w) ==> Recover(w).files.cert != Effective(w.files) && !StagedPair(Recover(w).files)
    ensures StagedPair(Recover(w).files) ==> Recover(w).files.cert != Effective(w.files)
  {
    PromoteMoves(w);
    RecoverKeepsEffectiveIff(w);
    if RecoveryGivesUp(w) {
      CleanupOutcome(Promote(w).0);
    }
  }

  /** A renewal that dies before its first rename leaves a complete staged pair. */
  lemma RenewalStaged()
    ensures AfterRun(Files(Some(EXPIRED), Some(1), None, None), RenewalDyingAt(8))
         == Files(Some(EXPIRED), Some(1), Some(RENEWAL), Some(2))
  {
    RenewalReachesInstall(8);
    var script := RenewalDyingAt(8).script;
    assert script(6) == Done && script(7) == Done && script(8) == Crashes;
  }

  /**
    Giving up does not take a stranded directory: after a renewal that died fully staged, a start in which the
    stat of the staged key fails twice removes the staged certificate, and the expired identity is in force again.
   */
  lemma DroppedPairExample()
    ensures var staged := AfterRun(Files(Some(EXPIRED), Some(1), None, None), RenewalDyingAt(8));
            var w := World(staged, (i: nat) => if i == 1 || i == 3 then Fails else Done, 0, true);
            && Recoverable(staged) && Apart(staged) && Effective(staged) == Some(RENEWAL)
            && !Strands(w) && RecoveryGivesUp(w) && Effective(Recover(w).files) == Some(EXPIRED)
  {
    RenewalStaged();
    var staged := Files(Some(EXPIRED), Some(1), Some(RENEWAL), Some(2));
    var script := (i: nat) => if i == 1 || i == 3 then Fails else Done;
    assert script(0) == Done && script(1) == Fails && script(2) == Done && script(3) == Fails;
    assert script(4) == Done && script(5) == Done;
    assert Promote(World(staged, script, 0, true)) == (World(staged, script, 2, true), false);
    RecoverKeepsEffectiveIff(World(staged, script, 0, true));
  }

  /** A start that is only ever cut short gives nothing up. */
  lemma CrashesNeverGiveUp(w: World, now: Time)
    requires CrashesOnly(w.script) && Recoverable(w.files)
    ensures !GivesUp(w, now)
  {
    PromoteKeepsEffective(w);
    RecoverKeepsEffective(w);
    var p := Promote(w).0;
    assert p.script(p.pc) != Fails && p.script(p.pc + 1) != Fails && p.script(p.pc + 2) != Fails && p.script(p.pc + 3) != Fails;
    if Recover(w).alive {
      RecoveredIsNotStaged(w);
    } else {
      DeadGeneratesNothing(Recover(w), now);
    }
  }

  lemma RecoveredIsNotStaged(w: World)
    requires CrashesOnly(w.script) && Recoverable(w.files) && Recover(w).alive
    ensures !StagedPair(Recover(w).files)
  {
    assert w.script(w.pc) != Fails && w.script(w.pc + 1) != Fails && w.script(w.pc + 2) != Fails;
    assert w.script(w.pc + 3) != Fails && w.script(w.pc + 4) != Fails;
    PromoteKeepsEffective(w);
    if !Promote(w).1 {
      CleanupStagesNothing(Promote(w).0);
    }
  }

  lemma CleanupStagesNothing(w: World)
    requires !StagedPair(w.files)
    ensures !StagedPair(Cleanup(w).files)
  {
  }

  lemma DeadGeneratesNothing(w: World, now: Time)
    requires !w.alive
    ensures GeneratesIn(w, now).None?
  {
  }

  /** Every run mints a key that no file holds at its start, and gives up no identity in force. */
  ghost predicate CarefulHistory(f: Files, runs: seq<Run>) {
    runs != [] ==>
      var k := |runs| - 1;
      && CarefulHistory(f, runs[..k]) && Fresh(runs[k].mint, AfterRuns(f, runs[..k]))
      && !GivesUp(World(AfterRuns(f, runs[..k]), runs[k].script, 0, true), runs[k].now)
  }

  /**
    Over any number of runs whose operations may fail and which may die anywhere, as long as none of them gives
    up the identity in force: it is the first one, or was minted by a run that had cause to replace it.
   */
  lemma {:induction false} FailingHistory(f: Files, runs: seq<Run>)
    requires Recoverable(f) && Apart(f) && CarefulHistory(f, runs)
    ensures Recoverable(AfterRuns(f, runs)) && Apart(AfterRuns(f, runs))
    ensures var e := Effective(AfterRuns(f, runs));
            e == Effective(f) || exists k :: 0 <= k < |runs| && ReplacedBy(f, runs, k, e)
  {
    if runs != [] {
      var n := |runs| - 1;
      var before := AfterRuns(f, runs[..n]);
      var w := World(before, runs[n].script, 0, true);
      FailingHistory(f, runs[..n]);
      EnsureKeepsIdentityIff(w, runs[n].now, runs[n].mint);
      EnsureStaysRecoverableIff(w, runs[n].now, runs[n].mint);
      var e := Effective(AfterRuns(f, runs));
      if e != Effective(before) {
        assert ReplacedBy(f, runs, n, e);
      } else if e != Effective(f) {
        var k :| 0 <= k < n && ReplacedBy(f, runs[..n], k, e);
        assert runs[..n][..k] == runs[..k];
        assert ReplacedBy(f, runs, k, e);
      }
    }
  }
}
