/**
  The timed cross-process lock of internal/fsutil/lock_unix.go. Every Acquire starts a goroutine that
  blocks in flock and reports into a channel of capacity one; the caller waits for that report or for a
  timer, and on a timeout leaves a second goroutine behind to clean up.
 */
module FileLock {
  import opened Common

  /** What the flock goroutine of a request has done. */
  datatype Flock = Blocked | Granted | Errored

  /** What the caller of Acquire has been told. */
  datatype Caller = Selecting | Holding | Released | Failed | TimedOut

  /** The goroutine left behind by a timeout: not started, waiting for the report, about to unlock, finished. */
  datatype Cleanup = NoCleanup | Receiving | Unlocking | Finished

  /** One Acquire; `report` is the channel's content. */
  datatype Request = Request(flock: Flock, report: bool, caller: Caller, cleanup: Cleanup, open: bool)

  /** `owner` is the request whose open file the kernel has given the lock to. */
  datatype State = State(owner: int, requests: seq<Request>)

  const NOBODY := -1

  const INITIAL := State(NOBODY, [])

  datatype Step =
    | Begin                      // Acquire opens the lock file and starts its goroutine and timer
    | Grant(r: nat)              // the kernel grants the lock and the goroutine reports success
    | Break(r: nat)              // flock returns an error and the goroutine reports it
    | Receive(r: nat)            // the caller's select takes the report
    | Expire(r: nat)             // the caller's select takes the timer, whether or not a report is waiting
    | Release(r: nat)            // the caller calls the release function it was given
    | Collect(r: nat)            // the cleanup goroutine takes the report
    | Unlock(r: nat)             // the cleanup goroutine unlocks and closes

  predicate Enabled(s: State, step: Step) {
    match step
    case Begin => true
    case Grant(r) => r < |s.requests| && s.requests[r].flock.Blocked? && s.owner == NOBODY
    case Break(r) => r < |s.requests| && s.requests[r].flock.Blocked?
    case Receive(r) => r < |s.requests| && s.requests[r].caller.Selecting? && s.requests[r].report
    case Expire(r) => r < |s.requests| && s.requests[r].caller.Selecting?
    case Release(r) => r < |s.requests| && s.requests[r].caller.Holding?
    case Collect(r) => r < |s.requests| && s.requests[r].cleanup.Receiving? && s.requests[r].report
    case Unlock(r) => r < |s.requests| && s.requests[r].cleanup.Unlocking?
  }

  function Set(s: State, r: nat, q: Request): State
    requires r < |s.requests|
  {
    s.(requests := s.requests[r := q])
  }

  /** Unlocking or closing gives up the lock if this request's open file has it. */
  function GiveUp(s: State, r: nat): State {
    if s.owner == r then s.(owner := NOBODY) else s
  }

  function Next(s: State, step: Step): State
    requires Enabled(s, step)
  {
    match step
    case Begin => s.(requests := s.requests + [Request(Blocked, false, Selecting, NoCleanup, true)])
    case Grant(r) => Set(s, r, s.requests[r].(flock := Granted, report := true)).(owner := r)
    case Break(r) => Set(s, r, s.requests[r].(flock := Errored, report := true))
    case Receive(r) =>
      var q := s.requests[r].(report := false);
      if q.flock.Granted? then Set(s, r, q.(caller := Holding))
      else GiveUp(Set(s, r, q.(caller := Failed, open := false)), r)
    case Expire(r) => Set(s, r, s.requests[r].(caller := TimedOut, cleanup := Receiving))
    case Release(r) => GiveUp(Set(s, r, s.requests[r].(caller := Released, open := false)), r)
    case Collect(r) =>
      var q := s.requests[r].(report := false);
      if q.flock.Granted? then Set(s, r, q.(cleanup := Unlocking))
      else GiveUp(Set(s, r, q.(cleanup := Finished, open := false)), r)
    case Unlock(r) => GiveUp(Set(s, r, s.requests[r].(cleanup := Finished, open := false)), r)
  }

  /** A step that is not enabled when its turn comes does nothing. */
  function Try(s: State, step: Step): State {
    if Enabled(s, step) then Next(s, step) else s
  }

  /** Any interleaving. */
  function Run(s: State, steps: seq<Step>): State {
    Fold(Try, s, steps)
  }

  // ---- ownership ----

  /** The lock is in the hands of the caller, which was given the release function. */
  predicate HeldByCaller(q: Request) {
    q.caller.Holding?
  }

  /** The lock waits in the channel for a caller that has not given up. */
  predicate OnOffer(q: Request) {
    q.flock.Granted? && q.report && q.caller.Selecting?
  }

  /** The caller gave up, and the goroutine it left behind still has to release. */
  predicate OwedToCleanup(q: Request) {
    q.flock.Granted? && q.caller.TimedOut? && ((q.cleanup.Receiving? && q.report) || q.cleanup.Unlocking?)
  }

  predicate Accounted(q: Request) {
    HeldByCaller(q) || OnOffer(q) || OwedToCleanup(q)
  }

  /** How the parts of one request fit together. */
  predicate Consistent(q: Request) {
    && (q.flock.Blocked? ==> !q.report)
    && (q.caller.TimedOut? <==> !q.cleanup.NoCleanup?)
    && (q.caller.Selecting? || q.cleanup.Receiving? ==> (q.report <==> !q.flock.Blocked?))
    && (q.flock.Blocked? ==> q.caller.Selecting? || q.cleanup.Receiving?)
    && (q.caller.Holding? || q.caller.Released? || q.cleanup.Unlocking? ==> q.flock.Granted? && !q.report)
    && (q.caller.Failed? ==> q.flock.Errored? && !q.report)
    && (q.cleanup.Finished? ==> !q.report)
    && (q.open <==> q.caller.Selecting? || q.caller.Holding? || q.cleanup.Receiving? || q.cleanup.Unlocking?)
  }

  predicate Inv(s: State) {
    && -1 <= s.owner < |s.requests|
    && (forall r :: 0 <= r < |s.requests| ==> Consistent(s.requests[r]))
    && (forall r :: 0 <= r < |s.requests| ==> (s.owner == r <==> Accounted(s.requests[r])))
  }

  lemma StepKeepsInv(s: State, step: Step)
    requires Inv(s) && Enabled(s, step)
    ensures Inv(Next(s, step))
  {
    var n := Next(s, step);
    if !step.Begin? {
      assert forall q :: 0 <= q < |s.requests| && q != step.r ==> n.requests[q] == s.requests[q];
    }
  }

  lemma {:induction false} AlwaysInv(steps: seq<Step>)
    ensures Inv(Run(INITIAL, steps))
  {
    if steps != [] {
      AlwaysInv(steps[..|steps| - 1]);
      var m := Run(INITIAL, steps[..|steps| - 1]);
      if Enabled(m, steps[|steps| - 1]) {
        StepKeepsInv(m, steps[|steps| - 1]);
      }
    }
  }

  /** Mutual exclusion: over every interleaving at most one caller is between its Acquire and its release. */
  lemma AtMostOneHolder(steps: seq<Step>, r: nat, q: nat)
    ensures var s := Run(INITIAL, steps);
            (r < |s.requests| && q < |s.requests| && HeldByCaller(s.requests[r]) && HeldByCaller(s.requests[q])) ==> r == q
  {
    AlwaysInv(steps);
  }

  /**
    Every ownership is accounted for, and by exactly one party: the kernel lock belongs to a request if and only
    if its caller holds it, or it is on offer to a caller still waiting, or a cleanup still owes its release.
    A request that reported a timeout therefore owns the lock only while its cleanup is yet to give it up.
   */
  lemma OwnershipAccountedFor(steps: seq<Step>, r: nat)
    ensures var s := Run(INITIAL, steps);
            r < |s.requests| ==>
              var q := s.requests[r];
              && (s.owner == r <==> HeldByCaller(q) || OnOffer(q) || OwedToCleanup(q))
              && !(HeldByCaller(q) && OnOffer(q)) && !(HeldByCaller(q) && OwedToCleanup(q)) && !(OnOffer(q) && OwedToCleanup(q))
              && (q.caller.TimedOut? && s.owner == r ==> OwedToCleanup(q))
              && (!q.open ==> s.owner != r)
  {
    AlwaysInv(steps);
  }

  /**
    A timeout never leaks the lock: from every reachable state in which a timed-out request owns it, the steps of
    the goroutine it left behind are enabled without anybody else's help and end with the lock free and its file
    closed, even when the grant and the timer raced.
   */
  lemma TimeoutNeverLeaks(steps: seq<Step>, r: nat)
    ensures var s := Run(INITIAL, steps);
            (r < |s.requests| && s.requests[r].caller.TimedOut? && s.owner == r) ==>
              var collected := if s.requests[r].cleanup.Receiving? then Try(s, Collect(r)) else s;
              && Enabled(collected, Unlock(r))
              && Next(collected, Unlock(r)).owner == NOBODY
              && !Next(collected, Unlock(r)).requests[r].open
  {
    AlwaysInv(steps);
  }

  /** Whoever is told that the lock was acquired owns it from then until it releases it, whatever the others do. */
  lemma HolderKeepsLock(s: State, step: Step, r: nat)
    requires Inv(s) && Enabled(s, step) && r < |s.requests| && HeldByCaller(s.requests[r]) && step != Release(r)
    ensures Next(s, step).owner == r && HeldByCaller(Next(s, step).requests[r])
  {
    StepKeepsInv(s, step);
  }

  /** A free lock can be granted to any request still blocked on it, timed out or not. */
  lemma FreeLockIsGrantable(steps: seq<Step>, r: nat)
    ensures var s := Run(INITIAL, steps);
            (s.owner == NOBODY && r < |s.requests| && s.requests[r].flock.Blocked?) ==>
              Enabled(s, Grant(r)) && Accounted(Next(s, Grant(r)).requests[r])
  {
    AlwaysInv(steps);
    var s := Run(INITIAL, steps);
    if Enabled(s, Grant(r)) {
      StepKeepsInv(s, Grant(r));
    }
  }
}
