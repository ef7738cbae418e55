/**
  The stop-when-idle latch of internal/provider/prewarm.go together with the session manager that feeds it.
  The controller's mutex orders its own operations but not the opening and closing of sessions, so reading
  the number of live sessions and acting on it are separate steps that sessions may come between.
 */
module Prewarm {
  import opened Common

  type Provider = string

  /** Who holds the controller's mutex, and the live count it has read. */
  datatype Mutex = Free | TurningOff(id: Provider, read: nat) | Idling(id: Provider, read: nat)

  /**
    `closing` counts sessions already removed whose closer has not yet looked at the live count;
    `notified` counts calls of OnIdle not yet begun; `stops` lists the stops issued, with the count read.
   */
  datatype State = State(
    latched: set<Provider>,
    live: map<Provider, nat>,
    closing: map<Provider, nat>,
    notified: map<Provider, nat>,
    mutex: Mutex,
    stops: seq<(Provider, nat)>
  )

  const INITIAL := State({}, map[], map[], map[], Free, [])

  datatype Step =
    | OpenSession(id: Provider)
    | CloseSession(id: Provider)   // the manager drops the session from its table
    | CheckIdle(id: Provider)      // its closer reads the live count and calls the hook if it is zero
    | SetOn(id: Provider)
    | SetOff(id: Provider)         // takes the mutex and reads the live count
    | SetOffActs
    | OnIdle(id: Provider)         // takes the mutex, looks at the latch and reads the live count
    | OnIdleActs

  function Count(m: map<Provider, nat>, id: Provider): nat {
    if id in m then m[id] else 0
  }

  predicate Enabled(s: State, step: Step) {
    match step
    case OpenSession(_) => true
    case CloseSession(id) => Count(s.live, id) > 0
    case CheckIdle(id) => Count(s.closing, id) > 0
    case SetOn(_) => s.mutex.Free?
    case SetOff(_) => s.mutex.Free?
    case SetOffActs => s.mutex.TurningOff?
    case OnIdle(id) => s.mutex.Free? && Count(s.notified, id) > 0
    case OnIdleActs => s.mutex.Idling?
  }

  function Stop(s: State, id: Provider, read: nat): State {
    s.(latched := s.latched - {id}, mutex := Free, stops := s.stops + [(id, read)])
  }

  function Next(s: State, step: Step): State
    requires Enabled(s, step)
  {
    match step
    case OpenSession(id) => s.(live := s.live[id := Count(s.live, id) + 1])
    case CloseSession(id) =>
      s.(live := s.live[id := Count(s.live, id) - 1], closing := s.closing[id := Count(s.closing, id) + 1])
    case CheckIdle(id) =>
      var s1 := s.(closing := s.closing[id := Count(s.closing, id) - 1]);
      if Count(s.live, id) == 0 then s1.(notified := s.notified[id := Count(s.notified, id) + 1]) else s1
    case SetOn(id) => s.(latched := s.latched - {id})
    case SetOff(id) => s.(mutex := TurningOff(id, Count(s.live, id)))
    case SetOffActs =>
      if s.mutex.read > 0 then s.(latched := s.latched + {s.mutex.id}, mutex := Free)
      else Stop(s, s.mutex.id, s.mutex.read)
    case OnIdle(id) =>
      var s1 := s.(notified := s.notified[id := Count(s.notified, id) - 1]);
      if id !in s.latched then s1 else s1.(mutex := Idling(id, Count(s.live, id)))
    case OnIdleActs =>
      if s.mutex.read > 0 then s.(mutex := Free) else Stop(s, s.mutex.id, s.mutex.read)
  }

  /** A step that is not enabled when its turn comes does nothing. */
  function Try(s: State, step: Step): State {
    if Enabled(s, step) then Next(s, step) else s
  }

  /** Any interleaving. */
  function Run(s: State, steps: seq<Step>): State {
    Fold(Try, s, steps)
  }

  /** Somebody is still on the way to look at this provider. */
  predicate Coming(s: State, id: Provider) {
    Count(s.closing, id) > 0 || Count(s.notified, id) > 0
  }

  /** A wakeup for this provider is pending, or being acted on. */
  predicate WakeupPending(s: State, id: Provider) {
    Coming(s, id) || s.mutex == Idling(id, 0)
  }

  predicate Inv(s: State) {
    && (forall id :: id in s.latched && Count(s.live, id) == 0 ==> WakeupPending(s, id))
    && (s.mutex.TurningOff? && s.mutex.read > 0 && Count(s.live, s.mutex.id) == 0 ==> Coming(s, s.mutex.id))
    && (forall i :: 0 <= i < |s.stops| ==> s.stops[i].1 == 0)
  }

  lemma StepKeepsInv(s: State, step: Step)
    requires Inv(s) && Enabled(s, step)
    ensures Inv(Next(s, step))
  {
  }

  /**
    No wakeup is lost: over every interleaving of sessions with Set and OnIdle, a provider that is latched and
    has no live session has a wakeup pending, and every stop was issued on a live count read as zero under the mutex.
   */
  lemma {:induction false} NoLostWakeup(steps: seq<Step>)
    ensures var s := Run(INITIAL, steps);
            && Inv(s)
            && (forall id :: id in s.latched && Count(s.live, id) == 0 ==> WakeupPending(s, id))
            && (forall i :: 0 <= i < |s.stops| ==> s.stops[i].1 == 0)
  {
    if steps != [] {
      NoLostWakeup(steps[..|steps| - 1]);
      var m := Run(INITIAL, steps[..|steps| - 1]);
      if Enabled(m, steps[|steps| - 1]) {
        StepKeepsInv(m, steps[|steps| - 1]);
      }
    }
  }

  /** The pending steps that answer a latch: look, if nobody has yet, then take the mutex and act. */
  function Answer(s: State, id: Provider): seq<Step> {
    (if Count(s.notified, id) == 0 then [CheckIdle(id)] else []) + [OnIdle(id), OnIdleActs]
  }

  /**
    The latch is honoured: from every reachable state with the mutex free, a provider that is latched and idle is
    stopped and unlatched by steps that are already pending, with no new session, setting or notification needed.
   */
  lemma LatchIsHonoured(steps: seq<Step>, id: Provider)
    ensures var s := Run(INITIAL, steps);
            (s.mutex.Free? && id in s.latched && Count(s.live, id) == 0) ==>
              var r := Run(s, Answer(s, id));
              id !in r.latched && r.stops == s.stops + [(id, 0)]
  {
    NoLostWakeup(steps);
    var s := Run(INITIAL, steps);
    if s.mutex.Free? && id in s.latched && Count(s.live, id) == 0 {
      var s1 := if Count(s.notified, id) == 0 then Next(s, CheckIdle(id)) else s;
      assert Count(s1.notified, id) > 0 && s1.mutex.Free? && s1.latched == s.latched && s1.live == s.live && s1.stops == s.stops;
      FoldTwo(Try, s1, OnIdle(id), OnIdleActs);
      if Count(s.notified, id) == 0 {
        FoldThree(Try, s, CheckIdle(id), OnIdle(id), OnIdleActs);
        assert Answer(s, id) == [CheckIdle(id), OnIdle(id), OnIdleActs];
      } else {
        assert Answer(s, id) == [OnIdle(id), OnIdleActs];
      }
    }
  }

  /** Turning a provider on cancels its latch, and only turning it off again can set one. */
  lemma LatchedOnlyByTurningOff(s: State, step: Step, id: Provider)
    requires Enabled(s, step) && id !in s.latched && id in Next(s, step).latched
    ensures step.SetOffActs? && s.mutex == TurningOff(id, s.mutex.read) && s.mutex.read > 0
  {
  }

  // ---- turned on ----

  /** Nobody holds anything against this provider. */
  predicate Wanted(s: State, id: Provider) {
    id !in s.latched && s.mutex != TurningOff(id, Held(s)) && s.mutex != Idling(id, Held(s))
  }

  function Held(s: State): nat {
    if s.mutex.Free? then 0 else s.mutex.read
  }

  lemma WantedStep(s: State, step: Step, id: Provider)
    requires Wanted(s, id) && Enabled(s, step) && step != SetOff(id)
    ensures Wanted(Next(s, step), id) && s.stops <= Next(s, step).stops
    ensures forall i :: |s.stops| <= i < |Next(s, step).stops| ==> Next(s, step).stops[i].0 != id
  {
  }

  /** A provider that was turned on is not stopped: no stop of it is issued until somebody turns it off again. */
  lemma {:induction false} TurnedOnIsNotStopped(steps: seq<Step>, k: nat, id: Provider)
    requires k < |steps| && steps[k] == SetOn(id) && Enabled(Run(INITIAL, steps[..k]), steps[k])
    requires forall i :: k < i < |steps| ==> steps[i] != SetOff(id)
    ensures var s, r := Run(INITIAL, steps[..k]), Run(INITIAL, steps);
            && Wanted(r, id) && s.stops <= r.stops
            && forall i :: |s.stops| <= i < |r.stops| ==> r.stops[i].0 != id
  {
    var n := |steps| - 1;
    if k < n {
      assert steps[..n][..k] == steps[..k];
      TurnedOnIsNotStopped(steps[..n], k, id);
      var m := Run(INITIAL, steps[..n]);
      if Enabled(m, steps[n]) {
        WantedStep(m, steps[n], id);
      }
    }
  }

  // ---- the controller as an object ----

  datatype Reply = Running | Stopped | StoppingWhenIdle | UnknownProvider | NotPersisted | NotStartable

  datatype Command = StartEngine(id: Provider) | StopEngine(id: Provider)

  /** The session manager's table, which the controller reads while it holds its mutex. */
  class Sessions {
    var live: map<Provider, nat>

    constructor ()
      ensures live == map[]
    {
      live := map[];
    }

    method LiveCountFor(id: Provider) returns (n: nat)
      ensures n == Count(live, id)
    {
      n := if id in live then live[id] else 0;
    }
  }

  /** Turning a provider off without an interruption. */
  function Off(s: State, id: Provider): State
    requires s.mutex.Free?
  {
    Next(Next(s, SetOff(id)), SetOffActs)
  }

  /** A wakeup answered without an interruption. */
  function Answered(s: State, id: Provider): State
    requires s.mutex.Free? && Count(s.notified, id) > 0
  {
    var s1 := Next(s, OnIdle(id));
    if s1.mutex.Idling? then Next(s1, OnIdleActs) else s1
  }

  lemma OffAtOnce(s: State, id: Provider)
    requires s.mutex.Free?
    ensures Off(s, id) == if Count(s.live, id) > 0 then s.(latched := s.latched + {id}) else Stop(s, id, 0)
    ensures Inv(s) ==> Inv(Off(s, id))
  {
    if Inv(s) {
      StepKeepsInv(s, SetOff(id));
      StepKeepsInv(Next(s, SetOff(id)), SetOffActs);
    }
  }

  lemma OnAtOnce(s: State, id: Provider)
    requires s.mutex.Free?
    ensures Next(s, SetOn(id)) == s.(latched := s.latched - {id})
    ensures Inv(s) ==> Inv(Next(s, SetOn(id)))
  {
    if Inv(s) {
      StepKeepsInv(s, SetOn(id));
    }
  }

  lemma AnsweredAtOnce(s: State, id: Provider)
    requires s.mutex.Free? && Count(s.notified, id) > 0
    ensures var s1 := s.(notified := s.notified[id := Count(s.notified, id) - 1]);
            Answered(s, id) == if id in s.latched && Count(s.live, id) == 0 then Stop(s1, id, 0) else s1
    ensures Inv(s) ==> Inv(Answered(s, id))
  {
    if Inv(s) {
      StepKeepsInv(s, OnIdle(id));
      if Next(s, OnIdle(id)).mutex.Idling? {
        StepKeepsInv(Next(s, OnIdle(id)), OnIdleActs);
      }
    }
  }

  /** The stops among the orders given; each was given on a live count of zero. */
  function Stops(issued: seq<Command>): seq<(Provider, nat)> {
    if issued == [] then []
    else
      var last := issued[|issued| - 1];
      Stops(issued[..|issued| - 1]) + if last.StopEngine? then [(last.id, 0)] else []
  }

  lemma StopsAppend(issued: seq<Command>, c: Command)
    ensures Stops(issued + [c]) == Stops(issued) + if c.StopEngine? then [(c.id, 0)] else []
  {
    assert (issued + [c])[..|issued|] == issued;
  }

  class Controller {
    const sessions: Sessions
    var stopWhenIdle: map<Provider, bool>
    /** The orders given to the engines, in order. */
    var issued: seq<Command>

    ghost function Latch(): set<Provider>
      reads this
    {
      set id | id in stopWhenIdle && stopWhenIdle[id]
    }

    /** The state of the whole system between two operations; `rest` supplies the wakeups on their way. */
    ghost function View(rest: State): State
      reads this, sessions
    {
      State(Latch(), sessions.live, rest.closing, rest.notified, Free, Stops(issued))
    }

    constructor (sessions: Sessions)
      ensures this.sessions == sessions && Latch() == {} && issued == []
    {
      this.sessions := sessions;
      stopWhenIdle, issued := map[], [];
    }

    method Unlatch(id: Provider)
      modifies this`stopWhenIdle
      ensures Latch() == old(Latch()) - {id}
    {
      stopWhenIdle := stopWhenIdle - {id};
    }

    method StopLater(id: Provider)
      modifies this`stopWhenIdle
      ensures Latch() == old(Latch()) + {id}
    {
      stopWhenIdle := stopWhenIdle[id := true];
    }

    method Order(c: Command)
      modifies this`issued
      ensures issued == old(issued) + [c]
      ensures Stops(issued) == Stops(old(issued)) + if c.StopEngine? then [(c.id, 0)] else []
    {
      StopsAppend(issued, c);
      issued := issued + [c];
    }

    /**
      `known` and `persisted` are what the configuration answers, `startable` what the registry answers. A Set that
      takes effect is the corresponding steps of the transition system, taken without an interruption.
     */
    method Set(id: Provider, on: bool, known: bool, persisted: bool, startable: bool, ghost rest: State) returns (r: Reply)
      modifies this
      ensures !known || !persisted ==>
                View(rest) == old(View(rest)) && issued == old(issued) && r == if !known then UnknownProvider else NotPersisted
      ensures known && persisted && on ==>
                && View(rest) == Next(old(View(rest)), SetOn(id))
                && issued == old(issued) + (if startable then [StartEngine(id)] else [])
                && r == if startable then Running else NotStartable
      ensures known && persisted && !on ==>
                && View(rest) == Off(old(View(rest)), id)
                && issued == old(issued) + (if Count(sessions.live, id) == 0 then [StopEngine(id)] else [])
                && r == if id in Latch() then StoppingWhenIdle else Stopped
      ensures Inv(old(View(rest))) ==> Inv(View(rest))
    {
      if !known { return UnknownProvider; }
      if !persisted { return NotPersisted; }
      if on {
        r := TurnOn(id, startable, rest);
      } else {
        r := TurnOff(id, rest);
      }
    }

    method TurnOn(id: Provider, startable: bool, ghost rest: State) returns (r: Reply)
      modifies this
      ensures View(rest) == Next(old(View(rest)), SetOn(id))
      ensures issued == old(issued) + (if startable then [StartEngine(id)] else [])
      ensures r == if startable then Running else NotStartable
      ensures Inv(old(View(rest))) ==> Inv(View(rest))
    {
      OnAtOnce(View(rest), id);
      Unlatch(id);
      if !startable { return NotStartable; }
      Order(StartEngine(id));
      return Running;
    }

    method TurnOff(id: Provider, ghost rest: State) returns (r: Reply)
      modifies this
      ensures View(rest) == Off(old(View(rest)), id)
      ensures issued == old(issued) + (if Count(sessions.live, id) == 0 then [StopEngine(id)] else [])
      ensures r == if id in Latch() then StoppingWhenIdle else Stopped
      ensures Inv(old(View(rest))) ==> Inv(View(rest))
    {
      OffAtOnce(View(rest), id);
      var liveCount := sessions.LiveCountFor(id);
      if liveCount > 0 {
        StopLater(id);
        return StoppingWhenIdle;
      }
      Unlatch(id);
      Order(StopEngine(id));
      return Stopped;
    }

    /** OnIdle. When a closer that read zero live sessions calls it, it answers that closer's wakeup. */
    method HonourLatch(id: Provider, ghost rest: State)
      modifies this
      ensures var stopping := id in old(Latch()) && Count(sessions.live, id) == 0;
              && Latch() == (if stopping then old(Latch()) - {id} else old(Latch()))
              && issued == old(issued) + (if stopping then [StopEngine(id)] else [])
      ensures Count(rest.notified, id) > 0 ==>
                var s := Answered(old(View(rest)), id); View(s) == s && (Inv(old(View(rest))) ==> Inv(s))
    {
      if Count(rest.notified, id) > 0 {
        AnsweredAtOnce(View(rest), id);
      }
      if id !in stopWhenIdle || !stopWhenIdle[id] { return; }
      var liveCount := sessions.LiveCountFor(id);
      if liveCount > 0 { return; }
      Unlatch(id);
      Order(StopEngine(id));
    }
  }
}
