/**
  The single-flight catalog cache of internal/picker/cache.go. The critical sections are functions of the
  data the mutex guards; the goroutines around them are a transition system over those sections.
 */
module CatalogCache {
  import opened Common

  type Key = string
  type Time = int
  type CallId = nat
  type CallerId = nat

  /** A fetch yields a catalog, or an error; a panic is turned into an error. */
  datatype Outcome = Good(catalog: nat) | Bad(error: nat)

  datatype Entry = Entry(catalog: nat, expires: Time, gen: nat)

  /** What the mutex guards. */
  datatype Data = Data(ttl: Time, entries: map<Key, Entry>, inflight: map<Key, CallId>, gen: nat)

  datatype Lookup = Hit(catalog: nat) | Join(call: CallId) | Lead

  predicate Cached(d: Data, key: Key, now: Time) {
    key in d.entries && d.entries[key].gen == d.gen && now < d.entries[key].expires
  }

  /** The first critical section of Get. */
  function LookUp(d: Data, key: Key, now: Time): Lookup {
    if Cached(d, key, now) then Hit(d.entries[key].catalog)
    else if key in d.inflight then Join(d.inflight[key])
    else Lead
  }

  /** The deferred critical section of lead. */
  function Finish(d: Data, key: Key, gen: nat, call: CallId, out: Outcome, now: Time): Data {
    d.(inflight := if key in d.inflight && d.inflight[key] == call then d.inflight - {key} else d.inflight,
       entries := if out.Good? && gen == d.gen then d.entries[key := Entry(out.catalog, now + d.ttl, gen)] else d.entries)
  }

  function Invalidated(d: Data): Data {
    d.(gen := d.gen + 1, entries := map[])
  }

  // ---- the goroutines ----

  /** A leader fetches, publishes under the mutex, then closes the channel its waiters block on. */
  datatype Phase = Fetching | Fetched(out: Outcome) | Published(out: Outcome) | Closed(out: Outcome)

  /** `endGen` and `storedAt` are what the publishing section saw. */
  datatype Call = Call(key: Key, leader: CallerId, startGen: nat, phase: Phase, endGen: nat, storedAt: Time)

  datatype Caller =
    | Idle
    | Leading(call: CallId)
    | Waiting(call: CallId)
    | Returned(call: CallId, out: Outcome)
    | Served(catalog: nat)       // a cache hit
    | Cancelled

  /** `stored` remembers which call an entry came from; `calls` holds every call ever made. */
  datatype State = State(data: Data, calls: seq<Call>, callers: map<CallerId, Caller>, stored: map<Key, CallId>)

  datatype Step =
    | Get(t: CallerId, key: Key, now: Time)
    | FetchEnds(call: CallId, out: Outcome)
    | Publish(call: CallId, now: Time)
    | CloseDone(call: CallId)
    | Wake(t: CallerId)
    | Cancel(t: CallerId)
    | Invalidate

  function CallerOf(s: State, t: CallerId): Caller {
    if t in s.callers then s.callers[t] else Idle
  }

  predicate Busy(c: Caller) {
    c.Leading? || c.Waiting?
  }

  predicate Enabled(s: State, step: Step) {
    match step
    case Get(t, _, _) => !Busy(CallerOf(s, t))
    case FetchEnds(c, _) => c < |s.calls| && s.calls[c].phase.Fetching?
    case Publish(c, _) => c < |s.calls| && s.calls[c].phase.Fetched?
    case CloseDone(c) => c < |s.calls| && s.calls[c].phase.Published?
    case Wake(t) => Busy(CallerOf(s, t)) && CallerOf(s, t).call < |s.calls| && s.calls[CallerOf(s, t).call].phase.Closed?
    case Cancel(t) => CallerOf(s, t).Waiting?
    case Invalidate => true
  }

  function Next(s: State, step: Step): State
    requires Enabled(s, step)
  {
    match step
    case Get(t, key, now) =>
      (match LookUp(s.data, key, now)
       case Hit(catalog) => s.(callers := s.callers[t := Served(catalog)])
       case Join(c) => s.(callers := s.callers[t := Waiting(c)])
       case Lead =>
         var c := |s.calls|;
         s.(data := s.data.(inflight := s.data.inflight[key := c]),
            calls := s.calls + [Call(key, t, s.data.gen, Fetching, 0, 0)],
            callers := s.callers[t := Leading(c)]))
    case FetchEnds(c, out) => s.(calls := s.calls[c := s.calls[c].(phase := Fetched(out))])
    case Publish(c, now) =>
      var call := s.calls[c];
      var stores := call.phase.out.Good? && call.startGen == s.data.gen;
      State(
        Finish(s.data, call.key, call.startGen, c, call.phase.out, now),
        s.calls[c := call.(phase := Published(call.phase.out), endGen := s.data.gen, storedAt := now)],
        s.callers,
        if stores then s.stored[call.key := c] else s.stored)
    case CloseDone(c) => s.(calls := s.calls[c := s.calls[c].(phase := Closed(s.calls[c].phase.out))])
    case Wake(t) =>
      var c := CallerOf(s, t).call;
      s.(callers := s.callers[t := Returned(c, s.calls[c].phase.out)])
    case Cancel(t) => s.(callers := s.callers[t := Cancelled])
    case Invalidate => s.(data := Invalidated(s.data), stored := map[])
  }

  function Initial(ttl: Time): State {
    State(Data(ttl, map[], map[], 0), [], map[], map[])
  }

  /** A step that is not enabled when its turn comes does nothing. */
  function Try(s: State, step: Step): State {
    if Enabled(s, step) then Next(s, step) else s
  }

  /** Any interleaving. */
  function Run(s: State, steps: seq<Step>): State {
    Fold(Try, s, steps)
  }

  // ---- what every reachable state satisfies ----

  predicate Running(p: Phase) {
    p.Fetching? || p.Fetched?
  }

  /** The in-flight table lists exactly the calls whose fetch is not yet published. */
  predicate TableExact(s: State) {
    && (forall k :: k in s.data.inflight ==>
          s.data.inflight[k] < |s.calls| && s.calls[s.data.inflight[k]].key == k
          && Running(s.calls[s.data.inflight[k]].phase))
    && (forall c :: 0 <= c < |s.calls| && Running(s.calls[c].phase) ==>
          s.calls[c].key in s.data.inflight && s.data.inflight[s.calls[c].key] == c)
  }

  /** Every entry is the result of a successful fetch for its key, begun and ended in the current generation. */
  predicate EntriesFresh(s: State) {
    && s.data.entries.Keys == s.stored.Keys
    && (forall k :: k in s.stored ==> EntryFrom(s, k, s.stored[k]))
  }

  predicate EntryFrom(s: State, k: Key, c: CallId)
    requires k in s.data.entries
  {
    && c < |s.calls|
    && s.calls[c].key == k
    && (s.calls[c].phase.Published? || s.calls[c].phase.Closed?)
    && s.calls[c].phase.out == Good(s.data.entries[k].catalog)
    && s.calls[c].startGen == s.calls[c].endGen == s.data.gen == s.data.entries[k].gen
    && s.data.entries[k].expires == s.calls[c].storedAt + s.data.ttl
  }

  /** Callers point at real calls; a call that is not closed still has its leader. */
  predicate LeadersPresent(s: State) {
    && (forall t :: t in s.callers && Busy(s.callers[t]) ==> s.callers[t].call < |s.calls|)
    && (forall t :: t in s.callers && s.callers[t].Leading? ==> s.calls[s.callers[t].call].leader == t)
    && (forall c :: 0 <= c < |s.calls| && !s.calls[c].phase.Closed? ==> CallerOf(s, s.calls[c].leader) == Leading(c))
  }

  /** Whoever returned from a call returned that call's result. */
  predicate ResultsAgree(s: State) {
    forall t :: t in s.callers && s.callers[t].Returned? ==>
      s.callers[t].call < |s.calls| && s.calls[s.callers[t].call].phase == Closed(s.callers[t].out)
  }

  predicate Inv(s: State) {
    TableExact(s) && EntriesFresh(s) && LeadersPresent(s) && ResultsAgree(s)
  }

  lemma TableStep(s: State, step: Step)
    requires TableExact(s) && Enabled(s, step)
    ensures TableExact(Next(s, step))
  {
    match step {
      case Get(t, key, now) => TableLead(s, t, key, now);
      case Publish(c, now) => TablePublish(s, c, now);
      case _ =>
    }
  }

  lemma TableLead(s: State, t: CallerId, key: Key, now: Time)
    requires TableExact(s) && Enabled(s, Get(t, key, now))
    ensures TableExact(Next(s, Get(t, key, now)))
  {
    if LookUp(s.data, key, now).Lead? {
      var r := Next(s, Get(t, key, now));
      var c := |s.calls|;
      assert forall d :: 0 <= d < c ==> r.calls[d] == s.calls[d];
      assert r.calls[c].key == key && r.data.inflight[key] == c;
      assert forall k :: k in r.data.inflight && k != key ==> k in s.data.inflight;
    }
  }

  lemma TablePublish(s: State, c: CallId, now: Time)
    requires TableExact(s) && Enabled(s, Publish(c, now))
    ensures TableExact(Next(s, Publish(c, now)))
  {
    var r := Next(s, Publish(c, now));
    var key := s.calls[c].key;
    assert r.data.inflight == s.data.inflight - {key};
    assert forall d :: 0 <= d < |s.calls| && d != c ==> r.calls[d] == s.calls[d];
  }

  lemma EntriesStep(s: State, step: Step)
    requires Inv(s) && Enabled(s, step)
    ensures EntriesFresh(Next(s, step))
  {
    match step {
      case Publish(c, now) => EntriesPublish(s, c, now);
      case Invalidate =>
      case _ => EntriesStay(s, step);
    }
  }

  /** A step that touches neither the entries nor a finished call keeps every entry's origin. */
  lemma EntriesStay(s: State, step: Step)
    requires EntriesFresh(s) && Enabled(s, step) && !step.Publish? && !step.Invalidate?
    ensures EntriesFresh(Next(s, step))
  {
    var r := Next(s, step);
    assert r.stored == s.stored && r.data.entries == s.data.entries && r.data.gen == s.data.gen && r.data.ttl == s.data.ttl;
    forall k | k in r.stored ensures EntryFrom(r, k, r.stored[k]) {
      assert EntryFrom(s, k, s.stored[k]);
    }
  }

  lemma EntriesPublish(s: State, c: CallId, now: Time)
    requires EntriesFresh(s) && Enabled(s, Publish(c, now))
    ensures EntriesFresh(Next(s, Publish(c, now)))
  {
    var r := Next(s, Publish(c, now));
    forall k | k in r.stored ensures k in r.data.entries && EntryFrom(r, k, r.stored[k]) {
      if r.stored[k] != c {
        assert EntryFrom(s, k, s.stored[k]);
      }
    }
  }

  lemma LeadersStep(s: State, step: Step)
    requires LeadersPresent(s) && TableExact(s) && Enabled(s, step)
    ensures LeadersPresent(Next(s, step))
  {
    match step {
      case Get(t, key, now) => LeadersGet(s, t, key, now);
      case Wake(t) =>
        var r := Next(s, step);
        assert forall u :: u != t ==> CallerOf(r, u) == CallerOf(s, u);
      case Cancel(t) =>
        var r := Next(s, step);
        assert forall u :: u != t ==> CallerOf(r, u) == CallerOf(s, u);
      case _ =>
        var r := Next(s, step);
        assert r.callers == s.callers && |r.calls| == |s.calls|;
        assert forall c :: 0 <= c < |s.calls| ==> r.calls[c].leader == s.calls[c].leader;
    }
  }

  lemma LeadersGet(s: State, t: CallerId, key: Key, now: Time)
    requires LeadersPresent(s) && TableExact(s) && Enabled(s, Get(t, key, now))
    ensures LeadersPresent(Next(s, Get(t, key, now)))
  {
    var r := Next(s, Get(t, key, now));
    assert forall u :: u != t ==> CallerOf(r, u) == CallerOf(s, u);
    assert forall c :: 0 <= c < |s.calls| ==> r.calls[c] == s.calls[c];
  }

  lemma ResultsStep(s: State, step: Step)
    requires Inv(s) && Enabled(s, step)
    ensures ResultsAgree(Next(s, step))
  {
  }

  lemma {:induction false} AlwaysInv(ttl: Time, steps: seq<Step>)
    ensures Inv(Run(Initial(ttl), steps)) && Run(Initial(ttl), steps).data.ttl == ttl
  {
    if steps != [] {
      AlwaysInv(ttl, steps[..|steps| - 1]);
      var m, step := Run(Initial(ttl), steps[..|steps| - 1]), steps[|steps| - 1];
      if Enabled(m, step) {
        TableStep(m, step);
        EntriesStep(m, step);
        LeadersStep(m, step);
        ResultsStep(m, step);
      }
    }
  }

  /** Single flight: in every reachable state at most one fetch per key is under way. */
  lemma OneFetchPerKey(ttl: Time, steps: seq<Step>, c: CallId, d: CallId)
    ensures var s := Run(Initial(ttl), steps);
            (&& c < |s.calls| && d < |s.calls| && s.calls[c].key == s.calls[d].key
             && Running(s.calls[c].phase) && Running(s.calls[d].phase)) ==> c == d
  {
    AlwaysInv(ttl, steps);
  }

  /**
    A cache hit is fresh: in every reachable state, what Get returns from the cache is the successful result
    of a fetch for that key which both began and ended in the current generation, less than one TTL ago.
    In particular an error is never cached, and nothing survives an invalidation.
   */
  lemma HitsAreFresh(ttl: Time, steps: seq<Step>, key: Key, now: Time)
    ensures var s := Run(Initial(ttl), steps);
            LookUp(s.data, key, now).Hit? ==>
              exists c: CallId :: c < |s.calls|
                && s.calls[c].key == key
                && (s.calls[c].phase.Published? || s.calls[c].phase.Closed?)
                && s.calls[c].phase.out == Good(LookUp(s.data, key, now).catalog)
                && s.calls[c].startGen == s.calls[c].endGen == s.data.gen
                && now < s.calls[c].storedAt + ttl
  {
    AlwaysInv(ttl, steps);
    var s := Run(Initial(ttl), steps);
    if LookUp(s.data, key, now).Hit? {
      assert EntryFrom(s, key, s.stored[key]);
    }
  }

  /** Everyone who returns from a call, leader or waiter, returns that call's one result. */
  lemma SameResultForAll(ttl: Time, steps: seq<Step>, t: CallerId, u: CallerId)
    ensures var s := Run(Initial(ttl), steps);
            CallerOf(s, t).Returned? && CallerOf(s, u).Returned? && CallerOf(s, t).call == CallerOf(s, u).call
            ==> CallerOf(s, t).out == CallerOf(s, u).out
  {
    AlwaysInv(ttl, steps);
  }

  /** The steps only the leader of `c` takes, from where it stands to the closed channel. */
  function LeaderSteps(p: Phase, c: CallId, out: Outcome, now: Time): seq<Step> {
    match p
    case Fetching => [FetchEnds(c, out), Publish(c, now), CloseDone(c)]
    case Fetched(_) => [Publish(c, now), CloseDone(c)]
    case Published(_) => [CloseDone(c)]
    case Closed(_) => []
  }

  /**
    No waiter is stranded: in every reachable state a call that somebody waits for is either closed or has a
    leader still on its way, and whatever its fetch yields, that leader's own steps let the waiter return
    with it. A waiter never has to wait for another waiter, and never on a call nobody runs.
   */
  lemma WaiterCanFinish(ttl: Time, steps: seq<Step>, t: CallerId, out: Outcome, now: Time)
    ensures var s := Run(Initial(ttl), steps);
            CallerOf(s, t).Waiting? ==>
              var c := CallerOf(s, t).call;
              && c < |s.calls|
              && (s.calls[c].phase.Closed? || CallerOf(s, s.calls[c].leader) == Leading(c))
              && CallerOf(Run(s, LeaderSteps(s.calls[c].phase, c, out, now) + [Wake(t)]), t)
                 == Returned(c, if s.calls[c].phase.Fetching? then out else s.calls[c].phase.out)
  {
    AlwaysInv(ttl, steps);
    var s := Run(Initial(ttl), steps);
    if CallerOf(s, t).Waiting? {
      var c := CallerOf(s, t).call;
      LeaderCloses(s, c, out, now);
      var lead := LeaderSteps(s.calls[c].phase, c, out, now);
      assert (lead + [Wake(t)])[..|lead|] == lead;
    }
  }

  lemma LeaderCloses(s: State, c: CallId, out: Outcome, now: Time)
    requires c < |s.calls|
    ensures var r := Run(s, LeaderSteps(s.calls[c].phase, c, out, now));
            && r.callers == s.callers && c < |r.calls|
            && r.calls[c].phase == Closed(if s.calls[c].phase.Fetching? then out else s.calls[c].phase.out)
  {
    match s.calls[c].phase {
      case Fetching =>
        FoldThree(Try, s, FetchEnds(c, out), Publish(c, now), CloseDone(c));
        LeaderStep(s, FetchEnds(c, out), c);
        LeaderStep(Try(s, FetchEnds(c, out)), Publish(c, now), c);
        LeaderStep(Try(Try(s, FetchEnds(c, out)), Publish(c, now)), CloseDone(c), c);
      case Fetched(_) =>
        FoldTwo(Try, s, Publish(c, now), CloseDone(c));
        LeaderStep(s, Publish(c, now), c);
        LeaderStep(Try(s, Publish(c, now)), CloseDone(c), c);
      case Published(_) =>
        FoldOne(Try, s, CloseDone(c));
        LeaderStep(s, CloseDone(c), c);
      case Closed(_) =>
    }
  }

  /** A leader's step, when it is that step's turn, moves its own call on and no caller. */
  lemma LeaderStep(s: State, step: Step, c: CallId)
    requires (step.FetchEnds? || step.Publish? || step.CloseDone?) && step.call == c && Enabled(s, step)
    ensures var r := Try(s, step);
            && r.callers == s.callers && |r.calls| == |s.calls|
            && (step.FetchEnds? ==> r.calls[c].phase == Fetched(step.out))
            && (step.Publish? ==> r.calls[c].phase == Published(s.calls[c].phase.out))
            && (step.CloseDone? ==> r.calls[c].phase == Closed(s.calls[c].phase.out))
  {
  }

  // ---- what is cached stays cached ----

  /** Step `i` publishes a call for this key. */
  predicate Publishes(ttl: Time, steps: seq<Step>, i: nat, key: Key)
    requires i < |steps|
  {
    var s := Run(Initial(ttl), steps[..i]);
    steps[i].Publish? && Enabled(s, steps[i]) && s.calls[steps[i].call].key == key
  }

  /** Step `k` publishes a success for this key in the generation in which it was begun. */
  predicate Stores(ttl: Time, steps: seq<Step>, k: nat, key: Key, catalog: nat)
    requires k < |steps|
  {
    var s := Run(Initial(ttl), steps[..k]);
    && Publishes(ttl, steps, k, key) && s.calls[steps[k].call].phase.out == Good(catalog)
    && s.calls[steps[k].call].startGen == s.data.gen
  }

  lemma {:induction false} EntryStays(ttl: Time, steps: seq<Step>, k: nat, key: Key, catalog: nat)
    requires k < |steps| && Stores(ttl, steps, k, key, catalog)
    requires forall i :: k < i < |steps| ==> !steps[i].Invalidate? && !Publishes(ttl, steps, i, key)
    ensures var d := Run(Initial(ttl), steps).data;
            && d.ttl == ttl && key in d.entries && d.entries[key] == Entry(catalog, steps[k].now + ttl, d.gen)
  {
    var n := |steps| - 1;
    AlwaysInv(ttl, steps[..n]);
    if k < n {
      assert steps[..n][..k] == steps[..k];
      forall i | k < i < n ensures !Publishes(ttl, steps[..n], i, key) {
        assert steps[..n][..i] == steps[..i];
        assert !Publishes(ttl, steps, i, key);
      }
      EntryStays(ttl, steps[..n], k, key, catalog);
      assert !Publishes(ttl, steps, n, key);
      EntryKept(Run(Initial(ttl), steps[..n]), steps[n], key);
    }
  }

  lemma EntryKept(s: State, step: Step, key: Key)
    requires key in s.data.entries && !step.Invalidate?
    requires !(step.Publish? && Enabled(s, step) && s.calls[step.call].key == key)
    ensures var d := Try(s, step).data;
            d.gen == s.data.gen && d.ttl == s.data.ttl && key in d.entries && d.entries[key] == s.data.entries[key]
  {
  }

  /**
    The cache is used: a success published in its own generation is what every later Get for that key returns, for
    one lifetime, unless something is invalidated or another result for the key is published in between.
   */
  lemma PublishedIsHit(ttl: Time, steps: seq<Step>, k: nat, key: Key, catalog: nat, now: Time)
    requires k < |steps| && Stores(ttl, steps, k, key, catalog) && now < steps[k].now + ttl
    requires forall i :: k < i < |steps| ==> !steps[i].Invalidate? && !Publishes(ttl, steps, i, key)
    ensures LookUp(Run(Initial(ttl), steps).data, key, now) == Hit(catalog)
  {
    EntryStays(ttl, steps, k, key, catalog);
  }

  /** A caller starts a fetch exactly when there is no hit and nobody is fetching that key already. */
  lemma LeadsIff(ttl: Time, steps: seq<Step>, key: Key, now: Time)
    ensures var s := Run(Initial(ttl), steps);
            LookUp(s.data, key, now).Lead?
            <==> && !LookUp(s.data, key, now).Hit?
                 && forall c :: 0 <= c < |s.calls| && Running(s.calls[c].phase) ==> s.calls[c].key != key
  {
    AlwaysInv(ttl, steps);
  }

  /** A caller that gives up waiting goes alone: the call it waited for, and everybody else on it, carry on. */
  lemma CancelLeavesOthers(s: State, t: CallerId, u: CallerId)
    requires Enabled(s, Cancel(t)) && u != t
    ensures var r := Next(s, Cancel(t));
            && !Busy(CallerOf(r, t)) && !CallerOf(r, t).Returned? && CallerOf(r, u) == CallerOf(s, u)
            && r.calls == s.calls && r.data == s.data
  {
  }

  // ---- joins and invalidations ----

  function Invalidations(steps: seq<Step>): nat {
    if steps == [] then 0
    else Invalidations(steps[..|steps| - 1]) + if steps[|steps| - 1].Invalidate? then 1 else 0
  }

  lemma {:induction false} GenerationCounts(ttl: Time, steps: seq<Step>)
    ensures Run(Initial(ttl), steps).data.gen == Invalidations(steps)
  {
    if steps != [] {
      GenerationCounts(ttl, steps[..|steps| - 1]);
    }
  }

  lemma {:induction false} InvalidationsBetween(steps: seq<Step>, k: nat)
    requires k <= |steps|
    ensures Invalidations(steps[..k]) <= Invalidations(steps)
    ensures Invalidations(steps[..k]) == Invalidations(steps) <==> forall i :: k <= i < |steps| ==> !steps[i].Invalidate?
  {
    if k == |steps| {
      assert steps[..k] == steps;
    } else {
      var n := |steps| - 1;
      InvalidationsBetween(steps[..n], k);
      assert steps[..n][..k] == steps[..k];
    }
  }

  lemma {:induction false} CallsKeepTheirStart(ttl: Time, steps: seq<Step>, k: nat, c: CallId)
    requires k <= |steps| && c < |Run(Initial(ttl), steps[..k]).calls|
    ensures c < |Run(Initial(ttl), steps).calls|
    ensures Run(Initial(ttl), steps).calls[c].startGen == Run(Initial(ttl), steps[..k]).calls[c].startGen
  {
    if k == |steps| {
      assert steps[..k] == steps;
    } else {
      var before := steps[..|steps| - 1];
      assert before[..k] == steps[..k];
      CallsKeepTheirStart(ttl, before, k, c);
    }
  }

  /** Step `k` starts a call. */
  predicate Leads(ttl: Time, steps: seq<Step>, k: nat)
    requires k < |steps|
  {
    var s := Run(Initial(ttl), steps[..k]);
    steps[k].Get? && Enabled(s, steps[k]) && LookUp(s.data, steps[k].key, steps[k].now).Lead?
  }

  /** The call that step `k` starts. */
  function CallOf(ttl: Time, steps: seq<Step>, k: nat): CallId
    requires k < |steps|
  {
    |Run(Initial(ttl), steps[..k]).calls|
  }

  lemma LedCallStarts(ttl: Time, steps: seq<Step>, k: nat)
    requires k < |steps| && Leads(ttl, steps, k)
    ensures CallOf(ttl, steps, k) < |Run(Initial(ttl), steps[..k + 1]).calls|
    ensures Run(Initial(ttl), steps[..k + 1]).calls[CallOf(ttl, steps, k)].startGen == Invalidations(steps[..k])
  {
    assert steps[..k + 1][..k] == steps[..k];
    GenerationCounts(ttl, steps[..k]);
  }

  /**
    When a join is fresh: a caller that comes upon a call in flight joins a fetch begun in the current
    generation if and only if nothing was invalidated since the call was started.
   */
  lemma JoinIsFreshIff(ttl: Time, steps: seq<Step>, k: nat, key: Key, now: Time)
    requires k < |steps| && Leads(ttl, steps, k)
    requires LookUp(Run(Initial(ttl), steps).data, key, now) == Join(CallOf(ttl, steps, k))
    ensures var s, c := Run(Initial(ttl), steps), CallOf(ttl, steps, k);
            && c < |s.calls| && s.calls[c].key == key
            && (s.calls[c].startGen == s.data.gen <==> forall i :: k < i < |steps| ==> !steps[i].Invalidate?)
  {
    AlwaysInv(ttl, steps);
    LedCallStarts(ttl, steps, k);
    CallsKeepTheirStart(ttl, steps, k + 1, CallOf(ttl, steps, k));
    GenerationCounts(ttl, steps);
    InvalidationsBetween(steps, k);
  }

  /** Every join is of a call that some step started, so the condition speaks of every join there is. */
  lemma {:induction false} EveryCallWasLed(ttl: Time, steps: seq<Step>, c: CallId) returns (k: nat)
    requires c < |Run(Initial(ttl), steps).calls|
    ensures k < |steps| && Leads(ttl, steps, k) && CallOf(ttl, steps, k) == c
  {
    var n := |steps| - 1;
    if c < |Run(Initial(ttl), steps[..n]).calls| {
      k := EveryCallWasLed(ttl, steps[..n], c);
      assert steps[..n][..k] == steps[..k];
    } else {
      k := n;
    }
  }

  const LATE_JOIN := [Get(1, "k", 0), Invalidate, Get(2, "k", 0)]

  const LEADER_ENDS := [FetchEnds(0, Good(7)), Publish(0, 0), CloseDone(0)]

  /** The condition is not always met: a caller that arrives after an invalidation returns a catalog from before it. */
  lemma JoinMayBeStale()
    ensures var s := Run(Initial(10), LATE_JOIN + LEADER_ENDS + [Wake(2)]);
            && CallerOf(s, 2) == Returned(0, Good(7)) && s.data.entries == map[]
            && |s.calls| == 1 && s.calls[0].startGen < s.data.gen
  {
    var joined := Run(Initial(10), LATE_JOIN);
    LateCallerWaits();
    LeaderEnds(joined);
    FoldAppend(Try, Initial(10), LATE_JOIN, LEADER_ENDS);
    FoldAppend(Try, Initial(10), LATE_JOIN + LEADER_ENDS, [Wake(2)]);
    FoldOne(Try, Run(joined, LEADER_ENDS), Wake(2));
  }

  lemma LateCallerWaits()
    ensures var s := Run(Initial(10), LATE_JOIN);
            && CallerOf(s, 2) == Waiting(0) && s.data.entries == map[] && |s.calls| == 1
            && s.calls[0].phase.Fetching? && s.calls[0].startGen < s.data.gen
  {
    FoldThree(Try, Initial(10), LATE_JOIN[0], LATE_JOIN[1], LATE_JOIN[2]);
  }

  lemma LeaderEnds(s: State)
    requires |s.calls| == 1 && s.calls[0].phase.Fetching? && s.calls[0].startGen < s.data.gen
    ensures var r := Run(s, LEADER_ENDS);
            && r.callers == s.callers && r.data.entries == s.data.entries && r.data.gen == s.data.gen
            && |r.calls| == 1 && r.calls[0].phase == Closed(Good(7)) && r.calls[0].startGen == s.calls[0].startGen
  {
    FoldThree(Try, s, LEADER_ENDS[0], LEADER_ENDS[1], LEADER_ENDS[2]);
  }

  // ---- the cache as an object ----

  /** Five minutes, in seconds. */
  const DEFAULT_TTL: Time := 300

  class Cache {
    const ttl: Time
    var entries: map<Key, Entry>
    var inflight: map<Key, CallId>
    var gen: nat

    ghost function Guarded(): Data
      reads this
    {
      Data(ttl, entries, inflight, gen)
    }

    constructor (ttl: Time)
      ensures Guarded() == Data(if ttl <= 0 then DEFAULT_TTL else ttl, map[], map[], 0)
    {
      this.ttl := if ttl <= 0 then DEFAULT_TTL else ttl;
      entries, inflight, gen := map[], map[], 0;
    }

    method InvalidateAll()
      modifies this
      ensures Guarded() == Invalidated(old(Guarded()))
    {
      gen := gen + 1;
      entries := map[];
    }

    /** The locked part of Get: `next` is the call the caller will lead if there is nothing to return or join. */
    method Enter(key: Key, now: Time, next: CallId) returns (r: Lookup, startGen: nat)
      modifies this
      ensures r == LookUp(old(Guarded()), key, now) && startGen == old(gen)
      ensures Guarded() == if r.Lead? then old(Guarded()).(inflight := old(inflight)[key := next]) else old(Guarded())
    {
      startGen := gen;
      if key in entries && entries[key].gen == gen && now < entries[key].expires {
        return Hit(entries[key].catalog), gen;
      }
      if key in inflight {
        return Join(inflight[key]), gen;
      }
      inflight := inflight[key := next];
      r := Lead;
    }

    /** The deferred, locked part of lead. */
    method Leave(key: Key, startGen: nat, call: CallId, out: Outcome, now: Time)
      modifies this
      ensures Guarded() == Finish(old(Guarded()), key, startGen, call, out, now)
    {
      if key in inflight && inflight[key] == call {
        inflight := inflight - {key};
      }
      if out.Good? && startGen == gen {
        entries := entries[key := Entry(out.catalog, now + ttl, startGen)];
      }
    }
  }
}
