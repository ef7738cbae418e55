/** That the buffer coalesces: what goes out at once, what is held, and when what is held goes out. */
module CoalescerRuns {
  import opened Common
  import opened Events
  import opened Coalescer
  import opened CoalescerText
  import opened CoalescerErasure

  // ---- text ----

  function Arrivals(evs: seq<Event>): (ops: seq<Op>)
    ensures |ops| == |evs| && forall i :: 0 <= i < |evs| ==> ops[i] == Arrive(evs[i])
  {
    seq(|evs|, i requires 0 <= i < |evs| => Arrive(evs[i]))
  }

  function JoinTexts(evs: seq<Event>): Text {
    if evs == [] then [] else JoinTexts(evs[..|evs| - 1]) + evs[|evs| - 1].text
  }

  /** Chunks that a client places alike, none of them a replacement. */
  predicate OneRun(evs: seq<Event>) {
    forall i :: 0 <= i < |evs| ==> IsChunk(evs[i].kind) && !evs[i].replace && TagOf(evs[i]) == TagOf(evs[0])
  }

  /** Nothing, or one event with the texts joined and the stamp of the first. */
  function Joined(evs: seq<Event>): Option<Event> {
    if evs == [] then None else Some(evs[0].(text := JoinTexts(evs)))
  }

  /** No chunk came since the last boundary, or none at all. */
  predicate NoChunkYet(ops: seq<Op>) {
    if ops == [] then true
    else
      var op := ops[|ops| - 1];
      if op.Arrive? && IsBoundary(op.ev) then true
      else if op.Arrive? && IsChunk(op.ev.kind) then false
      else NoChunkYet(ops[..|ops| - 1])
  }

  lemma {:induction false} LeadingIff(c: Config, ops: seq<Op>)
    requires c.win > 0
    ensures StateAfter(c, ops).leading <==> NoChunkYet(ops)
  {
    if ops != [] {
      LeadingIff(c, ops[..|ops| - 1]);
      AlwaysValid(c, ops[..|ops| - 1]);
      LeadingStep(c, StateAfter(c, ops[..|ops| - 1]), ops[|ops| - 1]);
    }
  }

  lemma LeadingStep(c: Config, s: State, op: Op)
    requires c.win > 0
    ensures Step(c, s, op).0.leading
            <==> if op.Arrive? && IsBoundary(op.ev) then true
                 else if op.Arrive? && IsChunk(op.ev.kind) then false else s.leading
  {
  }

  lemma OneMore(c: Config, ops: seq<Op>, op: Op)
    ensures StateAfter(c, ops + [op]) == Step(c, StateAfter(c, ops), op).0
    ensures Emitted(c, ops + [op]) == Emitted(c, ops) + Step(c, StateAfter(c, ops), op).1
  {
    assert (ops + [op])[..|ops|] == ops;
  }

  /** A chunk that starts a run goes out at once and as it came, after what it displaces. */
  lemma FirstGoesOutAtOnce(c: Config, ops: seq<Op>, first: Event)
    requires c.win > 0 && IsChunk(first.kind)
    requires var s := StateAfter(c, ops); s.leading || first.replace || (s.run.Some? && TagOf(s.run.value) != TagOf(first))
    ensures var s := StateAfter(c, ops);
            && Emitted(c, ops + [Arrive(first)]) == Emitted(c, ops) + (Drained(s.run) + [first])
            && StateAfter(c, ops + [Arrive(first)]) == s.(leading := false, run := None)
            && (s.leading ==> Drained(s.run) == [])
  {
    AlwaysValid(c, ops);
    OneMore(c, ops, Arrive(first));
    var s := StateAfter(c, ops);
    if s.leading {
      assert Drained(s.run) + [first] == [first];
    }
  }

  lemma JoinOneMore(evs: seq<Event>, ev: Event)
    ensures JoinTexts(evs + [ev]) == JoinTexts(evs) + ev.text
  {
    assert (evs + [ev])[..|evs|] == evs;
  }

  lemma OneRunSplits(evs: seq<Event>, ev: Event)
    requires OneRun(evs + [ev])
    ensures OneRun(evs) && IsChunk(ev.kind) && !ev.replace && (evs != [] ==> TagOf(evs[0]) == TagOf(ev))
  {
    assert (evs + [ev])[|evs|] == ev;
    assert forall i :: 0 <= i < |evs| ==> evs[i] == (evs + [ev])[i];
  }

  /** One more chunk of the pending run: kept while the texts together are below the cap, flushed as one event at the cap. */
  lemma NextJoins(c: Config, s: State, evs: seq<Event>, ev: Event)
    requires c.win > 0 && !s.leading && s.run == Joined(evs) && OneRun(evs + [ev])
    ensures var (s1, out) := Step(c, s, Arrive(ev));
            if |JoinTexts(evs + [ev])| >= c.maxBytes
            then s1 == s.(run := None) && out == [Joined(evs + [ev]).value]
            else s1 == s.(run := Joined(evs + [ev])) && out == []
  {
    OneRunSplits(evs, ev);
    NextExtends(s.run, evs, ev);
  }

  lemma NextExtends(run: Option<Event>, evs: seq<Event>, ev: Event)
    requires run == Joined(evs) && OneRun(evs) && !ev.replace && (evs != [] ==> TagOf(evs[0]) == TagOf(ev))
    ensures Mergeable(run, ev) && Some(Extend(run, ev)) == Joined(evs + [ev])
  {
    JoinOneMore(evs, ev);
    if evs == [] {
      assert [] + [ev] == [ev] && JoinTexts([]) + ev.text == ev.text;
    } else {
      assert TagOf(run.value) == TagOf(evs[0]);
      assert (evs + [ev])[0] == evs[0];
    }
  }

  lemma {:induction false} RunIsHeld(c: Config, ops: seq<Op>, evs: seq<Event>)
    requires c.win > 0 && !StateAfter(c, ops).leading && StateAfter(c, ops).run.None?
    requires OneRun(evs) && |JoinTexts(evs)| < c.maxBytes
    ensures Emitted(c, ops + Arrivals(evs)) == Emitted(c, ops)
    ensures StateAfter(c, ops + Arrivals(evs)) == StateAfter(c, ops).(run := Joined(evs))
  {
    if evs == [] {
      assert ops + Arrivals(evs) == ops;
    } else {
      var n := |evs| - 1;
      assert evs == evs[..n] + [evs[n]];
      OneRunSplits(evs[..n], evs[n]);
      RunIsHeld(c, ops, evs[..n]);
      assert ops + Arrivals(evs) == (ops + Arrivals(evs[..n])) + [Arrive(evs[n])];
      OneMore(c, ops + Arrivals(evs[..n]), Arrive(evs[n]));
      NextJoins(c, StateAfter(c, ops + Arrivals(evs[..n])), evs[..n], evs[n]);
    }
  }

  /** The history in which `first` begins a run and `evs` follow it. */
  function WithRun(ops: seq<Op>, first: Event, evs: seq<Event>): seq<Op> {
    ops + [Arrive(first)] + Arrivals(evs)
  }

  /**
    Coalescing, over every history: the first chunk after a boundary goes out at once and as it came. The chunks
    of one run that follow send nothing out while their texts together stay below the byte cap. Then a drain, or a
    boundary before itself, sends exactly one event with their texts joined; the chunk that reaches the cap sends
    that event, itself included, and leaves nothing pending.
   */
  lemma RunIsCoalesced(c: Config, ops: seq<Op>, first: Event, evs: seq<Event>)
    requires c.win > 0 && NoChunkYet(ops) && IsChunk(first.kind) && OneRun(evs) && |JoinTexts(evs)| < c.maxBytes
    ensures Emitted(c, WithRun(ops, first, evs)) == Emitted(c, ops) + [first]
    ensures Emitted(c, WithRun(ops, first, evs) + [Drain]) == Emitted(c, ops) + [first] + Drained(Joined(evs))
    ensures forall b :: IsBoundary(b) ==>
              Emitted(c, WithRun(ops, first, evs) + [Arrive(b)])
              == Emitted(c, ops) + [first] + (Drained(Joined(evs)) + StateAfter(c, ops).held + [b])
    ensures forall ev :: OneRun(evs + [ev]) && |JoinTexts(evs + [ev])| >= c.maxBytes ==>
              && Emitted(c, WithRun(ops, first, evs) + [Arrive(ev)]) == Emitted(c, ops) + [first] + Drained(Joined(evs + [ev]))
              && StateAfter(c, WithRun(ops, first, evs) + [Arrive(ev)]).run.None?
  {
    LeadingIff(c, ops);
    FirstGoesOutAtOnce(c, ops, first);
    assert [] + [first] == [first];
    var started := ops + [Arrive(first)];
    RunIsHeld(c, started, evs);
    var h := WithRun(ops, first, evs);
    OneMore(c, h, Drain);
    forall b | IsBoundary(b)
      ensures Emitted(c, h + [Arrive(b)]) == Emitted(c, h) + (Drained(Joined(evs)) + StateAfter(c, ops).held + [b])
    {
      OneMore(c, h, Arrive(b));
    }
    forall ev | OneRun(evs + [ev]) && |JoinTexts(evs + [ev])| >= c.maxBytes
      ensures Emitted(c, h + [Arrive(ev)]) == Emitted(c, h) + Drained(Joined(evs + [ev]))
      ensures StateAfter(c, h + [Arrive(ev)]).run.None?
    {
      OneMore(c, h, Arrive(ev));
      NextJoins(c, StateAfter(c, h), evs, ev);
    }
  }

  /** Telemetry and tool updates may come between: histories that agree without them send the same chunks and hold the same text. */
  lemma SameTextSameChunks(c: Config, ops: seq<Op>, others: seq<Op>)
    requires Erased(ops) == Erased(others)
    ensures Chunks(Emitted(c, ops)) == Chunks(Emitted(c, others))
    ensures SameText(StateAfter(c, ops), StateAfter(c, others))
  {
    ErasureKeepsChunks(c, ops);
    ErasureKeepsChunks(c, others);
  }

  // ---- tools ----

  /** The update held for a tool, if any. */
  function HeldFor(held: seq<Event>, id: string): Option<Event> {
    var i := IndexOf(held, id);
    if i < 0 then None else Some(held[i])
  }

  function HeldText(s: State, id: string): Text {
    var h := HeldFor(s.held, id);
    if h.None? then [] else h.value.text
  }

  /** In append mode the update would fill the cap. */
  predicate FillsCap(c: Config, s: State, ev: Event) {
    c.append && |HeldText(s, ev.toolId)| + |ev.text| >= c.maxBytes
  }

  /**
    The tool lane holds back: over every history an update in place sends nothing out if and only if it is not
    final and does not fill the cap; then it is held for its tool, and no other tool's update is touched. Otherwise
    exactly one event goes out, for that tool, with the update's own status if it has one, and nothing is held for it.
   */
  lemma UpdateIsHeldIff(c: Config, ops: seq<Op>, ev: Event)
    requires c.win > 0 && c.toolLane && IsInPlaceUpdate(ev)
    ensures var s, s1 := StateAfter(c, ops), StateAfter(c, ops + [Arrive(ev)]);
            var out := Add(c, s, ev).1;
            && Emitted(c, ops + [Arrive(ev)]) == Emitted(c, ops) + out
            && (out == [] <==> !IsTerminalToolStatus(ev.status) && !FillsCap(c, s, ev))
            && (out == [] <==> HeldFor(s1.held, ev.toolId).Some?)
            && (out != [] ==> |out| == 1 && out[0].toolId == ev.toolId && (ev.status != "" ==> out[0].status == ev.status))
            && (forall id :: id != ev.toolId ==> HeldFor(s1.held, id) == HeldFor(s.held, id))
  {
    AlwaysValid(c, ops);
    AlwaysValid(c, ops + [Arrive(ev)]);
    OneMore(c, ops, Arrive(ev));
    var s := StateAfter(c, ops);
    SupersedingText(c, s, ev);
    var m := Superseding(c.append, s.held, ev);
    PutHeldFor(s.held, m);
    PutKeepsDistinct(s.held, m);
    WithoutHeldFor(s.held, ev.toolId);
    WithoutHeldFor(Put(s.held, m), ev.toolId);
  }

  lemma SupersedingText(c: Config, s: State, ev: Event)
    ensures var m := Superseding(c.append, s.held, ev);
            && m.toolId == ev.toolId && (ev.status != "" ==> m.status == ev.status)
            && (c.append ==> |m.text| == |HeldText(s, ev.toolId)| + |ev.text|)
  {
  }

  lemma PutKeepsDistinct(held: seq<Event>, m: Event)
    requires Distinct(held)
    ensures Distinct(Put(held, m))
  {
  }

  lemma PutHeldFor(held: seq<Event>, m: Event)
    requires Distinct(held)
    ensures forall id :: HeldFor(Put(held, m), id) == if id == m.toolId then Some(m) else HeldFor(held, id)
  {
    PutKeepsDistinct(held, m);
    var put, i := Put(held, m), IndexOf(held, m.toolId);
    HeldForAt(put, if i < 0 then |held| else i);
    forall id | id != m.toolId ensures HeldFor(put, id) == HeldFor(held, id) {
      var j, k := IndexOf(put, id), IndexOf(held, id);
      if k >= 0 {
        HeldForAt(put, k);
      } else if j >= 0 {
        HeldForAt(held, j);
      }
    }
  }

  lemma HeldForAt(held: seq<Event>, k: nat)
    requires Distinct(held) && k < |held|
    ensures HeldFor(held, held[k].toolId) == Some(held[k])
  {
  }

  lemma WithoutHeldFor(held: seq<Event>, gone: string)
    requires Distinct(held)
    ensures forall id :: HeldFor(Without(held, gone), id) == if id == gone then None else HeldFor(held, id)
  {
    forall id ensures HeldFor(Without(held, gone), id) == if id == gone then None else HeldFor(held, id) {
      WithoutHeldForOne(held, gone, id);
    }
  }

  lemma WithoutHeldForOne(held: seq<Event>, gone: string, id: string)
    requires Distinct(held)
    ensures HeldFor(Without(held, gone), id) == if id == gone then None else HeldFor(held, id)
  {
    var rest, i := Without(held, gone), IndexOf(held, gone);
    if i >= 0 {
      var j, k := IndexOf(rest, id), IndexOf(held, id);
      if k >= 0 && id != gone {
        assert rest[if k < i then k else k - 1] == held[k];
      }
      if j >= 0 {
        assert rest[j] == held[if j < i then j else j + 1];
        HeldForAt(held, if j < i then j else j + 1);
      }
    }
  }

  /** Delivery must block exactly when a control event goes out. */
  lemma BlockingIff(c: Config, ops: seq<Op>, ev: Event)
    ensures var (_, out, blocking) := Add(c, StateAfter(c, ops), ev);
            blocking <==> exists i :: 0 <= i < |out| && IsControl(out[i].kind)
  {
    AlwaysValid(c, ops);
    var s := StateAfter(c, ops);
    var (_, out, blocking) := Add(c, s, ev);
    if c.win > 0 && c.toolLane && IsInPlaceUpdate(ev) {
      SupersedingOk(c, s.held, ev);
      if out != [] {
        assert IsControl(out[0].kind);
      }
    } else if blocking {
      assert out[|out| - 1] == ev;
    }
  }

  // ---- deadlines ----

  /** When the first chunk of the pending text arrived, or zero. */
  function TextSince(c: Config, ops: seq<Op>): Time {
    if StateAfter(c, ops).run.None? || ops == [] then 0
    else
      var before, op := ops[..|ops| - 1], ops[|ops| - 1];
      if StateAfter(c, before).run.None? && op.Arrive? then op.ev.time else TextSince(c, before)
  }

  /** When the tool lane last became busy, or zero. */
  function LaneSince(c: Config, ops: seq<Op>): Time {
    if StateAfter(c, ops).held == [] || ops == [] then 0
    else
      var before, op := ops[..|ops| - 1], ops[|ops| - 1];
      if StateAfter(c, before).held == [] && op.Arrive? then op.ev.time else LaneSince(c, before)
  }

  lemma SinceStep(c: Config, s: State, op: Op, now: Time)
    requires Valid(c, s) && Clocked(s, now) && (op.Arrive? ==> op.ev.time > 0 && op.ev.time >= now)
    ensures var s1 := Step(c, s, op).0; TextClock(s, op, s1) && LaneClock(s, op, s1)
  {
    if op.Arrive? && c.win > 0 && !IsBoundary(op.ev) && c.toolLane && IsInPlaceUpdate(op.ev) {
      LaneStep(c, s, op.ev, now);
    }
  }

  /** The stamp of the pending text is set by the chunk that begins it and then stands. */
  predicate TextClock(s: State, op: Op, s1: State) {
    s1.run.Some? ==>
      if s.run.None? then op.Arrive? && s1.run.value.time == op.ev.time else s1.run.value.time == s.run.value.time
  }

  predicate LaneClock(s: State, op: Op, s1: State) {
    s1.held != [] ==> if s.held == [] then op.Arrive? && s1.toolSince == op.ev.time else s1.toolSince == s.toolSince
  }

  lemma LaneStep(c: Config, s: State, ev: Event, now: Time)
    requires Valid(c, s) && Clocked(s, now) && ev.time > 0 && ev.time >= now
    ensures AddTool(c, s, ev).0.run == s.run && LaneClock(s, Arrive(ev), AddTool(c, s, ev).0)
  {
  }

  lemma {:induction false} SinceIsExact(c: Config, ops: seq<Op>)
    requires Timely(ops)
    ensures var s := StateAfter(c, ops);
            && TextSince(c, ops) == (if s.run.Some? then s.run.value.time else 0)
            && LaneSince(c, ops) == (if s.held != [] then s.toolSince else 0)
  {
    if ops != [] {
      var before := ops[..|ops| - 1];
      SinceIsExact(c, before);
      AlwaysValid(c, before);
      AlwaysClocked(c, before);
      SinceStep(c, StateAfter(c, before), ops[|ops| - 1], Now(before));
    }
  }

  /** The deadline exactly: one window after the pending text began or the tool lane became busy, whichever is earlier. */
  lemma DeadlineIsExact(c: Config, ops: seq<Op>)
    requires c.win > 0 && Timely(ops)
    ensures var s, text, lane := StateAfter(c, ops), TextSince(c, ops), LaneSince(c, ops);
            Deadline(c, s) == if s.run.None? && s.held == [] then 0
                              else if s.held == [] || (s.run.Some? && text <= lane) then text + c.win
                              else lane + c.win
  {
    AlwaysClocked(c, ops);
    SinceIsExact(c, ops);
  }
}
