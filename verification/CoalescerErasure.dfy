/** What the text run does not depend on, and how long anything may be held. */
module CoalescerErasure {
  import opened Common
  import opened Events
  import opened Coalescer
  import opened CoalescerText

  /** Chunks, boundaries and drains; everything else is telemetry or an in-place update. */
  predicate Matters(op: Op) {
    op.Drain? || (op.Arrive? && (IsChunk(op.ev.kind) || IsBoundary(op.ev)))
  }

  function Erased(ops: seq<Op>): seq<Op> {
    if ops == [] then []
    else
      var rest := Erased(ops[..|ops| - 1]);
      if Matters(ops[|ops| - 1]) then rest + [ops[|ops| - 1]] else rest
  }

  function Chunks(evs: seq<Event>): seq<Event> {
    if evs == [] then []
    else
      var rest := Chunks(evs[..|evs| - 1]);
      if IsChunk(evs[|evs| - 1].kind) then rest + [evs[|evs| - 1]] else rest
  }

  lemma {:induction false} ChunksConcat(a: seq<Event>, b: seq<Event>)
    ensures Chunks(a + b) == Chunks(a) + Chunks(b)
  {
    if b == [] {
      assert a + b == a;
    } else {
      ChunksConcat(a, b[..|b| - 1]);
      assert (a + b)[..|a + b| - 1] == a + b[..|b| - 1];
    }
  }

  lemma {:induction false} NoChunks(evs: seq<Event>)
    requires forall i :: 0 <= i < |evs| ==> !IsChunk(evs[i].kind)
    ensures Chunks(evs) == []
  {
    if evs != [] {
      NoChunks(evs[..|evs| - 1]);
    }
  }

  predicate SameText(s: State, t: State) {
    s.leading == t.leading && s.run == t.run
  }

  lemma IrrelevantStep(c: Config, s: State, op: Op)
    requires Valid(c, s) && !Matters(op)
    ensures SameText(s, Step(c, s, op).0) && Chunks(Step(c, s, op).1) == []
  {
    if op.Arrive? && c.win > 0 && c.toolLane && IsInPlaceUpdate(op.ev) {
      SupersedingOk(c, s.held, op.ev);
    }
    NoChunks(Step(c, s, op).1);
  }

  lemma RelevantStep(c: Config, s: State, t: State, op: Op)
    requires Valid(c, s) && Valid(c, t) && SameText(s, t) && Matters(op)
    ensures SameText(Step(c, s, op).0, Step(c, t, op).0)
    ensures Chunks(Step(c, s, op).1) == Chunks(Step(c, t, op).1)
  {
    if op.Arrive? && IsBoundary(op.ev) {
      BoundaryChunks(c, s, op.ev);
      BoundaryChunks(c, t, op.ev);
    }
  }

  lemma BoundaryChunks(c: Config, s: State, ev: Event)
    requires Valid(c, s) && IsBoundary(ev)
    ensures Chunks(Drained(s.run) + s.held + [ev]) == Chunks(Drained(s.run))
  {
    assert Drained(s.run) + s.held + [ev] == Drained(s.run) + (s.held + [ev]);
    NoChunks(s.held + [ev]);
    ChunksConcat(Drained(s.run), s.held + [ev]);
  }

  /**
    Telemetry and in-place tool updates never fragment, delay or reorder text: leaving all of them
    out of a history leaves the emitted chunk events exactly as they were.
   */
  lemma {:induction false} ErasureKeepsChunks(c: Config, ops: seq<Op>)
    ensures Chunks(Emitted(c, ops)) == Chunks(Emitted(c, Erased(ops)))
    ensures SameText(StateAfter(c, ops), StateAfter(c, Erased(ops)))
  {
    if ops != [] {
      var before, op := ops[..|ops| - 1], ops[|ops| - 1];
      ErasureKeepsChunks(c, before);
      var s, t := StateAfter(c, before), StateAfter(c, Erased(before));
      AlwaysValid(c, before);
      AlwaysValid(c, Erased(before));
      ChunksConcat(Emitted(c, before), Step(c, s, op).1);
      if Matters(op) {
        RelevantStep(c, s, t, op);
        assert Erased(ops)[..|Erased(ops)| - 1] == Erased(before);
        ChunksConcat(Emitted(c, Erased(before)), Step(c, t, op).1);
      } else {
        IrrelevantStep(c, s, op);
      }
    }
  }

  // ---- deadlines ----

  /** The timestamp of the latest arrival. */
  function Now(ops: seq<Op>): Time {
    if ops == [] then 0
    else if ops[|ops| - 1].Arrive? then ops[|ops| - 1].ev.time
    else Now(ops[..|ops| - 1])
  }

  /** Arrivals carry positive, non-decreasing timestamps. */
  predicate Timely(ops: seq<Op>) {
    ops != [] ==>
      var before, op := ops[..|ops| - 1], ops[|ops| - 1];
      Timely(before) && (op.Arrive? ==> op.ev.time > 0 && op.ev.time >= Now(before))
  }

  predicate Since(held: seq<Event>, t: Time) {
    forall i :: 0 <= i < |held| ==> t <= held[i].time
  }

  predicate Clocked(s: State, now: Time) {
    && (s.run.Some? ==> 0 < s.run.value.time <= now)
    && (s.held != [] ==> 0 < s.toolSince <= now)
    && Since(s.held, s.toolSince)
  }

  lemma HoldClocked(c: Config, s: State, ev: Event, now: Time)
    requires Valid(c, s) && Clocked(s, now) && now <= ev.time && ev.time > 0
    ensures Clocked(HoldTool(c, s, ev), ev.time)
  {
    var merged := Superseding(c.append, s.held, ev);
    var put := Put(s.held, merged);
    assert forall i :: 0 <= i < |put| ==> put[i] == merged || (i < |s.held| && put[i] == s.held[i]);
  }

  lemma WithoutClocked(s: State, id: string, now: Time)
    requires Clocked(s, now)
    ensures Clocked(SetHeld(s, Without(s.held, id)), now)
  {
  }

  lemma StepClocked(c: Config, s: State, op: Op, now: Time)
    requires Valid(c, s) && Clocked(s, now)
    requires op.Arrive? ==> op.ev.time > 0 && op.ev.time >= now
    ensures Clocked(Step(c, s, op).0, if op.Arrive? then op.ev.time else now)
  {
    if op.Arrive? && c.win > 0 {
      if IsBoundary(op.ev) {
      } else if c.toolLane && IsInPlaceUpdate(op.ev) {
        AddToolClocked(c, s, op.ev, now);
      } else if IsChunk(op.ev.kind) {
        AddChunkClocked(c, s, op.ev, now);
      }
    }
  }

  lemma AddToolClocked(c: Config, s: State, ev: Event, now: Time)
    requires Valid(c, s) && Clocked(s, now) && now <= ev.time && ev.time > 0
    ensures Clocked(AddTool(c, s, ev).0, ev.time)
  {
    HoldClocked(c, s, ev, now);
    WithoutClocked(HoldTool(c, s, ev), ev.toolId, ev.time);
    WithoutClocked(s, ev.toolId, ev.time);
  }

  lemma AddChunkClocked(c: Config, s: State, ev: Event, now: Time)
    requires Clocked(s, now) && now <= ev.time && ev.time > 0
    ensures Clocked(AddChunk(c, s, ev).0, ev.time)
  {
  }

  lemma {:induction false} AlwaysClocked(c: Config, ops: seq<Op>)
    requires Timely(ops)
    ensures Clocked(StateAfter(c, ops), Now(ops))
  {
    if ops != [] {
      AlwaysClocked(c, ops[..|ops| - 1]);
      AlwaysValid(c, ops[..|ops| - 1]);
      StepClocked(c, StateAfter(c, ops[..|ops| - 1]), ops[|ops| - 1], Now(ops[..|ops| - 1]));
    }
  }

  /** When the first of the updates merged into what is held for a tool arrived. */
  function HeldSince(c: Config, ops: seq<Op>, id: string): Time {
    if ops == [] then 0
    else
      var before, op := ops[..|ops| - 1], ops[|ops| - 1];
      if IndexOf(StateAfter(c, before).held, id) >= 0 then HeldSince(c, before, id)
      else if op.Arrive? then op.ev.time
      else 0
  }

  lemma WithoutFinds(held: seq<Event>, gone: string, id: string)
    requires IndexOf(Without(held, gone), id) >= 0
    ensures IndexOf(held, id) >= 0
  {
    var rest, i := Without(held, gone), IndexOf(held, gone);
    var k := IndexOf(rest, id);
    if i >= 0 {
      assert rest[k] == held[if k < i then k else k + 1];
    }
  }

  /** The lane's clock stands still while a tool stays held, and starts no later than a tool newly held. */
  lemma ToolClockStep(c: Config, s: State, op: Op, id: string, now: Time)
    requires Valid(c, s) && Clocked(s, now) && (op.Arrive? ==> op.ev.time > 0 && op.ev.time >= now)
    requires IndexOf(Step(c, s, op).0.held, id) >= 0
    ensures IndexOf(s.held, id) >= 0 ==> Step(c, s, op).0.toolSince == s.toolSince
    ensures IndexOf(s.held, id) < 0 ==> op.Arrive? && Step(c, s, op).0.toolSince <= op.ev.time
  {
    if op.Arrive? && c.win > 0 && !IsBoundary(op.ev) && c.toolLane && IsInPlaceUpdate(op.ev) {
      ToolClockAdd(c, s, op.ev, id, now);
    }
  }

  lemma ToolClockAdd(c: Config, s: State, ev: Event, id: string, now: Time)
    requires Valid(c, s) && Clocked(s, now) && ev.time > 0 && ev.time >= now
    requires IndexOf(AddTool(c, s, ev).0.held, id) >= 0
    ensures IndexOf(s.held, id) >= 0 ==> AddTool(c, s, ev).0.toolSince == s.toolSince
    ensures IndexOf(s.held, id) < 0 ==> AddTool(c, s, ev).0.toolSince <= ev.time
  {
    var s1 := AddTool(c, s, ev).0;
    if IsTerminalToolStatus(ev.status) {
      if IndexOf(s.held, ev.toolId) >= 0 {
        WithoutFinds(s.held, ev.toolId, id);
      }
    } else {
      var h := HoldTool(c, s, ev);
      assert h.toolSince == s.toolSince || (s.toolSince == 0 && h.toolSince == ev.time);
      assert s.held != [] ==> s.toolSince > 0;
    }
  }

  lemma {:induction false} ToolClockCovers(c: Config, ops: seq<Op>, id: string)
    requires Timely(ops) && IndexOf(StateAfter(c, ops).held, id) >= 0
    ensures StateAfter(c, ops).toolSince <= HeldSince(c, ops, id)
  {
    if ops != [] {
      var before, op := ops[..|ops| - 1], ops[|ops| - 1];
      AlwaysClocked(c, before);
      AlwaysValid(c, before);
      ToolClockStep(c, StateAfter(c, before), op, id, Now(before));
      if IndexOf(StateAfter(c, before).held, id) >= 0 {
        ToolClockCovers(c, before, id);
      }
    }
  }

  /**
    The reported deadline is set exactly when something is pending. It is never later than one window after the
    first chunk of the pending run, nor after the first update merged into anything held, however many followed.
   */
  lemma DeadlineCoversEverythingHeld(c: Config, ops: seq<Op>)
    requires c.win > 0 && Timely(ops)
    ensures var s := StateAfter(c, ops);
            && (Deadline(c, s) == 0 <==> s.run.None? && s.held == [])
            && (s.run.Some? ==> Deadline(c, s) <= s.run.value.time + c.win)
            && (forall i :: 0 <= i < |s.held| ==> Deadline(c, s) <= s.held[i].time + c.win)
            && (forall i :: 0 <= i < |s.held| ==> Deadline(c, s) <= HeldSince(c, ops, s.held[i].toolId) + c.win)
  {
    AlwaysClocked(c, ops);
    var s := StateAfter(c, ops);
    forall i | 0 <= i < |s.held| ensures s.toolSince <= HeldSince(c, ops, s.held[i].toolId) {
      ToolClockCovers(c, ops, s.held[i].toolId);
    }
  }
}
