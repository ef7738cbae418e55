/**
  The stream coalescer of internal/chunkbuf/chunkbuf.go as functions of an abstract state:
  at most one merged text event, and the held tool updates in arrival order.
 */
module Coalescer {
  import opened Common
  import opened Events

  datatype Config = Config(win: int, maxBytes: int, toolLane: bool, append: bool)

  /** `run` is the pending text as the single event it would be drained into. */
  datatype State = State(leading: bool, run: Option<Event>, held: seq<Event>, toolSince: Time)

  const INITIAL := State(true, None, [], 0)

  const GROWTH_FACTOR := 4

  function Drained(run: Option<Event>): seq<Event> {
    if run.Some? then [run.value] else []
  }

  predicate SameRun(a: Event, b: Event) {
    && a.kind == b.kind
    && a.session == b.session
    && a.agentSession == b.agentSession
    && a.replay == b.replay
    && a.nativeMessage == b.nativeMessage
    && a.nativePart == b.nativePart
  }

  predicate Mergeable(run: Option<Event>, ev: Event) {
    !ev.replace && (run.Some? ==> !run.value.replace && SameRun(ev, run.value))
  }

  function Extend(run: Option<Event>, ev: Event): Event {
    if run.Some? then run.value.(text := run.value.text + ev.text) else ev
  }

  function AddChunk(c: Config, s: State, ev: Event): (State, seq<Event>) {
    if !Mergeable(s.run, ev) then (s.(leading := false, run := None), Drained(s.run) + [ev])
    else if s.leading then (s.(leading := false), [ev])
    else
      var run := Extend(s.run, ev);
      if |run.text| >= c.maxBytes then (s.(run := None), [run]) else (s.(run := Some(run)), [])
  }

  /** The position of the update held for a tool, or -1. */
  function IndexOf(held: seq<Event>, id: string): (i: int)
    ensures -1 <= i < |held|
    ensures i >= 0 ==> held[i].toolId == id
    ensures i < 0 ==> forall k :: 0 <= k < |held| ==> held[k].toolId != id
  {
    if held == [] then -1
    else if held[|held| - 1].toolId == id then |held| - 1
    else IndexOf(held[..|held| - 1], id)
  }

  function Layer(append: bool, prev: Event, next: Event): Event {
    next.(
      toolName := if next.toolName == "" then prev.toolName else next.toolName,
      toolKind := if next.toolKind == "" then prev.toolKind else next.toolKind,
      status := if next.status == "" then prev.status else next.status,
      text := if next.text == [] then prev.text else if append then prev.text + next.text else next.text
    )
  }

  /** The update that results from `ev` given what is held for its tool. */
  function Superseding(append: bool, held: seq<Event>, ev: Event): Event {
    var i := IndexOf(held, ev.toolId);
    if i < 0 then ev else Layer(append, held[i], ev)
  }

  function Without(held: seq<Event>, id: string): seq<Event> {
    var i := IndexOf(held, id);
    if i < 0 then held else held[..i] + held[i + 1..]
  }

  function Put(held: seq<Event>, ev: Event): seq<Event> {
    var i := IndexOf(held, ev.toolId);
    if i < 0 then held + [ev] else held[i := ev]
  }

  function SetHeld(s: State, held: seq<Event>): State {
    s.(held := held, toolSince := if held == [] then 0 else s.toolSince)
  }

  function HoldTool(c: Config, s: State, ev: Event): State {
    var since := if IndexOf(s.held, ev.toolId) < 0 && s.toolSince == 0 then ev.time else s.toolSince;
    s.(held := Put(s.held, Superseding(c.append, s.held, ev)), toolSince := since)
  }

  function AddTool(c: Config, s: State, ev: Event): (State, seq<Event>, bool) {
    var merged := Superseding(c.append, s.held, ev);
    if IsTerminalToolStatus(ev.status) then
      (if IndexOf(s.held, ev.toolId) < 0 then s else SetHeld(s, Without(s.held, ev.toolId)), [merged], true)
    else
      var s1 := HoldTool(c, s, ev);
      if c.append && |merged.text| >= c.maxBytes then (SetHeld(s1, Without(s1.held, ev.toolId)), [merged], true)
      else (s1, [], false)
  }

  /** One event in: the new state, what must be delivered now, and whether delivery must block. */
  function Add(c: Config, s: State, ev: Event): (State, seq<Event>, bool) {
    if c.win <= 0 then (s, [ev], IsControl(ev.kind))
    else if IsBoundary(ev) then (INITIAL, Drained(s.run) + s.held + [ev], true)
    else if c.toolLane && IsInPlaceUpdate(ev) then AddTool(c, s, ev)
    else if !IsChunk(ev.kind) then (s, [ev], IsControl(ev.kind))
    else
      var (s1, out) := AddChunk(c, s, ev);
      (s1, out, false)
  }

  /** The first position at or after `k` where a rune starts, or the end. */
  function NextRuneStart(text: Text, k: nat): (r: nat)
    requires k <= |text|
    ensures k <= r <= |text|
    ensures r == |text| || IsRuneStart(text[r])
    ensures forall i :: k <= i < r ==> !IsRuneStart(text[i])
    decreases |text| - k
  {
    if k < |text| && !IsRuneStart(text[k]) then NextRuneStart(text, k + 1) else k
  }

  /** How many leading bytes the growth guard discards. */
  function Overflow(c: Config, text: Text): (r: nat)
    requires c.maxBytes >= 0
    ensures r <= |text| && |text| - r <= GROWTH_FACTOR * c.maxBytes
  {
    var limit := GROWTH_FACTOR * c.maxBytes;
    if |text| > limit then NextRuneStart(text, |text| - limit) else 0
  }

  /** Puts a drained event back in front of the pending text. */
  function Unflush(c: Config, s: State, ev: Event): (State, nat)
    requires c.maxBytes >= 0
  {
    if c.win <= 0 || ev.text == [] then (s, 0)
    else
      var run := if s.run.Some? then s.run.value.(text := ev.text + s.run.value.text) else ev;
      var cut := Overflow(c, run.text);
      (s.(run := Some(run.(text := run.text[cut..]))), cut)
  }

  /** When a timed flush is due, or zero when nothing is pending. */
  function Deadline(c: Config, s: State): Time {
    var text := if s.run.Some? then s.run.value.time + c.win else 0;
    var tools := if s.held != [] then s.toolSince + c.win else 0;
    if text == 0 then tools else if tools == 0 then text else if tools < text then tools else text
  }

  // ---- histories ----

  datatype Op = Arrive(ev: Event) | Drain | DrainTools

  function Step(c: Config, s: State, op: Op): (State, seq<Event>) {
    match op
    case Arrive(ev) => var (s1, out, _) := Add(c, s, ev); (s1, out)
    case Drain => (s.(run := None), Drained(s.run))
    case DrainTools => (SetHeld(s, []), s.held)
  }

  function StateAfter(c: Config, ops: seq<Op>): State {
    if ops == [] then INITIAL else Step(c, StateAfter(c, ops[..|ops| - 1]), ops[|ops| - 1]).0
  }

  function Emitted(c: Config, ops: seq<Op>): seq<Event> {
    if ops == [] then []
    else Emitted(c, ops[..|ops| - 1]) + Step(c, StateAfter(c, ops[..|ops| - 1]), ops[|ops| - 1]).1
  }

  function Arrival(op: Op): seq<Event> {
    if op.Arrive? then [op.ev] else []
  }

  function Received(ops: seq<Op>): seq<Event> {
    if ops == [] then [] else Received(ops[..|ops| - 1]) + Arrival(ops[|ops| - 1])
  }
}
