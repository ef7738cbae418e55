/** Streaming text: every byte keeps its identity and its place. */
module CoalescerText {
  import opened Common
  import opened Events
  import opened Coalescer

  /** Everything about a chunk that a client uses to place its text. */
  datatype Tag = Tag(
    kind: Type, session: string, agentSession: string, replay: bool, replace: bool,
    nativeMessage: string, nativePart: string)

  function TagOf(ev: Event): Tag {
    Tag(ev.kind, ev.session, ev.agentSession, ev.replay, ev.replace, ev.nativeMessage, ev.nativePart)
  }

  /** The text of a chunk event, each byte with the chunk's tag; other events carry none. */
  function Tagged(ev: Event): seq<(Tag, Byte)> {
    if IsChunk(ev.kind) then seq(|ev.text|, i requires 0 <= i < |ev.text| => (TagOf(ev), ev.text[i])) else []
  }

  function TaggedAll(evs: seq<Event>): seq<(Tag, Byte)> {
    if evs == [] then [] else TaggedAll(evs[..|evs| - 1]) + Tagged(evs[|evs| - 1])
  }

  lemma {:induction false} TaggedConcat(a: seq<Event>, b: seq<Event>)
    ensures TaggedAll(a + b) == TaggedAll(a) + TaggedAll(b)
  {
    if b == [] {
      assert a + b == a;
    } else {
      var k := |b| - 1;
      TaggedConcat(a, b[..k]);
      SplitLast(b);
      TaggedAppend(a + b[..k], b[k]);
      Assoc(a, b[..k], [b[k]]);
      Assoc(TaggedAll(a), TaggedAll(b[..k]), Tagged(b[k]));
    }
  }

  lemma SplitLast<T>(s: seq<T>)
    requires s != []
    ensures s == s[..|s| - 1] + [s[|s| - 1]]
  {
  }

  lemma Assoc<T>(a: seq<T>, b: seq<T>, c: seq<T>)
    ensures a + (b + c) == (a + b) + c
  {
  }

  lemma TaggedAppend(a: seq<Event>, ev: Event)
    ensures TaggedAll(a + [ev]) == TaggedAll(a) + Tagged(ev)
  {
    assert (a + [ev])[..|a|] == a;
  }

  lemma TaggedOne(ev: Event)
    ensures TaggedAll([ev]) == Tagged(ev)
  {
    assert [ev][..0] == [];
    assert TaggedAll([]) + Tagged(ev) == Tagged(ev);
  }

  lemma {:induction false} TaggedNone(evs: seq<Event>)
    requires forall i :: 0 <= i < |evs| ==> !IsChunk(evs[i].kind)
    ensures TaggedAll(evs) == []
  {
    if evs != [] {
      TaggedNone(evs[..|evs| - 1]);
    }
  }

  /** What every reachable state satisfies. */
  predicate Valid(c: Config, s: State) {
    && (s.leading ==> s.run.None?)
    && (s.run.Some? ==> IsChunk(s.run.value.kind))
    && (s.held == [] ==> s.toolSince == 0)
    && (c.win <= 0 ==> s.run.None?)
    && (c.win <= 0 || !c.toolLane ==> s.held == [])
    && HeldOk(c, s.held)
  }

  /** Held updates belong to tools, one each, none final, and in append mode all under the byte cap. */
  predicate HeldOk(c: Config, held: seq<Event>) {
    && (forall i :: 0 <= i < |held| ==> UpdateOk(held[i]) && (c.append ==> |held[i].text| < c.maxBytes))
    && Distinct(held)
  }

  predicate UpdateOk(ev: Event) {
    IsInPlaceUpdate(ev) && !IsTerminalToolStatus(ev.status)
  }

  predicate Distinct(held: seq<Event>) {
    forall i, j :: 0 <= i < j < |held| ==> held[i].toolId != held[j].toolId
  }

  lemma SupersedingOk(c: Config, held: seq<Event>, ev: Event)
    requires HeldOk(c, held) && IsInPlaceUpdate(ev)
    ensures var m := Superseding(c.append, held, ev);
            && m.toolId == ev.toolId && m.kind == ev.kind
            && (!IsTerminalToolStatus(ev.status) ==> UpdateOk(m))
  {
  }

  lemma WithoutOk(c: Config, held: seq<Event>, id: string)
    requires HeldOk(c, held)
    ensures HeldOk(c, Without(held, id))
  {
  }

  /** Replacing or appending one update and taking it out again. */
  lemma PutOk(c: Config, held: seq<Event>, ev: Event)
    requires HeldOk(c, held) && UpdateOk(ev)
    ensures (c.append ==> |ev.text| < c.maxBytes) ==> HeldOk(c, Put(held, ev))
    ensures Put(held, ev) != []
    ensures HeldOk(c, Without(Put(held, ev), ev.toolId))
  {
    var i := IndexOf(held, ev.toolId);
    if i < 0 {
      LastWithout(held, ev);
    } else {
      UpdatedWithout(held, i, ev);
      WithoutOk(c, held, ev.toolId);
    }
  }

  lemma LastWithout(held: seq<Event>, ev: Event)
    ensures Without(held + [ev], ev.toolId) == held
  {
    var put := held + [ev];
    assert put[..|held|] == held && put[|held| + 1..] == [];
  }

  lemma UpdatedWithout(held: seq<Event>, i: nat, ev: Event)
    requires i < |held| && Distinct(held) && held[i].toolId == ev.toolId
    ensures Without(held[i := ev], ev.toolId) == Without(held, ev.toolId)
  {
    var put := held[i := ev];
    forall j | 0 <= j < |held| && j != i ensures held[j].toolId != ev.toolId && put[j] == held[j] {
      assert j < i || i < j;
    }
    assert put[i].toolId == ev.toolId;
    var k, l := IndexOf(put, ev.toolId), IndexOf(held, ev.toolId);
    assert k == i && l == i;
    assert put[..i] == held[..i] && put[i + 1..] == held[i + 1..];
  }

  lemma AddToolValid(c: Config, s: State, ev: Event)
    requires Valid(c, s) && c.toolLane && c.win > 0 && IsInPlaceUpdate(ev)
    ensures Valid(c, AddTool(c, s, ev).0)
  {
    SupersedingOk(c, s.held, ev);
    if IsTerminalToolStatus(ev.status) {
      WithoutOk(c, s.held, ev.toolId);
    } else {
      PutOk(c, s.held, Superseding(c.append, s.held, ev));
    }
  }

  lemma StepValid(c: Config, s: State, op: Op)
    requires Valid(c, s)
    ensures Valid(c, Step(c, s, op).0)
  {
    if op.Arrive? && c.win > 0 && c.toolLane && IsInPlaceUpdate(op.ev) {
      AddToolValid(c, s, op.ev);
    }
  }

  /** In every reachable state the tool lane is duplicate-free, never terminal, and bounded in append mode. */
  lemma {:induction false} AlwaysValid(c: Config, ops: seq<Op>)
    ensures Valid(c, StateAfter(c, ops))
  {
    if ops != [] {
      AlwaysValid(c, ops[..|ops| - 1]);
      StepValid(c, StateAfter(c, ops[..|ops| - 1]), ops[|ops| - 1]);
    }
  }

  /** The pending text, tagged. */
  function Pending(s: State): seq<(Tag, Byte)> {
    TaggedAll(Drained(s.run))
  }

  lemma TaggedExtend(a: Event, ev: Event)
    requires IsChunk(a.kind) && TagOf(a) == TagOf(ev)
    ensures Tagged(a.(text := a.text + ev.text)) == Tagged(a) + Tagged(ev)
  {
    var both := a.(text := a.text + ev.text);
    assert TagOf(both) == TagOf(a) && IsChunk(ev.kind);
    assert forall i :: 0 <= i < |both.text| ==> Tagged(both)[i] == (Tagged(a) + Tagged(ev))[i];
  }

  lemma AddChunkConserves(c: Config, s: State, ev: Event)
    requires Valid(c, s) && IsChunk(ev.kind)
    ensures var (s1, out) := AddChunk(c, s, ev);
            TaggedAll(out) + Pending(s1) == Pending(s) + Tagged(ev)
  {
    TaggedOne(ev);
    if !Mergeable(s.run, ev) {
      TaggedConcat(Drained(s.run), [ev]);
    } else if !s.leading {
      TaggedOne(Extend(s.run, ev));
      if s.run.Some? {
        TaggedOne(s.run.value);
        TaggedExtend(s.run.value, ev);
      }
    }
  }

  lemma BoundaryConserves(s: State, ev: Event)
    requires IsBoundary(ev) && forall i :: 0 <= i < |s.held| ==> IsInPlaceUpdate(s.held[i])
    ensures TaggedAll(Drained(s.run) + s.held + [ev]) == Pending(s)
  {
    TaggedNone(s.held + [ev]);
    TaggedConcat(Drained(s.run), s.held + [ev]);
    assert Drained(s.run) + s.held + [ev] == Drained(s.run) + (s.held + [ev]);
  }

  lemma StepConserves(c: Config, s: State, op: Op)
    requires Valid(c, s)
    ensures var (s1, out) := Step(c, s, op);
            TaggedAll(out) + Pending(s1) == Pending(s) + TaggedAll(Arrival(op))
  {
    match op {
      case Arrive(ev) => ArriveConserves(c, s, ev);
      case Drain =>
      case DrainTools => TaggedNone(s.held);
    }
  }

  lemma ArriveConserves(c: Config, s: State, ev: Event)
    requires Valid(c, s)
    ensures var (s1, out, _) := Add(c, s, ev);
            TaggedAll(out) + Pending(s1) == Pending(s) + TaggedAll([ev])
  {
    TaggedOne(ev);
    if c.win > 0 && IsBoundary(ev) {
      BoundaryConserves(s, ev);
    } else if c.win > 0 && c.toolLane && IsInPlaceUpdate(ev) {
      AddToolConserves(c, s, ev);
    } else if c.win > 0 && IsChunk(ev.kind) {
      AddChunkConserves(c, s, ev);
    }
  }

  lemma AddToolConserves(c: Config, s: State, ev: Event)
    requires Valid(c, s) && IsInPlaceUpdate(ev)
    ensures var (s1, out, _) := AddTool(c, s, ev); TaggedAll(out) == [] && s1.run == s.run
  {
    SupersedingOk(c, s.held, ev);
    TaggedNone(AddTool(c, s, ev).1);
  }

  /** One step extends both sides of the conservation law. */
  lemma Accumulate<T>(emitted: seq<T>, pending: seq<T>, received: seq<T>, out: seq<T>, pending': seq<T>, arrived: seq<T>)
    requires emitted + pending == received && out + pending' == pending + arrived
    ensures (emitted + out) + pending' == received + arrived
  {
    calc {
      (emitted + out) + pending';
      emitted + (out + pending');
      emitted + (pending + arrived);
      (emitted + pending) + arrived;
    }
  }

  /**
    For every history, the tagged bytes emitted, followed by those pending, are the tagged bytes
    received, in order: nothing is lost, duplicated, reordered or moved to another run.
   */
  lemma {:induction false} TextConserved(c: Config, ops: seq<Op>)
    ensures TaggedAll(Emitted(c, ops)) + Pending(StateAfter(c, ops)) == TaggedAll(Received(ops))
  {
    if ops != [] {
      var before, op := ops[..|ops| - 1], ops[|ops| - 1];
      var s := StateAfter(c, before);
      TextConserved(c, before);
      AlwaysValid(c, before);
      StepConserves(c, s, op);
      var (s1, out) := Step(c, s, op);
      TaggedConcat(Emitted(c, before), out);
      TaggedConcat(Received(before), Arrival(op));
      Accumulate(TaggedAll(Emitted(c, before)), Pending(s), TaggedAll(Received(before)),
                 TaggedAll(out), Pending(s1), TaggedAll(Arrival(op)));
    }
  }

  lemma AfterArrival(c: Config, ops: seq<Op>, ev: Event)
    ensures var (s1, out, _) := Add(c, StateAfter(c, ops), ev);
            && StateAfter(c, ops + [Arrive(ev)]) == s1
            && Emitted(c, ops + [Arrive(ev)]) == Emitted(c, ops) + out
  {
    assert (ops + [Arrive(ev)])[..|ops|] == ops;
  }

  /** A replacement snapshot is emitted at once, as it came, after the pending text and merged with nothing. */
  lemma ReplaceIsVerbatim(c: Config, ops: seq<Op>, ev: Event)
    requires c.win > 0 && IsChunk(ev.kind) && ev.replace
    ensures var s := StateAfter(c, ops);
            && Emitted(c, ops + [Arrive(ev)]) == Emitted(c, ops) + (Drained(s.run) + [ev])
            && StateAfter(c, ops + [Arrive(ev)]).run.None?
  {
    AfterArrival(c, ops, ev);
  }

  /** A boundary leaves nothing behind it: all text and all held updates received earlier go out first. */
  lemma BoundaryFlushesEverything(c: Config, ops: seq<Op>, ev: Event)
    requires c.win > 0 && IsBoundary(ev)
    ensures StateAfter(c, ops + [Arrive(ev)]) == INITIAL
    ensures var s := StateAfter(c, ops);
            && Emitted(c, ops + [Arrive(ev)]) == Emitted(c, ops) + (Drained(s.run) + s.held + [ev])
            && TaggedAll(Emitted(c, ops) + (Drained(s.run) + s.held)) == TaggedAll(Received(ops))
  {
    AfterArrival(c, ops, ev);
    AlwaysValid(c, ops);
    TextConserved(c, ops);
    FlushCarriesPending(c, StateAfter(c, ops), Emitted(c, ops));
  }

  lemma FlushCarriesPending(c: Config, s: State, e: seq<Event>)
    requires Valid(c, s)
    ensures TaggedAll(e + (Drained(s.run) + s.held)) == TaggedAll(e) + Pending(s)
  {
    TaggedNone(s.held);
    TaggedConcat(Drained(s.run), s.held);
    TaggedConcat(e, Drained(s.run) + s.held);
  }
}
