/** The tool lane shows a client what sending every update would have shown it. */
module CoalescerTools {
  import opened Events
  import opened Coalescer
  import opened CoalescerText

  /** What a client displays for one tool. */
  datatype Card = Card(name: string, kind: string, status: string, text: Text)

  /** A client keeps a field when the incoming one is empty; text is replaced or appended. */
  function Upsert(append: bool, card: Card, ev: Event): Card {
    Card(
      if ev.toolName == "" then card.name else ev.toolName,
      if ev.toolKind == "" then card.kind else ev.toolKind,
      if ev.status == "" then card.status else ev.status,
      if append then card.text + ev.text else if ev.text == [] then card.text else ev.text)
  }

  predicate Concerns(id: string, ev: Event) {
    (ev.kind.ToolCall? || ev.kind.ToolUpdate?) && ev.toolId == id
  }

  /** The client's card for tool `id` after the given events, starting from `card`. */
  function Shown(append: bool, id: string, card: Card, evs: seq<Event>): Card {
    if evs == [] then card
    else
      var before := Shown(append, id, card, evs[..|evs| - 1]);
      if Concerns(id, evs[|evs| - 1]) then Upsert(append, before, evs[|evs| - 1]) else before
  }

  lemma {:induction false} ShownConcat(append: bool, id: string, card: Card, a: seq<Event>, b: seq<Event>)
    ensures Shown(append, id, card, a + b) == Shown(append, id, Shown(append, id, card, a), b)
  {
    if b == [] {
      assert a + b == a;
    } else {
      ShownConcat(append, id, card, a, b[..|b| - 1]);
      assert (a + b)[..|a + b| - 1] == a + b[..|b| - 1];
    }
  }

  lemma {:induction false} ShownUnaffected(append: bool, id: string, card: Card, evs: seq<Event>)
    requires forall i :: 0 <= i < |evs| ==> !Concerns(id, evs[i])
    ensures Shown(append, id, card, evs) == card
  {
    if evs != [] {
      ShownUnaffected(append, id, card, evs[..|evs| - 1]);
    }
  }

  /** Layering two updates is the same as a client applying one after the other. */
  lemma LayerIsComposition(append: bool, card: Card, prev: Event, next: Event)
    ensures Upsert(append, card, Layer(append, prev, next)) == Upsert(append, Upsert(append, card, prev), next)
  {
    if append {
      assert (card.text + prev.text) + next.text == card.text + (prev.text + next.text);
      assert next.text == [] ==> prev.text + next.text == prev.text;
    }
  }

  predicate Updates(evs: seq<Event>) {
    Distinct(evs) && forall i :: 0 <= i < |evs| ==> evs[i].kind.ToolUpdate?
  }

  /** What a client shows after updates for different tools: the one for its tool, if any. */
  function ShownOne(append: bool, id: string, card: Card, evs: seq<Event>): Card {
    var i := IndexOf(evs, id);
    if i < 0 then card else Upsert(append, card, evs[i])
  }

  lemma ShownUpdates(append: bool, id: string, card: Card, evs: seq<Event>)
    requires Updates(evs)
    ensures Shown(append, id, card, evs) == ShownOne(append, id, card, evs)
  {
    var i := IndexOf(evs, id);
    if i < 0 {
      ShownUnaffected(append, id, card, evs);
    } else {
      var a, b := evs[..i], evs[i + 1..];
      assert evs == a + ([evs[i]] + b);
      ShownConcat(append, id, card, a, [evs[i]] + b);
      ShownUnaffected(append, id, card, a);
      ShownConcat(append, id, card, [evs[i]], b);
      assert [evs[i]][..0] == [];
      ShownUnaffected(append, id, Shown(append, id, card, [evs[i]]), b);
    }
  }

  lemma UniqueIndex(evs: seq<Event>, k: nat)
    requires Distinct(evs) && k < |evs|
    ensures IndexOf(evs, evs[k].toolId) == k
  {
  }

  /** `evs` is `held` with `m` standing for its tool. */
  predicate Replaces(held: seq<Event>, m: Event, evs: seq<Event>) {
    && Updates(evs) && m in evs
    && (forall e :: e in held && e.toolId != m.toolId ==> e in evs)
    && (forall e :: e in evs ==> e == m || (e in held && e.toolId != m.toolId))
  }

  lemma PutUpdates(held: seq<Event>, m: Event)
    requires Updates(held) && m.kind.ToolUpdate?
    ensures Updates(Put(held, m)) && m in Put(held, m)
  {
    var i := IndexOf(held, m.toolId);
    if i >= 0 {
      forall j | 0 <= j < |held| && j != i ensures held[j].toolId != m.toolId {
        UniqueIndex(held, j);
      }
      assert Put(held, m)[i] == m;
    } else {
      assert Put(held, m)[|held|] == m;
    }
  }

  lemma PutHas(held: seq<Event>, m: Event, e: Event)
    requires e in held && e.toolId != m.toolId
    ensures e in Put(held, m)
  {
    var j :| 0 <= j < |held| && held[j] == e;
    assert Put(held, m)[j] == e;
  }

  lemma PutFrom(held: seq<Event>, m: Event, e: Event)
    requires Updates(held) && e in Put(held, m)
    ensures e == m || (e in held && e.toolId != m.toolId)
  {
    var j :| 0 <= j < |Put(held, m)| && Put(held, m)[j] == e;
    if e != m {
      assert held[j] == e;
      UniqueIndex(held, j);
    }
  }

  lemma PutWithout(held: seq<Event>, m: Event)
    requires Updates(held) && m.kind.ToolUpdate?
    ensures Without(Put(held, m), m.toolId) == Without(held, m.toolId)
  {
    var i := IndexOf(held, m.toolId);
    var put := Put(held, m);
    PutUpdates(held, m);
    if i >= 0 {
      UniqueIndex(put, i);
      assert put[..i] == held[..i] && put[i + 1..] == held[i + 1..];
    } else {
      assert put[..|held|] == held && put[|held| + 1..] == [];
    }
  }

  lemma PutReplaces(held: seq<Event>, m: Event)
    requires Updates(held) && m.kind.ToolUpdate?
    ensures Replaces(held, m, Put(held, m))
    ensures Without(Put(held, m), m.toolId) == Without(held, m.toolId)
  {
    PutUpdates(held, m);
    PutWithout(held, m);
    forall e | e in held && e.toolId != m.toolId ensures e in Put(held, m) {
      PutHas(held, m, e);
    }
    forall e | e in Put(held, m) ensures e == m || (e in held && e.toolId != m.toolId) {
      PutFrom(held, m, e);
    }
  }

  lemma WithoutUpdates(held: seq<Event>, id: string)
    requires Updates(held)
    ensures Updates(Without(held, id))
  {
    var i := IndexOf(held, id);
    if i >= 0 {
      var rest := Without(held, id);
      forall j, k | 0 <= j < k < |rest| ensures rest[j].toolId != rest[k].toolId {
        assert rest[j] == held[if j < i then j else j + 1] && rest[k] == held[if k < i then k else k + 1];
      }
      forall j | 0 <= j < |rest| ensures rest[j].kind.ToolUpdate? {
        assert rest[j] == held[if j < i then j else j + 1];
      }
    }
  }

  lemma WithoutHas(held: seq<Event>, id: string, e: Event)
    requires e in held && e.toolId != id
    ensures e in Without(held, id)
  {
    var i := IndexOf(held, id);
    if i >= 0 {
      var j :| 0 <= j < |held| && held[j] == e;
      assert Without(held, id)[if j < i then j else j - 1] == e;
    }
  }

  lemma WithoutFrom(held: seq<Event>, id: string, e: Event)
    requires Updates(held) && e in Without(held, id)
    ensures e in held && e.toolId != id
  {
    var i := IndexOf(held, id);
    if i >= 0 {
      if e in held[..i] {
        var k :| 0 <= k < i && held[..i][k] == e;
        assert held[k] == e;
      } else {
        var k :| 0 <= k < |held| - i - 1 && held[i + 1..][k] == e;
        assert held[i + 1 + k] == e;
      }
    }
  }

  lemma MovedReplaces(held: seq<Event>, m: Event)
    requires Updates(held) && m.kind.ToolUpdate?
    ensures Replaces(held, m, [m] + Without(held, m.toolId))
  {
    var rest := Without(held, m.toolId);
    var moved := [m] + rest;
    WithoutUpdates(held, m.toolId);
    forall e | e in rest ensures e in held && e.toolId != m.toolId {
      WithoutFrom(held, m.toolId, e);
    }
    forall e | e in held && e.toolId != m.toolId ensures e in moved {
      WithoutHas(held, m.toolId, e);
    }
    MovedUpdates(m, rest);
  }

  lemma MovedUpdates(m: Event, rest: seq<Event>)
    requires Updates(rest) && m.kind.ToolUpdate? && forall e :: e in rest ==> e.toolId != m.toolId
    ensures Updates([m] + rest) && m in [m] + rest
  {
    var moved := [m] + rest;
    forall j, k | 0 <= j < k < |moved| ensures moved[j].toolId != moved[k].toolId {
      assert moved[k] == rest[k - 1];
    }
  }

  lemma ShownOneDetermined(append: bool, id: string, card: Card, evs: seq<Event>, e: Event)
    requires Updates(evs) && e in evs
    ensures ShownOne(append, e.toolId, card, evs) == Upsert(append, card, e)
  {
    var k :| 0 <= k < |evs| && evs[k] == e;
    UniqueIndex(evs, k);
  }

  /** Putting `m` in the place of whatever is held for its tool changes only what that tool shows. */
  lemma PutShows(append: bool, id: string, card: Card, held: seq<Event>, m: Event, evs: seq<Event>)
    requires Updates(held) && m.kind.ToolUpdate?
    requires Replaces(held, m, evs)
    ensures Shown(append, id, card, evs)
            == if m.toolId == id then Upsert(append, card, m) else Shown(append, id, card, held)
  {
    ShownUpdates(append, id, card, evs);
    ShownUpdates(append, id, card, held);
    if m.toolId == id {
      ShownOneDetermined(append, id, card, evs, m);
    } else {
      var h := IndexOf(held, id);
      if h >= 0 {
        ShownOneDetermined(append, id, card, evs, held[h]);
      }
    }
  }

  lemma AddToolForm(c: Config, s: State, ev: Event, m: Event)
    requires m == Superseding(c.append, s.held, ev) && m.toolId == ev.toolId
    requires Without(Put(s.held, m), m.toolId) == Without(s.held, m.toolId)
    ensures var (s1, out, _) := AddTool(c, s, ev);
            out + s1.held == Put(s.held, m) || out + s1.held == [m] + Without(s.held, m.toolId)
  {
    assert [] + Put(s.held, m) == Put(s.held, m);
  }

  lemma SupersedingShows(append: bool, id: string, card: Card, held: seq<Event>, ev: Event)
    requires Updates(held) && IsInPlaceUpdate(ev)
    ensures Shown(append, id, Shown(append, id, card, held), [ev])
            == if ev.toolId == id then Upsert(append, card, Superseding(append, held, ev))
               else Shown(append, id, card, held)
  {
    assert [ev][..0] == [];
    ShownUpdates(append, id, card, held);
    var i := IndexOf(held, ev.toolId);
    if i >= 0 {
      LayerIsComposition(append, card, held[i], ev);
    }
  }

  lemma AddToolShows(c: Config, s: State, id: string, card: Card, ev: Event)
    requires Valid(c, s) && IsInPlaceUpdate(ev)
    ensures var (s1, out, _) := AddTool(c, s, ev);
            Shown(c.append, id, card, out + s1.held)
            == Shown(c.append, id, Shown(c.append, id, card, s.held), [ev])
  {
    var (s1, out, _) := AddTool(c, s, ev);
    var m := Superseding(c.append, s.held, ev);
    SupersedingOk(c, s.held, ev);
    PutReplaces(s.held, m);
    MovedReplaces(s.held, m);
    AddToolForm(c, s, ev, m);
    PutShows(c.append, id, card, s.held, m, out + s1.held);
    SupersedingShows(c.append, id, card, s.held, ev);
  }

  lemma StepShows(c: Config, s: State, id: string, card: Card, op: Op)
    requires Valid(c, s)
    ensures var (s1, out) := Step(c, s, op);
            Shown(c.append, id, card, out + s1.held)
            == Shown(c.append, id, Shown(c.append, id, card, s.held), Arrival(op))
  {
    match op {
      case Arrive(ev) =>
        if c.win > 0 && IsBoundary(ev) {
          BoundaryShows(c, s, id, card, ev);
        } else if c.win > 0 && c.toolLane && IsInPlaceUpdate(ev) {
          AddToolShows(c, s, id, card, ev);
        } else {
          PassShows(c, s, id, card, ev);
        }
      case Drain =>
        ShownConcat(c.append, id, card, Drained(s.run), s.held);
        ShownUnaffected(c.append, id, card, Drained(s.run));
      case DrainTools =>
        assert s.held + [] == s.held;
    }
  }

  lemma BoundaryShows(c: Config, s: State, id: string, card: Card, ev: Event)
    requires Valid(c, s)
    ensures Shown(c.append, id, card, Drained(s.run) + s.held + [ev] + [])
            == Shown(c.append, id, Shown(c.append, id, card, s.held), [ev])
  {
    assert Drained(s.run) + s.held + [ev] + [] == Drained(s.run) + (s.held + [ev]);
    ShownConcat(c.append, id, card, Drained(s.run), s.held + [ev]);
    ShownUnaffected(c.append, id, card, Drained(s.run));
    ShownConcat(c.append, id, card, s.held, [ev]);
  }

  /** Events that never meet a held update: text, telemetry, and updates when the lane is off. */
  lemma PassShows(c: Config, s: State, id: string, card: Card, ev: Event)
    requires Valid(c, s)
    requires c.win <= 0 || (!IsBoundary(ev) && !(c.toolLane && IsInPlaceUpdate(ev)))
    ensures var (s1, out) := Step(c, s, Arrive(ev));
            Shown(c.append, id, card, out + s1.held)
            == Shown(c.append, id, Shown(c.append, id, card, s.held), [ev])
  {
    var (s1, out) := Step(c, s, Arrive(ev));
    if c.win <= 0 || !c.toolLane {
      assert s1.held == [] && out + [] == out;
    }
    if c.win > 0 && (c.toolLane || IsChunk(ev.kind)) {
      assert !Concerns(id, ev) && s1.held == s.held;
      BypassShows(c.append, id, card, out, s.held, ev);
    }
  }

  lemma BypassShows(append: bool, id: string, card: Card, out: seq<Event>, held: seq<Event>, ev: Event)
    requires !Concerns(id, ev) && forall i :: 0 <= i < |out| ==> !Concerns(id, out[i])
    ensures Shown(append, id, card, out + held) == Shown(append, id, Shown(append, id, card, held), [ev])
  {
    ShownConcat(append, id, card, out, held);
    ShownUnaffected(append, id, card, out);
    ShownUnaffected(append, id, Shown(append, id, card, held), [ev]);
  }

  /**
    The tool lane refines "send everything": for every history, every tool and every card a client
    may start from, what was emitted followed by what is still held shows the same name, kind,
    status and text as all the updates received.
   */
  lemma {:induction false} ToolLaneRefinesSendEverything(c: Config, ops: seq<Op>, id: string, card: Card)
    ensures Shown(c.append, id, card, Emitted(c, ops) + StateAfter(c, ops).held)
            == Shown(c.append, id, card, Received(ops))
  {
    if ops == [] {
      assert [] + INITIAL.held == [];
    } else {
      var before, op := ops[..|ops| - 1], ops[|ops| - 1];
      ToolLaneRefinesSendEverything(c, before, id, card);
      AlwaysValid(c, before);
      StepKeepsShown(c, StateAfter(c, before), id, card, op, Emitted(c, before), Received(before));
    }
  }

  lemma StepKeepsShown(c: Config, s: State, id: string, card: Card, op: Op, emitted: seq<Event>, received: seq<Event>)
    requires Valid(c, s) && Shown(c.append, id, card, emitted + s.held) == Shown(c.append, id, card, received)
    ensures var (s1, out) := Step(c, s, op);
            Shown(c.append, id, card, (emitted + out) + s1.held) == Shown(c.append, id, card, received + Arrival(op))
  {
    var (s1, out) := Step(c, s, op);
    ShownConcat(c.append, id, card, emitted, s.held);
    ShownConcat(c.append, id, card, received, Arrival(op));
    StepShows(c, s, id, Shown(c.append, id, card, emitted), op);
    Assoc(emitted, out, s1.held);
    ShownConcat(c.append, id, card, emitted, out + s1.held);
  }
}
