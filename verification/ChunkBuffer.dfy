/**
  The coalescing buffer as the daemon keeps it: the text of the pending run as a list of parts with
  a byte count, the held updates in a map with the order of arrival beside it.
 */
module ChunkBuffer {
  import opened Common
  import opened Events
  import opened Coalescer

  function Join(parts: seq<Text>): Text {
    if parts == [] then [] else Join(parts[..|parts| - 1]) + parts[|parts| - 1]
  }

  lemma {:induction false} JoinConcat(a: seq<Text>, b: seq<Text>)
    ensures Join(a + b) == Join(a) + Join(b)
  {
    if b == [] {
      assert a + b == a;
    } else {
      var k := |b| - 1;
      JoinConcat(a, b[..k]);
      assert (a + b)[..|a + b| - 1] == a + b[..k];
      assert (Join(a) + Join(b[..k])) + b[k] == Join(a) + (Join(b[..k]) + b[k]);
    }
  }

  lemma JoinOne(t: Text)
    ensures Join([t]) == t
  {
    assert [t][..0] == [];
  }

  /** The map holds exactly the listed tools, once each, under their own ids. */
  predicate Indexed(tools: map<string, Event>, ids: seq<string>) {
    && (forall i, j :: 0 <= i < j < |ids| ==> ids[i] != ids[j])
    && (forall i :: 0 <= i < |ids| ==> ids[i] in tools)
    && (forall id :: id in tools ==> id in ids && tools[id].toolId == id)
  }

  function HeldOf(tools: map<string, Event>, ids: seq<string>): seq<Event>
    requires Indexed(tools, ids)
  {
    seq(|ids|, i requires 0 <= i < |ids| => tools[ids[i]])
  }

  lemma HeldIndex(tools: map<string, Event>, ids: seq<string>, id: string)
    requires Indexed(tools, ids)
    ensures var i := IndexOf(HeldOf(tools, ids), id);
            && (i >= 0 <==> id in tools)
            && (i >= 0 ==> ids[i] == id && HeldOf(tools, ids)[i] == tools[id])
  {
    var i := IndexOf(HeldOf(tools, ids), id);
    if id in tools {
      var k :| 0 <= k < |ids| && ids[k] == id;
      assert HeldOf(tools, ids)[k].toolId == id;
    }
    if i >= 0 {
      assert HeldOf(tools, ids)[i].toolId == ids[i];
    }
  }

  lemma PutHeld(tools: map<string, Event>, ids: seq<string>, ev: Event)
    requires Indexed(tools, ids)
    ensures var ids' := if ev.toolId in tools then ids else ids + [ev.toolId];
            && Indexed(tools[ev.toolId := ev], ids')
            && HeldOf(tools[ev.toolId := ev], ids') == Put(HeldOf(tools, ids), ev)
  {
    if ev.toolId in tools {
      ReplaceHeld(tools, ids, ev);
    } else {
      AppendHeld(tools, ids, ev);
    }
  }

  lemma ReplaceHeld(tools: map<string, Event>, ids: seq<string>, ev: Event)
    requires Indexed(tools, ids) && ev.toolId in tools
    ensures Indexed(tools[ev.toolId := ev], ids)
    ensures HeldOf(tools[ev.toolId := ev], ids) == Put(HeldOf(tools, ids), ev)
  {
    HeldIndex(tools, ids, ev.toolId);
    var i := IndexOf(HeldOf(tools, ids), ev.toolId);
    assert forall k :: 0 <= k < |ids| && k != i ==> ids[k] != ev.toolId;
  }

  lemma AppendHeld(tools: map<string, Event>, ids: seq<string>, ev: Event)
    requires Indexed(tools, ids) && ev.toolId !in tools
    ensures Indexed(tools[ev.toolId := ev], ids + [ev.toolId])
    ensures HeldOf(tools[ev.toolId := ev], ids + [ev.toolId]) == Put(HeldOf(tools, ids), ev)
  {
    HeldIndex(tools, ids, ev.toolId);
    assert forall k :: 0 <= k < |ids| ==> ids[k] != ev.toolId;
  }

  lemma WithoutIndexed(tools: map<string, Event>, ids: seq<string>, k: nat)
    requires Indexed(tools, ids) && k < |ids|
    ensures Indexed(tools - {ids[k]}, ids[..k] + ids[k + 1..])
  {
    var ids' := ids[..k] + ids[k + 1..];
    assert forall i :: 0 <= i < |ids'| ==> ids'[i] == ids[if i < k then i else i + 1];
    forall id | id in tools - {ids[k]} ensures id in ids' {
      var j :| 0 <= j < |ids| && ids[j] == id;
      assert ids'[if j < k then j else j - 1] == id;
    }
  }

  lemma WithoutHeld(tools: map<string, Event>, ids: seq<string>, k: nat)
    requires Indexed(tools, ids) && k < |ids| && Indexed(tools - {ids[k]}, ids[..k] + ids[k + 1..])
    ensures HeldOf(tools - {ids[k]}, ids[..k] + ids[k + 1..]) == Without(HeldOf(tools, ids), ids[k])
  {
    HeldIndex(tools, ids, ids[k]);
    var held := HeldOf(tools, ids);
    assert IndexOf(held, ids[k]) == k;
    var rest := HeldOf(tools - {ids[k]}, ids[..k] + ids[k + 1..]);
    forall i | 0 <= i < |rest| ensures rest[i] == (held[..k] + held[k + 1..])[i] {
      assert (ids[..k] + ids[k + 1..])[i] == ids[if i < k then i else i + 1];
    }
    assert rest == held[..k] + held[k + 1..];
  }

  /** The position of a listed tool. */
  method FindId(ids: seq<string>, id: string) returns (k: nat)
    requires id in ids
    ensures k < |ids| && ids[k] == id && id !in ids[..k]
  {
    k := 0;
    while ids[k] != id
      invariant k < |ids| && id in ids[k..] && id !in ids[..k]
      decreases |ids| - k
    {
      k := k + 1;
    }
  }

  /** Moves a cut forward to the start of a rune or to the end. */
  method CutPoint(text: Text, start: nat) returns (cut: nat)
    requires start <= |text|
    ensures cut == NextRuneStart(text, start)
  {
    cut := start;
    while cut < |text| && !IsRuneStart(text[cut])
      invariant start <= cut <= |text|
      invariant NextRuneStart(text, cut) == NextRuneStart(text, start)
    {
      cut := cut + 1;
    }
  }

  class Buffer {
    const win: int
    const maxBytes: int
    const toolLane: bool
    const toolTextAppend: bool
    var tools: map<string, Event>
    var toolIDs: seq<string>
    var toolSince: Time
    var leading: bool
    var tmpl: Event
    var parts: seq<Text>
    var n: int
    var since: Time

    ghost predicate Valid()
      reads this
    {
      && n == |Join(parts)|
      && Indexed(tools, toolIDs)
      && (toolIDs == [] ==> toolSince == 0)
    }

    ghost function Cfg(): Config {
      Config(win, maxBytes, toolLane, toolTextAppend)
    }

    /** The abstract state the fields stand for. */
    ghost function Abs(): State
      requires Valid()
      reads this
    {
      State(
        leading,
        if parts == [] then None else Some(tmpl.(text := Join(parts), time := since)),
        HeldOf(tools, toolIDs),
        toolSince)
    }

    constructor (win: int, maxBytes: int, toolLane: bool, toolTextAppend: bool, blank: Event)
      ensures Valid() && Abs() == INITIAL
      ensures Cfg() == Config(win, maxBytes, toolLane, toolTextAppend)
    {
      this.win, this.maxBytes, this.toolLane, this.toolTextAppend := win, maxBytes, toolLane, toolTextAppend;
      tools, toolIDs, toolSince := map[], [], 0;
      leading, tmpl, parts, n, since := true, blank, [], 0, 0;
    }

    /** One event with all the pending text, or none when there is no text. */
    method DrainRun() returns (out: seq<Event>)
      requires Valid()
      modifies this
      ensures Valid() && Abs() == old(Abs()).(run := None) && out == Drained(old(Abs()).run)
    {
      if parts == [] { return []; }
      out := [tmpl.(text := Join(parts), time := since)];
      parts, n, since := [], 0, 0;
    }

    method DrainHeld() returns (out: seq<Event>)
      requires Valid()
      modifies this
      ensures Valid() && Abs() == SetHeld(old(Abs()), []) && out == old(Abs()).held
    {
      out := [];
      if toolIDs == [] { return; }
      var i := 0;
      while i < |toolIDs|
        invariant 0 <= i <= |toolIDs|
        invariant unchanged(this)
        invariant out == HeldOf(tools, toolIDs)[..i]
      {
        if toolIDs[i] in tools {
          out := out + [tools[toolIDs[i]]];
        }
        i := i + 1;
      }
      tools, toolIDs, toolSince := map[], [], 0;
    }

    predicate CanMerge(ev: Event)
      requires Valid()
      reads this
      ensures CanMerge(ev) <==> Mergeable(Abs().run, ev)
    {
      if ev.replace then false
      else if parts == [] then true
      else if tmpl.replace then false
      else
        && ev.kind == tmpl.kind && ev.session == tmpl.session && ev.agentSession == tmpl.agentSession
        && ev.replay == tmpl.replay && ev.nativeMessage == tmpl.nativeMessage && ev.nativePart == tmpl.nativePart
    }

    function MergeInto(prev: Event, next: Event): (ev: Event)
      ensures ev == Layer(toolTextAppend, prev, next)
    {
      var named := if next.toolName == "" then next.(toolName := prev.toolName) else next;
      var kinded := if named.toolKind == "" then named.(toolKind := prev.toolKind) else named;
      var stated := if kinded.status == "" then kinded.(status := prev.status) else kinded;
      if stated.text == [] then stated.(text := prev.text)
      else if toolTextAppend then stated.(text := prev.text + stated.text)
      else stated
    }

    /** Files an update under its tool, in the tool's place if it has one. */
    method Record(next: Event)
      requires Valid()
      modifies this
      ensures Valid() && Abs() == old(Abs()).(held := Put(old(Abs()).held, next))
      ensures next.toolId in tools && tools[next.toolId] == next
    {
      PutHeld(tools, toolIDs, next);
      if next.toolId !in tools {
        toolIDs := toolIDs + [next.toolId];
      }
      tools := tools[next.toolId := next];
    }

    method Hold(ev: Event)
      requires Valid()
      modifies this
      ensures Valid() && Abs() == HoldTool(Cfg(), old(Abs()), ev)
      ensures ev.toolId in tools && tools[ev.toolId] == Superseding(toolTextAppend, old(Abs()).held, ev)
    {
      HeldIndex(tools, toolIDs, ev.toolId);
      var next := ev;
      var known := ev.toolId in tools;
      if known {
        next := MergeInto(tools[ev.toolId], ev);
      }
      Record(next);
      if !known && toolSince == 0 {
        toolSince := ev.time;
      }
    }

    /** Forgets the update held for `id`. */
    method Forget(id: string)
      requires Valid() && id in tools
      modifies this
      ensures Valid() && Abs() == SetHeld(old(Abs()), Without(old(Abs()).held, id))
    {
      var i := FindId(toolIDs, id);
      WithoutIndexed(tools, toolIDs, i);
      WithoutHeld(tools, toolIDs, i);
      tools, toolIDs := tools - {id}, toolIDs[..i] + toolIDs[i + 1..];
      if |toolIDs| == 0 {
        toolSince := 0;
      }
    }

    method Release(id: string) returns (held: Event)
      requires Valid() && id in tools
      modifies this
      ensures Valid() && Abs() == SetHeld(old(Abs()), Without(old(Abs()).held, id))
      ensures held == old(tools[id])
    {
      held := tools[id];
      Forget(id);
    }

    method Take(ev: Event) returns (merged: Event)
      requires Valid()
      modifies this
      ensures Valid() && merged == Superseding(toolTextAppend, old(Abs()).held, ev)
      ensures Abs() == if IndexOf(old(Abs()).held, ev.toolId) < 0 then old(Abs())
                       else SetHeld(old(Abs()), Without(old(Abs()).held, ev.toolId))
    {
      HeldIndex(tools, toolIDs, ev.toolId);
      if ev.toolId !in tools { return ev; }
      merged := MergeInto(tools[ev.toolId], ev);
      Forget(ev.toolId);
    }

    method PutTool(ev: Event) returns (out: seq<Event>, blocking: bool)
      requires Valid()
      modifies this
      ensures Valid() && (Abs(), out, blocking) == AddTool(Cfg(), old(Abs()), ev)
    {
      if IsTerminalToolStatus(ev.status) {
        var merged := Take(ev);
        return [merged], true;
      }
      Hold(ev);
      if toolTextAppend && |tools[ev.toolId].text| >= maxBytes {
        var held := Release(ev.toolId);
        return [held], true;
      }
      return [], false;
    }

    /** Appends a chunk's text to the pending run. */
    method Collect(ev: Event)
      requires Valid()
      modifies this
      ensures Valid() && Abs() == old(Abs()).(run := Some(Extend(old(Abs()).run, ev)))
      ensures parts != [] && n == |Abs().run.value.text|
    {
      JoinOne(ev.text);
      JoinConcat(parts, [ev.text]);
      assert parts == [] ==> parts + [ev.text] == [ev.text];
      if |parts| == 0 {
        tmpl, since := ev, ev.time;
      }
      parts := parts + [ev.text];
      n := n + |ev.text|;
    }

    method PutChunk(ev: Event) returns (out: seq<Event>)
      requires Valid()
      modifies this
      ensures Valid() && (Abs(), out) == AddChunk(Cfg(), old(Abs()), ev)
    {
      out := [];
      if !CanMerge(ev) {
        out := DrainRun();
        leading := true;
      }
      if leading {
        leading := false;
        assert out == [] ==> out + [ev] == [ev];
        out := out + [ev];
        return;
      }
      Collect(ev);
      if n >= maxBytes {
        out := DrainRun();
      }
    }

    method AddEvent(ev: Event) returns (out: seq<Event>, deadline: Time, blocking: bool)
      requires Valid()
      modifies this
      ensures Valid() && (Abs(), out, blocking) == Add(Cfg(), old(Abs()), ev)
      ensures deadline == if win <= 0 then 0 else Deadline(Cfg(), Abs())
    {
      if win <= 0 { return [ev], 0, IsControl(ev.kind); }
      blocking := false;
      if IsBoundary(ev) {
        var text := DrainRun();
        var held := DrainHeld();
        out := text + held + [ev];
        leading, blocking := true, true;
      } else if toolLane && IsInPlaceUpdate(ev) {
        out, blocking := PutTool(ev);
      } else if !IsChunk(ev.kind) {
        out, blocking := [ev], IsControl(ev.kind);
      } else {
        out := PutChunk(ev);
      }
      deadline := NextDeadline();
    }

    method NextDeadline() returns (d: Time)
      requires Valid()
      ensures d == Deadline(Cfg(), Abs())
    {
      var text, lane := 0, 0;
      if |parts| > 0 { text := since + win; }
      if |toolIDs| > 0 { lane := toolSince + win; }
      if text == 0 { return lane; }
      if lane == 0 { return text; }
      d := if lane < text then lane else text;
    }

    method Prepend(ev: Event)
      requires Valid()
      modifies this
      ensures Valid() && parts != []
      ensures var run := old(Abs()).run;
              Abs() == old(Abs()).(run := Some(if run.Some? then run.value.(text := ev.text + run.value.text) else ev))
    {
      JoinOne(ev.text);
      JoinConcat([ev.text], parts);
      assert parts == [] ==> [ev.text] + parts == [ev.text];
      if |parts| == 0 {
        tmpl, since := ev, ev.time;
      }
      parts := [ev.text] + parts;
      n := n + |ev.text|;
    }

    /** Discards the oldest text of a run that has outgrown the limit. */
    method GuardGrowth() returns (dropped: nat)
      requires Valid() && maxBytes >= 0 && parts != []
      modifies this
      ensures Valid() && dropped == Overflow(Cfg(), old(Join(parts)))
      ensures var run := old(Abs()).run.value;
              Abs() == old(Abs()).(run := Some(run.(text := run.text[dropped..])))
    {
      var limit := GROWTH_FACTOR * maxBytes;
      var text := Join(parts);
      dropped := 0;
      assert text[0..] == text;
      if n > limit {
        dropped := CutPoint(text, |text| - limit);
        JoinOne(text[dropped..]);
        parts := [text[dropped..]];
        n := |parts[0]|;
      }
    }

    /** Puts a refused event's text before whatever is pending; `dropped` counts the bytes given up for lack of room. */
    method PutBack(ev: Event) returns (dropped: nat)
      requires Valid() && maxBytes >= 0
      modifies this
      ensures Valid() && (Abs(), dropped) == Unflush(Cfg(), old(Abs()), ev)
    {
      if win <= 0 || ev.text == [] { return 0; }
      Prepend(ev);
      dropped := GuardGrowth();
    }
  }
}
