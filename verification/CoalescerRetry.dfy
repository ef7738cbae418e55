/** Deliveries that fail: text handed back through Unflush, as the provider sessions do it. */
module CoalescerRetry {
  import opened Common
  import opened Events
  import opened Coalescer
  import opened CoalescerText
  import opened Subsequences

  /** Whether the consumer takes the next event offered without blocking; an absent answer is yes. */
  predicate Takes(answers: seq<bool>) {
    answers == [] || answers[0]
  }

  function Rest(answers: seq<bool>): seq<bool> {
    if answers == [] then [] else answers[1..]
  }

  /** Offers events in order. Control events block until taken; a refused chunk goes back into the buffer. */
  function Offer(c: Config, s: State, out: seq<Event>, blocking: bool, answers: seq<bool>): (State, seq<Event>, nat)
    requires c.maxBytes >= 0
    decreases |out|
  {
    if out == [] then (s, [], 0)
    else if blocking || IsControl(out[0].kind) || Takes(answers) then
      var (s1, taken, dropped) := Offer(c, s, out[1..], blocking, Rest(answers));
      (s1, [out[0]] + taken, dropped)
    else if !IsChunk(out[0].kind) then
      Offer(c, s, out[1..], blocking, Rest(answers))
    else
      var (s1, cut) := Unflush(c, s, out[0]);
      var (s2, taken, dropped) := Offer(c, s1, out[1..], blocking, Rest(answers));
      (s2, taken, cut + dropped)
  }

  datatype Sending = Emit(ev: Event, answers: seq<bool>) | Timer(answer: bool)

  datatype Session = Session(s: State, delivered: seq<Event>, dropped: nat)

  function Send(c: Config, w: Session, op: Sending): Session
    requires c.maxBytes >= 0
  {
    match op
    case Emit(ev, answers) =>
      var (s1, out, blocking) := Add(c, w.s, ev);
      var (s2, taken, dropped) := Offer(c, s1, out, blocking, answers);
      Session(s2, w.delivered + taken, w.dropped + dropped)
    case Timer(answer) =>
      var (s1, taken, dropped) := Offer(c, w.s.(run := None), Drained(w.s.run), false, [answer]);
      Session(s1, w.delivered + taken, w.dropped + dropped)
  }

  function After(c: Config, ops: seq<Sending>): Session
    requires c.maxBytes >= 0
  {
    if ops == [] then Session(INITIAL, [], 0) else Send(c, After(c, ops[..|ops| - 1]), ops[|ops| - 1])
  }

  function Sent(ops: seq<Sending>): seq<Event> {
    if ops == [] then []
    else Sent(ops[..|ops| - 1]) + if ops[|ops| - 1].Emit? then [ops[|ops| - 1].ev] else []
  }

  // ---- one refused event ----

  predicate Small(c: Config, s: State) {
    s.run.Some? ==> |s.run.value.text| <= GROWTH_FACTOR * c.maxBytes
  }

  /** The growth guard cuts at a rune start or at the end, and no later than it must. */
  lemma CutIsAtRuneStart(c: Config, s: State, ev: Event)
    requires c.maxBytes >= 0 && c.win > 0 && ev.text != []
    ensures var (s1, cut) := Unflush(c, s, ev);
            var text := ev.text + if s.run.Some? then s.run.value.text else [];
            && cut <= |text| && s1.run.Some? && s1.run.value.text == text[cut..]
            && (cut == 0 || cut == |text| || IsRuneStart(text[cut]))
            && (cut > 0 ==> |text| > 4 * c.maxBytes)
            && (forall i :: 0 <= i < cut && i >= |text| - 4 * c.maxBytes ==> !IsRuneStart(text[i]))
  {
    assert s.run.None? ==> ev.text + [] == ev.text;
  }

  lemma TaggedSuffix(ev: Event, k: nat)
    requires IsChunk(ev.kind) && k <= |ev.text|
    ensures Tagged(ev.(text := ev.text[k..])) == Tagged(ev)[k..]
  {
    var rest := ev.(text := ev.text[k..]);
    assert TagOf(rest) == TagOf(ev);
    assert forall i :: 0 <= i < |rest.text| ==> Tagged(rest)[i] == Tagged(ev)[k..][i];
  }

  lemma UnflushIntoEmpty(c: Config, s: State, ev: Event)
    requires c.maxBytes >= 0 && c.win > 0 && s.run.None? && !s.leading && Valid(c, s) && IsChunk(ev.kind)
    ensures var (s1, cut) := Unflush(c, s, ev);
            && Valid(c, s1) && Small(c, s1) && !s1.leading
            && cut <= |Tagged(ev)| && Pending(s1) == Tagged(ev)[cut..]
  {
    var (s1, cut) := Unflush(c, s, ev);
    if ev.text != [] {
      TaggedOne(s1.run.value);
      TaggedSuffix(ev, cut);
    }
  }

  lemma UnflushCounts(c: Config, s: State, ev: Event)
    requires c.maxBytes >= 0 && c.win > 0 && Valid(c, s) && Small(c, s) && !s.leading && IsChunk(ev.kind)
    ensures var (s1, cut) := Unflush(c, s, ev);
            && Valid(c, s1) && Small(c, s1) && !s1.leading
            && |Pending(s1)| + cut == |Pending(s)| + |Tagged(ev)|
  {
    var (s1, cut) := Unflush(c, s, ev);
    if s1.run.Some? {
      TaggedOne(s1.run.value);
    }
    if s.run.Some? {
      TaggedOne(s.run.value);
    }
  }

  // ---- counting, for any pattern of refusals ----

  /** A chunk is only ever offered without blocking once a run has begun. */
  predicate Offerable(s: State, out: seq<Event>, blocking: bool) {
    blocking || !s.leading || forall i :: 0 <= i < |out| ==> !IsChunk(out[i].kind)
  }

  lemma {:induction false} TaggedFirst(out: seq<Event>)
    requires out != []
    ensures TaggedAll(out) == Tagged(out[0]) + TaggedAll(out[1..])
  {
    assert out == [out[0]] + out[1..];
    TaggedOne(out[0]);
    TaggedConcat([out[0]], out[1..]);
  }

  lemma {:induction false} OfferCounts(c: Config, s: State, out: seq<Event>, blocking: bool, answers: seq<bool>)
    requires c.maxBytes >= 0 && c.win > 0 && Valid(c, s) && Small(c, s) && Offerable(s, out, blocking)
    ensures var (s1, taken, dropped) := Offer(c, s, out, blocking, answers);
            && Valid(c, s1) && Small(c, s1)
            && |TaggedAll(taken)| + dropped + |Pending(s1)| == |TaggedAll(out)| + |Pending(s)|
    decreases |out|
  {
    if out != [] {
      TaggedFirst(out);
      if blocking || IsControl(out[0].kind) || Takes(answers) {
        OfferCounts(c, s, out[1..], blocking, Rest(answers));
        var taken := Offer(c, s, out[1..], blocking, Rest(answers)).1;
        TaggedConcat([out[0]], taken);
        TaggedOne(out[0]);
      } else if IsChunk(out[0].kind) {
        UnflushCounts(c, s, out[0]);
        OfferCounts(c, Unflush(c, s, out[0]).0, out[1..], blocking, Rest(answers));
      } else {
        OfferCounts(c, s, out[1..], blocking, Rest(answers));
      }
    }
  }

  lemma AddIsOfferable(c: Config, s: State, ev: Event)
    requires c.maxBytes >= 0 && c.win > 0 && Valid(c, s) && Small(c, s)
    ensures var (s1, out, blocking) := Add(c, s, ev);
            Small(c, s1) && Offerable(s1, out, blocking)
  {
    if c.toolLane && IsInPlaceUpdate(ev) {
      SupersedingOk(c, s.held, ev);
    }
  }

  lemma AddCounts(c: Config, s: State, ev: Event)
    requires Valid(c, s)
    ensures var (s1, out, blocking) := Add(c, s, ev);
            && Valid(c, s1)
            && |TaggedAll(out)| + |Pending(s1)| == |Pending(s)| + |Tagged(ev)|
  {
    StepValid(c, s, Arrive(ev));
    StepConserves(c, s, Arrive(ev));
    TaggedOne(ev);
    var (s1, out) := Step(c, s, Arrive(ev));
    assert |TaggedAll(out) + Pending(s1)| == |Pending(s) + Tagged(ev)|;
  }

  lemma SendCounts(c: Config, w: Session, op: Sending)
    requires c.maxBytes >= 0 && c.win > 0 && Valid(c, w.s) && Small(c, w.s)
    ensures var w1 := Send(c, w, op);
            && Valid(c, w1.s) && Small(c, w1.s)
            && |TaggedAll(w1.delivered)| + w1.dropped + |Pending(w1.s)|
               == |TaggedAll(w.delivered)| + w.dropped + |Pending(w.s)| + if op.Emit? then |Tagged(op.ev)| else 0
  {
    match op {
      case Emit(ev, answers) =>
        var (s1, out, blocking) := Add(c, w.s, ev);
        AddIsOfferable(c, w.s, ev);
        AddCounts(c, w.s, ev);
        OfferCounts(c, s1, out, blocking, answers);
        TaggedConcat(w.delivered, Offer(c, s1, out, blocking, answers).1);
      case Timer(answer) =>
        OfferCounts(c, w.s.(run := None), Drained(w.s.run), false, [answer]);
        TaggedConcat(w.delivered, Offer(c, w.s.(run := None), Drained(w.s.run), false, [answer]).1);
    }
  }

  /**
    Whatever the consumer refuses, and in whatever order, no byte goes missing unaccounted for:
    delivered, dropped by the growth guard, and pending add up to what was sent, and what is
    pending never exceeds GROWTH_FACTOR times the byte cap.
   */
  lemma {:induction false} BytesAccountedFor(c: Config, ops: seq<Sending>)
    requires c.maxBytes >= 0 && c.win > 0
    ensures var w := After(c, ops);
            && Valid(c, w.s) && Small(c, w.s) && (w.s.run.Some? ==> |w.s.run.value.text| <= 4 * c.maxBytes)
            && |TaggedAll(w.delivered)| + w.dropped + |Pending(w.s)| == |TaggedAll(Sent(ops))|
  {
    if ops != [] {
      var before, op := ops[..|ops| - 1], ops[|ops| - 1];
      BytesAccountedFor(c, before);
      SendCounts(c, After(c, before), op);
      TaggedConcat(Sent(before), if op.Emit? then [op.ev] else []);
      if op.Emit? {
        TaggedOne(op.ev);
      }
    }
  }

  /** With coalescing disabled a refused chunk is neither kept nor counted, so the accounting needs an enabled buffer. */
  lemma RefusedTextIsKeptIff(c: Config, s: State, ev: Event)
    requires c.maxBytes >= 0 && Valid(c, s) && Small(c, s) && (c.win > 0 ==> !s.leading) && IsChunk(ev.kind)
    ensures var (s1, taken, dropped) := Offer(c, s, [ev], false, [false]);
            && taken == []
            && (|Pending(s1)| + dropped == |Pending(s)| + |ev.text| <==> c.win > 0 || ev.text == [])
  {
    OfferSingle(c, s, ev, false, [false]);
    if c.win > 0 {
      UnflushCounts(c, s, ev);
    }
  }

  /** Every chunk with text was taken when it was offered. */
  predicate AllTaken(ops: seq<Sending>) {
    forall i :: 0 <= i < |ops| && ops[i].Emit? && IsChunk(ops[i].ev.kind) && ops[i].ev.text != [] ==> Takes(ops[i].answers)
  }

  lemma DisabledSend(c: Config, w: Session, op: Sending)
    requires c.maxBytes >= 0 && c.win <= 0 && w.s == INITIAL
    ensures var w1 := Send(c, w, op);
            && w1.s == INITIAL && w1.dropped == w.dropped
            && w1.delivered == w.delivered + TakenOf(op)
  {
    if op.Emit? {
      OfferSingle(c, INITIAL, op.ev, IsControl(op.ev.kind), op.answers);
    } else {
      assert w.delivered + [] == w.delivered;
    }
  }

  /**
    A disabled buffer over a whole history: it never holds anything and never reports a dropped byte, so
    what was delivered accounts for all that was sent if and only if no chunk with text was refused.
   */
  lemma {:induction false} DisabledAccountsIff(c: Config, ops: seq<Sending>)
    requires c.maxBytes >= 0 && c.win <= 0
    ensures After(c, ops).s == INITIAL && After(c, ops).dropped == 0
    ensures |TaggedAll(After(c, ops).delivered)| <= |TaggedAll(Sent(ops))|
    ensures |TaggedAll(After(c, ops).delivered)| == |TaggedAll(Sent(ops))| <==> AllTaken(ops)
  {
    if ops != [] {
      var before, op := ops[..|ops| - 1], ops[|ops| - 1];
      DisabledAccountsIff(c, before);
      DisabledSend(c, After(c, before), op);
      AllTakenSplits(ops);
      TaggedConcat(After(c, before).delivered, TakenOf(op));
      TaggedConcat(Sent(before), SentOf(op));
      LostIff(op);
    }
  }

  /** What a disabled buffer's consumer gets of one call, and what was sent in it. */
  function TakenOf(op: Sending): seq<Event> {
    if op.Emit? && (IsControl(op.ev.kind) || Takes(op.answers)) then [op.ev] else []
  }

  function SentOf(op: Sending): seq<Event> {
    if op.Emit? then [op.ev] else []
  }

  lemma LostIff(op: Sending)
    ensures |TaggedAll(TakenOf(op))| <= |TaggedAll(SentOf(op))|
    ensures |TaggedAll(TakenOf(op))| == |TaggedAll(SentOf(op))| <==> AllTaken([op])
  {
    assert [op][0] == op;
    if op.Emit? {
      TaggedOne(op.ev);
    }
  }

  lemma AllTakenSplits(ops: seq<Sending>)
    requires ops != []
    ensures AllTaken(ops) <==> AllTaken(ops[..|ops| - 1]) && AllTaken([ops[|ops| - 1]])
  {
    var before, op := ops[..|ops| - 1], ops[|ops| - 1];
    assert AllTaken([op]) <==> (op.Emit? && IsChunk(op.ev.kind) && op.ev.text != [] ==> Takes(op.answers)) by {
      assert [op][0] == op;
    }
    assert forall i :: 0 <= i < |before| ==> ops[i] == before[i];
  }

  /** The first refused chunk is already lost without a trace. */
  lemma DisabledLosesText(c: Config, ev: Event)
    requires c.maxBytes >= 0 && c.win <= 0 && IsChunk(ev.kind)
    ensures After(c, [Emit(ev, [false])]) == Session(INITIAL, [], 0)
  {
    assert [Emit(ev, [false])][..0] == [];
    DisabledSend(c, Session(INITIAL, [], 0), Emit(ev, [false]));
  }

  // ---- order ----

  /** When two events are offered, the older one is taken. */
  predicate Orderly(c: Config, w: Session, op: Sending) {
    op.Emit? ==>
      var (_, out, blocking) := Add(c, w.s, op.ev);
      !blocking && |out| == 2 ==> Takes(op.answers)
  }

  ghost predicate AllOrderly(c: Config, ops: seq<Sending>)
    requires c.maxBytes >= 0
  {
    ops != [] ==> AllOrderly(c, ops[..|ops| - 1]) && Orderly(c, After(c, ops[..|ops| - 1]), ops[|ops| - 1])
  }

  /** Everything delivered so far, then everything pending. */
  function Stream(w: Session): seq<(Tag, Byte)> {
    TaggedAll(w.delivered) + Pending(w.s)
  }

  lemma OfferTaken(c: Config, s: State, out: seq<Event>, blocking: bool, answers: seq<bool>)
    requires c.maxBytes >= 0
    requires blocking || forall i :: 0 <= i < |out| ==> IsControl(out[i].kind)
    ensures Offer(c, s, out, blocking, answers) == (s, out, 0)
    decreases |out|
  {
    if out != [] {
      OfferTaken(c, s, out[1..], blocking, Rest(answers));
      assert [out[0]] + out[1..] == out;
    }
  }

  /** `x` is `y` with at most one stretch left out. */
  ghost predicate CutFrom<T>(x: seq<T>, y: seq<T>) {
    exists i: nat, k: nat :: CutAt(x, y, i, k)
  }

  predicate CutAt<T(==)>(x: seq<T>, y: seq<T>, i: nat, k: nat) {
    i <= k <= |y| && x == y[..i] + y[k..]
  }

  lemma CutIsSubseq<T>(d: seq<T>, x: seq<T>, y: seq<T>)
    requires CutFrom(x, y)
    ensures Subseq(d + x, d + y)
  {
    var i: nat, k: nat :| CutAt(x, y, i, k);
    SubseqCut(d + y[..i], y[i..], k - i);
    assert y[i..][k - i..] == y[k..];
    assert d + y[..i] + y[k..] == d + x;
    assert d + y[..i] + y[i..] == d + y;
  }

  lemma SuffixIsCut<T>(older: seq<T>, y: seq<T>, k: nat)
    requires k <= |y|
    ensures CutFrom(older + y[k..], older + y)
  {
    assert (older + y)[..|older|] == older && (older + y)[|older| + k..] == y[k..];
    assert CutAt(older + y[k..], older + y, |older|, |older| + k);
  }

  lemma OfferSingle(c: Config, s: State, ev: Event, blocking: bool, answers: seq<bool>)
    requires c.maxBytes >= 0
    ensures Offer(c, s, [ev], blocking, answers)
            == if blocking || IsControl(ev.kind) || Takes(answers) then (s, [ev], 0)
               else if !IsChunk(ev.kind) then (s, [], 0)
               else (Unflush(c, s, ev).0, [], Unflush(c, s, ev).1)
  {
    assert [ev][1..] == [] && [ev] + [] == [ev];
    var t := if blocking || IsControl(ev.kind) || Takes(answers) || !IsChunk(ev.kind) then s else Unflush(c, s, ev).0;
    assert Offer(c, t, [], blocking, Rest(answers)) == (t, [], 0);
  }

  /** Offering one chunk with nothing pending behind it. */
  lemma OfferOne(c: Config, s: State, ev: Event, answers: seq<bool>)
    requires c.maxBytes >= 0 && c.win > 0 && Valid(c, s) && s.run.None? && IsChunk(ev.kind) && !s.leading
    ensures var (s1, taken, dropped) := Offer(c, s, [ev], false, answers);
            dropped <= |Tagged(ev)| && TaggedAll(taken) + Pending(s1) == Tagged(ev)[dropped..]
  {
    OfferSingle(c, s, ev, false, answers);
    TaggedOne(ev);
    if !Takes(answers) {
      UnflushIntoEmpty(c, s, ev);
    }
  }

  /** What is offered without blocking: nothing, one event that is not text, or the tail of the stream. */
  predicate TailShape(s: State, out: seq<Event>) {
    || out == []
    || (|out| == 1 && !IsChunk(out[0].kind))
    || (s.run.None? && !s.leading && |out| == 1 && IsChunk(out[0].kind))
    || (s.run.None? && !s.leading && |out| == 2 && IsChunk(out[0].kind) && IsChunk(out[1].kind))
  }

  lemma NonBlockingOut(c: Config, s: State, ev: Event)
    requires c.win > 0 && Valid(c, s) && !Add(c, s, ev).2
    ensures TailShape(Add(c, s, ev).0, Add(c, s, ev).1)
  {
    if c.toolLane && IsInPlaceUpdate(ev) {
      SupersedingOk(c, s.held, ev);
    }
  }

  lemma OfferKeepsOrder(c: Config, s: State, out: seq<Event>, answers: seq<bool>)
    requires c.maxBytes >= 0 && c.win > 0 && Valid(c, s) && TailShape(s, out)
    requires |out| == 2 ==> Takes(answers)
    ensures var (s1, taken, _) := Offer(c, s, out, false, answers);
            CutFrom(TaggedAll(taken) + Pending(s1), TaggedAll(out) + Pending(s))
  {
    if |out| == 2 {
      OfferSecond(c, s, out, answers);
    } else if |out| == 1 && IsChunk(out[0].kind) {
      OfferFirst(c, s, out, answers);
    } else {
      OfferNoText(c, s, out, answers);
    }
  }

  lemma OfferFirst(c: Config, s: State, out: seq<Event>, answers: seq<bool>)
    requires c.maxBytes >= 0 && c.win > 0 && Valid(c, s) && s.run.None? && !s.leading
    requires |out| == 1 && IsChunk(out[0].kind)
    ensures var (s1, taken, _) := Offer(c, s, out, false, answers);
            CutFrom(TaggedAll(taken) + Pending(s1), TaggedAll(out) + Pending(s))
  {
    var ev := out[0];
    assert out == [ev];
    OfferOne(c, s, ev, answers);
    TaggedOne(ev);
    var (s1, taken, dropped) := Offer(c, s, out, false, answers);
    SuffixIsCut([], Tagged(ev), dropped);
    assert [] + Tagged(ev)[dropped..] == Tagged(ev)[dropped..];
    assert [] + Tagged(ev) == TaggedAll(out) + Pending(s);
  }

  lemma OfferNoText(c: Config, s: State, out: seq<Event>, answers: seq<bool>)
    requires c.maxBytes >= 0 && |out| <= 1 && forall i :: 0 <= i < |out| ==> !IsChunk(out[i].kind)
    ensures var (s1, taken, _) := Offer(c, s, out, false, answers);
            CutFrom(TaggedAll(taken) + Pending(s1), TaggedAll(out) + Pending(s))
  {
    var (s1, taken, _) := Offer(c, s, out, false, answers);
    TaggedNone(out);
    if out != [] {
      assert out == [out[0]];
      OfferSingle(c, s, out[0], false, answers);
    }
    assert s1 == s && TaggedAll(taken) == [];
    var y := TaggedAll(out) + Pending(s);
    SuffixIsCut([], y, 0);
    assert [] + y[0..] == y && [] + y == y;
  }

  lemma OfferPair(c: Config, s: State, a: Event, b: Event, answers: seq<bool>)
    requires c.maxBytes >= 0 && Takes(answers)
    ensures var (s1, second, dropped) := Offer(c, s, [b], false, Rest(answers));
            Offer(c, s, [a, b], false, answers) == (s1, [a] + second, dropped)
  {
    assert [a, b][1..] == [b];
  }

  lemma OfferSecond(c: Config, s: State, out: seq<Event>, answers: seq<bool>)
    requires c.maxBytes >= 0 && c.win > 0 && Valid(c, s) && s.run.None? && !s.leading && Takes(answers)
    requires |out| == 2 && IsChunk(out[1].kind)
    ensures var (s1, taken, _) := Offer(c, s, out, false, answers);
            CutFrom(TaggedAll(taken) + Pending(s1), TaggedAll(out) + Pending(s))
  {
    var a, b := out[0], out[1];
    assert out == [a, b];
    OfferPair(c, s, a, b, answers);
    OfferOne(c, s, b, Rest(answers));
    var (s1, second, dropped) := Offer(c, s, [b], false, Rest(answers));
    PairCut(Tagged(a), Tagged(b), TaggedAll(second), Pending(s1), dropped);
    TaggedPair(a, second);
    TaggedPair(a, [b]);
    TaggedOne(b);
    assert [a] + [b] == out;
  }

  lemma PairCut<T>(a: seq<T>, b: seq<T>, second: seq<T>, pending: seq<T>, k: nat)
    requires k <= |b| && second + pending == b[k..]
    ensures CutFrom((a + second) + pending, (a + b) + [])
  {
    SuffixIsCut(a, b, k);
    assert (a + second) + pending == a + (second + pending);
    assert (a + b) + [] == a + b;
  }

  lemma TaggedPair(a: Event, rest: seq<Event>)
    ensures TaggedAll([a] + rest) == Tagged(a) + TaggedAll(rest)
  {
    TaggedOne(a);
    TaggedConcat([a], rest);
  }

  /** Offering what a step put out, in terms of the whole stream. */
  lemma StreamKeepsOrder(c: Config, w: Session, s1: State, out: seq<Event>, blocking: bool, answers: seq<bool>,
                         whole: seq<(Tag, Byte)>)
    requires c.maxBytes >= 0 && c.win > 0 && Valid(c, s1) && (blocking || TailShape(s1, out))
    requires !blocking && |out| == 2 ==> Takes(answers)
    requires whole == TaggedAll(w.delivered) + (TaggedAll(out) + Pending(s1))
    ensures var (s2, taken, _) := Offer(c, s1, out, blocking, answers);
            Subseq(TaggedAll(w.delivered + taken) + Pending(s2), whole)
  {
    var (s2, taken, dropped) := Offer(c, s1, out, blocking, answers);
    var d := TaggedAll(w.delivered);
    TaggedConcat(w.delivered, taken);
    Assoc(d, TaggedAll(taken), Pending(s2));
    if blocking {
      OfferTaken(c, s1, out, blocking, answers);
      SubseqRefl(whole);
    } else {
      OfferKeepsOrder(c, s1, out, answers);
      CutIsSubseq(d, TaggedAll(taken) + Pending(s2), TaggedAll(out) + Pending(s1));
    }
  }

  lemma AddFacts(c: Config, s: State, ev: Event)
    requires c.win > 0 && Valid(c, s)
    ensures var (s1, out, blocking) := Add(c, s, ev);
            && Valid(c, s1) && (blocking || TailShape(s1, out))
            && TaggedAll(out) + Pending(s1) == Pending(s) + Tagged(ev)
  {
    StepValid(c, s, Arrive(ev));
    StepConserves(c, s, Arrive(ev));
    TaggedOne(ev);
    if !Add(c, s, ev).2 {
      NonBlockingOut(c, s, ev);
    }
  }

  lemma EmitKeepsOrder(c: Config, w: Session, ev: Event, answers: seq<bool>)
    requires c.maxBytes >= 0 && c.win > 0 && Valid(c, w.s) && Orderly(c, w, Emit(ev, answers))
    ensures Subseq(Stream(Send(c, w, Emit(ev, answers))), Stream(w) + Tagged(ev))
  {
    AddFacts(c, w.s, ev);
    var (s1, out, blocking) := Add(c, w.s, ev);
    Assoc(TaggedAll(w.delivered), Pending(w.s), Tagged(ev));
    StreamKeepsOrder(c, w, s1, out, blocking, answers, Stream(w) + Tagged(ev));
  }

  lemma TimerKeepsOrder(c: Config, w: Session, answer: bool)
    requires c.maxBytes >= 0 && c.win > 0 && Valid(c, w.s)
    ensures Subseq(Stream(Send(c, w, Timer(answer))), Stream(w))
  {
    var s1 := w.s.(run := None);
    assert Pending(w.s) + Pending(s1) == Pending(w.s);
    StreamKeepsOrder(c, w, s1, Drained(w.s.run), false, [answer], Stream(w));
  }

  /**
    As long as the older of two offered events is never the one refused, delivered text followed by
    pending text is the sent text, tags and all, with stretches left out but never reordered.
   */
  lemma {:induction false} DeliveryIsSubsequence(c: Config, ops: seq<Sending>)
    requires c.maxBytes >= 0 && c.win > 0 && AllOrderly(c, ops)
    ensures Subseq(Stream(After(c, ops)), TaggedAll(Sent(ops)))
    ensures Subseq(TaggedAll(After(c, ops).delivered), TaggedAll(Sent(ops)))
  {
    var w := After(c, ops);
    if ops != [] {
      var before, op := ops[..|ops| - 1], ops[|ops| - 1];
      var w0 := After(c, before);
      var arrived := if op.Emit? then Tagged(op.ev) else [];
      DeliveryIsSubsequence(c, before);
      BytesAccountedFor(c, before);
      match op {
        case Emit(ev, answers) => EmitKeepsOrder(c, w0, ev, answers);
        case Timer(answer) =>
          TimerKeepsOrder(c, w0, answer);
          assert Stream(w0) + [] == Stream(w0);
      }
      SubseqAppend(Stream(w0), TaggedAll(Sent(before)), arrived);
      SubseqTrans(Stream(w), Stream(w0) + arrived, TaggedAll(Sent(before)) + arrived);
      TaggedConcat(Sent(before), if op.Emit? then [op.ev] else []);
      if op.Emit? {
        TaggedOne(op.ev);
      }
    }
    SubseqRefl(TaggedAll(w.delivered));
    SubseqLonger(TaggedAll(w.delivered), TaggedAll(w.delivered), Pending(w.s));
    SubseqTrans(TaggedAll(w.delivered), Stream(w), TaggedAll(Sent(ops)));
  }

  /**
    The order condition is exact. When a run is displaced by a chunk of another run, the two are
    offered together, and the stream keeps its order if and only if the older one is taken: a refused
    older event is put back behind, or in front of and under the identity of, the newer one.
   */
  lemma DisplacedRunKeepsOrderIff(c: Config, s: State, ev: Event, answers: seq<bool>)
    requires c.win > 0 && Valid(c, s) && s.run.Some? && IsChunk(ev.kind) && !Mergeable(s.run, ev)
    requires s.run.value.text != [] && ev.text != [] && !(s.run.value.replace && ev.replace)
    requires 0 < |s.run.value.text| + |ev.text| <= GROWTH_FACTOR * c.maxBytes
    ensures var (s1, out, blocking) := Add(c, s, ev);
            var (s2, taken, dropped) := Offer(c, s1, out, blocking, answers);
            && dropped == 0
            && (TaggedAll(taken) + Pending(s2) == Pending(s) + Tagged(ev) <==> Takes(answers))
  {
    var s1 := s.(leading := false, run := None);
    assert Drained(s.run) + [ev] == [s.run.value, ev];
    TaggedOne(s.run.value);
    DifferentTags(s.run.value, ev);
    if Takes(answers) {
      OlderTaken(c, s1, s.run.value, ev, answers);
    } else {
      OlderRefused(c, s1, s.run.value, ev, answers);
    }
  }

  lemma OlderTaken(c: Config, s: State, a: Event, b: Event, answers: seq<bool>)
    requires c.win > 0 && s.run.None? && IsChunk(a.kind) && IsChunk(b.kind) && Takes(answers)
    requires 0 < |b.text| <= GROWTH_FACTOR * c.maxBytes
    ensures var (s2, taken, dropped) := Offer(c, s, [a, b], false, answers);
            dropped == 0 && TaggedAll(taken) + Pending(s2) == Tagged(a) + Tagged(b)
  {
    OfferPair(c, s, a, b, answers);
    OfferSingle(c, s, b, false, Rest(answers));
    TaggedPair(a, [b]);
    TaggedOne(a);
    TaggedOne(b);
    assert b.text[0..] == b.text && [a] + [] == [a];
  }

  lemma OlderRefused(c: Config, s: State, a: Event, b: Event, answers: seq<bool>)
    requires c.win > 0 && s.run.None? && IsChunk(a.kind) && IsChunk(b.kind) && !Takes(answers)
    requires a.text != [] && b.text != [] && |a.text| + |b.text| <= GROWTH_FACTOR * c.maxBytes
    requires TagOf(a) != TagOf(b)
    ensures var (s2, taken, dropped) := Offer(c, s, [a, b], false, answers);
            dropped == 0 && TaggedAll(taken) + Pending(s2) != Tagged(a) + Tagged(b)
  {
    var s1 := s.(run := Some(a));
    var mixed := a.(text := b.text + a.text);
    assert [a, b][1..] == [b];
    UnflushFits(c, s, a);
    UnflushFits(c, s1, b);
    OfferSingle(c, s1, b, false, Rest(answers));
    TaggedOne(a);
    TaggedOne(b);
    TaggedOne(mixed);
    SwappedDiffers(a, b);
    MixedDiffers(a, b);
  }

  lemma SwappedDiffers(a: Event, b: Event)
    requires IsChunk(a.kind) && IsChunk(b.kind) && a.text != [] && b.text != [] && TagOf(a) != TagOf(b)
    ensures Tagged(b) + Tagged(a) != Tagged(a) + Tagged(b)
  {
    assert (Tagged(b) + Tagged(a))[0].0 != (Tagged(a) + Tagged(b))[0].0;
  }

  lemma MixedDiffers(a: Event, b: Event)
    requires IsChunk(a.kind) && IsChunk(b.kind) && a.text != [] && b.text != [] && TagOf(a) != TagOf(b)
    ensures Tagged(a.(text := b.text + a.text)) != Tagged(a) + Tagged(b)
  {
    var mixed := a.(text := b.text + a.text);
    var k := |mixed.text| - 1;
    assert TagOf(mixed) == TagOf(a) && Tagged(mixed)[k].0 == TagOf(a);
    assert (Tagged(a) + Tagged(b))[k] == Tagged(b)[|b.text| - 1];
  }

  /** Putting text back when there is room for it. */
  lemma UnflushFits(c: Config, s: State, ev: Event)
    requires c.win > 0 && c.maxBytes >= 0 && ev.text != []
    requires |ev.text| + (if s.run.Some? then |s.run.value.text| else 0) <= GROWTH_FACTOR * c.maxBytes
    ensures Unflush(c, s, ev)
            == (s.(run := Some(if s.run.Some? then s.run.value.(text := ev.text + s.run.value.text) else ev)), 0)
  {
    var run := if s.run.Some? then s.run.value.(text := ev.text + s.run.value.text) else ev;
    assert run.text[0..] == run.text;
  }

  lemma DifferentTags(a: Event, b: Event)
    requires !Mergeable(Some(a), b) && !(a.replace && b.replace)
    ensures TagOf(a) != TagOf(b)
  {
  }
}
