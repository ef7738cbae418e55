/**
  The certificate-order cooldown of internal/certs/acme_cooldown.go, as internal/certs/acme.go calls it: after
  a failed validation no new order is placed for the same names until the authority has refilled one failure
  (problem types: section 6.7 of RFC 8555).
 */
module IssuanceCooldown {
  import opened Common
  import opened GoStrings
  import opened SortedNames

  /** Seconds. */
  type Time = int

  const COOLDOWN: Time := 12 * 60
  const FUTURE_SLACK: Time := 60
  const HOUR: Time := 60 * 60

  /** The failure record; an absent file, or one that does not parse, is None. */
  datatype Failure = Failure(directory: string, names: seq<string>, failedAt: Time)

  function Normal(name: string): string {
    ToLower(TrimSpace(name))
  }

  function Normals(names: seq<string>): seq<string> {
    seq(|names|, i requires 0 <= i < |names| => Normal(names[i]))
  }

  /** One list of normal forms for every way of writing a name set. */
  function Key(names: seq<string>): seq<string> {
    Sort(Normals(names))
  }

  /** A record written under a clock that was wrong by more than the slack. */
  predicate FromTheFuture(f: Failure, now: Time) {
    f.failedAt > now + FUTURE_SLACK
  }

  predicate SameOrder(f: Failure, directory: string, names: seq<string>) {
    f.directory == directory && f.names == Key(names)
  }

  predicate Blocks(record: Option<Failure>, directory: string, names: seq<string>, now: Time) {
    && record.Some? && SameOrder(record.value, directory, names)
    && !FromTheFuture(record.value, now) && now < record.value.failedAt + COOLDOWN
  }

  /** The record after it was looked at: one from the future is removed. */
  function Looked(record: Option<Failure>, directory: string, names: seq<string>, now: Time): Option<Failure> {
    if record.Some? && SameOrder(record.value, directory, names) && FromTheFuture(record.value, now) then None else record
  }

  /** What loading a name's certificate from storage answers. */
  datatype Stored = Present | Absent | Unreadable

  /** How an order that was placed ended. */
  datatype Order = Issued | ValidationFailed | OtherError

  /**
    One start: the names, the clock at the check and after the order, whether the record file could be read,
    the storage, the order, and whether writing and removing the record succeed.
   */
  datatype Start = Start(
    directory: string, names: seq<string>, checkedAt: Time, endedAt: Time, readable: bool,
    stored: seq<Stored>, order: Order, recorded: bool, cleared: bool)

  datatype Result = Refused | Served | Recorded(at: Time) | Unrecorded

  predicate WellPosed(a: Start) {
    |a.stored| == |a.names| && a.checkedAt <= a.endedAt
  }

  predicate WouldOrder(a: Start) {
    exists i :: 0 <= i < |a.stored| && a.stored[i].Absent?
  }

  /** The record after a start has looked at it; a record that cannot be read is left alone and blocks nothing. */
  function Seen(record: Option<Failure>, a: Start): Option<Failure> {
    if a.readable then Looked(record, a.directory, a.names, a.checkedAt) else record
  }

  function Attempt(record: Option<Failure>, a: Start): (Option<Failure>, Result) {
    var seen := Seen(record, a);
    if a.readable && Blocks(record, a.directory, a.names, a.checkedAt) && WouldOrder(a) then (seen, Refused)
    else match a.order
      case Issued => (if a.cleared then None else seen, Served)
      case ValidationFailed =>
        if a.recorded then (Some(Failure(a.directory, Key(a.names), a.endedAt)), Recorded(a.endedAt)) else (seen, Unrecorded)
      case OtherError => (seen, Unrecorded)
  }

  function RecordAfter(record: Option<Failure>, starts: seq<Start>): Option<Failure> {
    if starts == [] then record else Attempt(RecordAfter(record, starts[..|starts| - 1]), starts[|starts| - 1]).0
  }

  function ResultAt(record: Option<Failure>, starts: seq<Start>, i: nat): Result
    requires i < |starts|
  {
    Attempt(RecordAfter(record, starts[..i]), starts[i]).1
  }

  /** The times of the recorded failures, in order. */
  function FailureTimes(record: Option<Failure>, starts: seq<Start>): seq<Time> {
    if starts == [] then []
    else
      var r := ResultAt(record, starts, |starts| - 1);
      FailureTimes(record, starts[..|starts| - 1]) + if r.Recorded? then [r.at] else []
  }

  // ---- names ----

  lemma KeyIgnoresOrder(a: seq<string>, b: seq<string>)
    ensures Key(a) == Key(b) <==> multiset(Normals(a)) == multiset(Normals(b))
  {
    SortIgnoresOrder(Normals(a), Normals(b));
  }

  /** Writing the same names in another order, another case, or with spaces around them does not evade the record. */
  lemma RespellingDoesNotEvade(record: Option<Failure>, directory: string, a: seq<string>, b: seq<string>, now: Time)
    requires multiset(Normals(a)) == multiset(Normals(b))
    ensures Blocks(record, directory, a, now) <==> Blocks(record, directory, b, now)
  {
    KeyIgnoresOrder(a, b);
  }

  lemma NormalIgnoresCase(name: string)
    ensures Normal(ToUpper(name)) == Normal(name) && Normal(ToLower(name)) == Normal(name)
  {
    TrimCase(name, ToUpper(name));
    TrimCase(name, ToLower(name));
  }

  /** Trimming looks only at spaces, which have no case. */
  lemma {:induction false} TrimCase(s: string, t: string)
    requires |s| == |t| && forall i :: 0 <= i < |s| ==> LowerChar(s[i]) == LowerChar(t[i])
    ensures ToLower(TrimSpace(s)) == ToLower(TrimSpace(t))
  {
    TrimLeftCase(s, t);
    TrimRightCase(TrimLeft(s), TrimLeft(t));
  }

  lemma {:induction false} TrimLeftCase(s: string, t: string)
    requires |s| == |t| && forall i :: 0 <= i < |s| ==> LowerChar(s[i]) == LowerChar(t[i])
    ensures |TrimLeft(s)| == |TrimLeft(t)|
    ensures forall i :: 0 <= i < |TrimLeft(s)| ==> LowerChar(TrimLeft(s)[i]) == LowerChar(TrimLeft(t)[i])
  {
    if s != "" && IsSpace(s[0]) {
      TrimLeftCase(s[1..], t[1..]);
    }
  }

  lemma {:induction false} TrimRightCase(s: string, t: string)
    requires |s| == |t| && forall i :: 0 <= i < |s| ==> LowerChar(s[i]) == LowerChar(t[i])
    ensures |TrimRight(s)| == |TrimRight(t)|
    ensures forall i :: 0 <= i < |TrimRight(s)| ==> LowerChar(TrimRight(s)[i]) == LowerChar(TrimRight(t)[i])
  {
    if s != "" && IsSpace(s[|s| - 1]) {
      TrimRightCase(s[..|s| - 1], t[..|t| - 1]);
    }
  }

  // ---- the rate ----

  /**
    Starts of one deployment, one after another: same directory, same names however spelled, some name unissued,
    and the record readable each time, as a start that cannot read it goes ahead.
   */
  predicate OneDeployment(directory: string, key: seq<string>, starts: seq<Start>) {
    && (forall i :: 0 <= i < |starts| ==>
          WellPosed(starts[i]) && WouldOrder(starts[i]) && starts[i].readable
          && starts[i].directory == directory && Key(starts[i].names) == key)
    && (forall i, j :: 0 <= i < j < |starts| ==> starts[i].endedAt <= starts[j].checkedAt)
  }

  /** After a failure at `f`, either its record stands or the cooldown has run out by the clock. */
  predicate Guarded(record: Option<Failure>, directory: string, key: seq<string>, f: Time, clock: Time) {
    record == Some(Failure(directory, key, f)) || f + COOLDOWN <= clock
  }

  function Clock(starts: seq<Start>): Time
    requires starts != []
  {
    starts[|starts| - 1].endedAt
  }

  predicate Spaced(ts: seq<Time>) {
    forall i :: 0 < i < |ts| ==> ts[i - 1] + COOLDOWN <= ts[i]
  }

  /** The latest recorded failure, if any, is past and still guarded. */
  predicate LastGuarded(ts: seq<Time>, record: Option<Failure>, directory: string, key: seq<string>, clock: Time) {
    ts != [] ==> ts[|ts| - 1] <= clock && Guarded(record, directory, key, ts[|ts| - 1], clock)
  }

  lemma {:induction false} LastFailureGuards(record: Option<Failure>, directory: string, key: seq<string>, starts: seq<Start>)
    requires OneDeployment(directory, key, starts)
    ensures Spaced(FailureTimes(record, starts))
    ensures starts == [] ==> FailureTimes(record, starts) == []
    ensures starts != [] ==>
              LastGuarded(FailureTimes(record, starts), RecordAfter(record, starts), directory, key, Clock(starts))
  {
    if starts != [] {
      var n := |starts| - 1;
      var before, a := starts[..n], starts[n];
      LastFailureGuards(record, directory, key, before);
      if before != [] {
        assert Clock(before) == starts[n - 1].endedAt <= a.checkedAt;
      }
      NextFailureGuards(FailureTimes(record, before), RecordAfter(record, before), directory, key,
                        if before == [] then a.checkedAt else Clock(before), a);
    }
  }

  lemma NextFailureGuards(ts: seq<Time>, record: Option<Failure>, directory: string, key: seq<string>, clock: Time, a: Start)
    requires Spaced(ts) && LastGuarded(ts, record, directory, key, clock)
    requires clock <= a.checkedAt <= a.endedAt && WouldOrder(a) && a.readable && a.directory == directory && Key(a.names) == key
    ensures var (next, r) := Attempt(record, a);
            var ts' := ts + if r.Recorded? then [r.at] else [];
            Spaced(ts') && LastGuarded(ts', next, directory, key, a.endedAt)
  {
    if ts != [] {
      StepGuards(record, directory, key, ts[|ts| - 1], clock, a);
    }
  }

  lemma StepGuards(record: Option<Failure>, directory: string, key: seq<string>, f: Time, clock: Time, a: Start)
    requires Guarded(record, directory, key, f, clock) && f <= clock <= a.checkedAt <= a.endedAt && WouldOrder(a)
    requires a.readable && a.directory == directory && Key(a.names) == key
    ensures var (next, r) := Attempt(record, a);
            && (r.Recorded? ==> f + COOLDOWN <= r.at)
            && (!r.Recorded? ==> Guarded(next, directory, key, f, a.endedAt))
  {
  }

  /** Any two recorded validation failures of one deployment are at least one refill interval apart. */
  lemma FailuresAreSpaced(record: Option<Failure>, directory: string, key: seq<string>, starts: seq<Start>, i: nat, j: nat)
    requires OneDeployment(directory, key, starts) && i < j < |FailureTimes(record, starts)|
    ensures FailureTimes(record, starts)[i] + (j - i) * COOLDOWN <= FailureTimes(record, starts)[j]
  {
    LastFailureGuards(record, directory, key, starts);
    SpacedFar(FailureTimes(record, starts), i, j);
  }

  lemma {:induction false} SpacedFar(ts: seq<Time>, i: nat, j: nat)
    requires Spaced(ts) && i < j < |ts|
    ensures ts[i] + (j - i) * COOLDOWN <= ts[j]
    decreases j
  {
    if i < j - 1 {
      SpacedFar(ts, i, j - 1);
    }
  }

  /** So no half-open hour holds more than five of them, whatever the service manager does. */
  lemma HourHoldsAtMostFive(record: Option<Failure>, directory: string, key: seq<string>, starts: seq<Start>, from: Time, i: nat, j: nat)
    requires OneDeployment(directory, key, starts) && i <= j < |FailureTimes(record, starts)|
    requires from <= FailureTimes(record, starts)[i] && FailureTimes(record, starts)[j] < from + HOUR
    ensures j - i + 1 <= 5
  {
    LastFailureGuards(record, directory, key, starts);
    SpacedHour(FailureTimes(record, starts), from, i, j);
  }

  lemma SpacedHour(ts: seq<Time>, from: Time, i: nat, j: nat)
    requires Spaced(ts) && i <= j < |ts| && from <= ts[i] && ts[j] < from + HOUR
    ensures j - i < 5
  {
    if i < j {
      SpacedFar(ts, i, j);
      FiveIntervalsFillAnHour(ts[i], ts[j], from, j - i);
    }
  }

  lemma FiveIntervalsFillAnHour(first: Time, last: Time, from: Time, gaps: nat)
    requires first + gaps * COOLDOWN <= last && from <= first && last < from + HOUR
    ensures gaps < 5
  {
  }

  /** The record holds one name set: alternating two in one storage directory lets each fail again at once. */
  lemma AlternatingNamesEvade()
    ensures var a := Start("ca", ["a"], 0, 0, true, [Absent], ValidationFailed, true, true);
            var b := a.(names := ["b"], checkedAt := 1, endedAt := 1);
            var c := a.(checkedAt := 2, endedAt := 2);
            FailureTimes(None, [a, b, c]) == [0, 1, 2]
  {
    var a := Start("ca", ["a"], 0, 0, true, [Absent], ValidationFailed, true, true);
    var b := a.(names := ["b"], checkedAt := 1, endedAt := 1);
    var c := a.(checkedAt := 2, endedAt := 2);
    DifferentKeys();
    ThreeStarts(a, b, c);
  }

  lemma DifferentKeys()
    ensures Key(["a"]) != Key(["b"])
  {
    assert multiset(Normals(["a"])) != multiset(Normals(["b"])) by {
      assert Normals(["a"])[0] == "a" && Normals(["b"])[0] == "b";
      assert "a" in multiset(Normals(["a"])) && "a" !in multiset(Normals(["b"]));
    }
    KeyIgnoresOrder(["a"], ["b"]);
  }

  /** A failed order for one name set overwrites the record of another, so neither guards its own. */
  lemma ThreeStarts(a: Start, b: Start, c: Start)
    requires a.order == b.order == c.order == ValidationFailed && a.recorded && b.recorded && c.recorded
    requires a.directory == b.directory == c.directory && Key(a.names) == Key(c.names) && Key(a.names) != Key(b.names)
    ensures FailureTimes(None, [a, b, c]) == [a.endedAt, b.endedAt, c.endedAt]
  {
    var first := Some(Failure(a.directory, Key(a.names), a.endedAt));
    var second := Some(Failure(b.directory, Key(b.names), b.endedAt));
    assert [a, b, c][..2] == [a, b] && [a, b][..1] == [a] && [a][..0] == [];
    assert Attempt(None, a) == (first, Recorded(a.endedAt));
    assert Attempt(first, b) == (second, Recorded(b.endedAt));
    assert Attempt(second, c).1 == Recorded(c.endedAt);
    assert RecordAfter(None, [a]) == first;
    assert RecordAfter(None, [a, b]) == second;
    assert FailureTimes(None, [a]) == [a.endedAt];
    assert FailureTimes(None, [a, b]) == [a.endedAt, b.endedAt];
  }

  // ---- who guards whom ----

  predicate SameDeployment(a: Start, directory: string, key: seq<string>) {
    a.directory == directory && Key(a.names) == key
  }

  /** The start at `i` recorded a failure of this deployment. */
  predicate Renews(record: Option<Failure>, starts: seq<Start>, i: nat, directory: string, key: seq<string>)
    requires i < |starts|
  {
    ResultAt(record, starts, i).Recorded? && SameDeployment(starts[i], directory, key)
  }

  /** The start at `i` overwrote or removed the record, and not with a failure of this deployment. */
  predicate Disturbs(record: Option<Failure>, starts: seq<Start>, i: nat, directory: string, key: seq<string>)
    requires i < |starts|
  {
    Touches(record, starts, i) && !Renews(record, starts, i, directory, key)
  }

  /** Every disturbance was followed by a failure of this deployment that was recorded. */
  predicate Guarding(record: Option<Failure>, starts: seq<Start>, directory: string, key: seq<string>) {
    forall i :: 0 <= i < |starts| && Disturbs(record, starts, i, directory, key) ==>
      exists j :: i < j < |starts| && Renews(record, starts, j, directory, key)
  }

  /** Starts one after another, none before `from`. */
  predicate InOrder(from: Time, starts: seq<Start>) {
    && (forall i :: 0 <= i < |starts| ==> from <= starts[i].checkedAt <= starts[i].endedAt)
    && (forall i, j :: 0 <= i < j < |starts| ==> starts[i].endedAt <= starts[j].checkedAt)
  }

  /** The record is this deployment's own. */
  predicate Stands(record: Option<Failure>, directory: string, key: seq<string>) {
    record.Some? && record.value.directory == directory && record.value.names == key
  }

  predicate Recent(record: Option<Failure>, from: Time, clock: Time) {
    record.Some? ==> from <= record.value.failedAt <= clock
  }

  /** What one start does to the record, by how it ended. */
  lemma AttemptLeaves(record: Option<Failure>, a: Start, from: Time, clock: Time)
    requires Recent(record, from, clock) && from <= clock <= a.checkedAt <= a.endedAt
    ensures var (next, r) := Attempt(record, a);
            && Recent(next, from, a.endedAt)
            && next == if r.Recorded? then Some(Failure(a.directory, Key(a.names), a.endedAt))
                       else if r.Served? && a.cleared then None else record
  {
  }

  /** The record is this deployment's own exactly while it is guarding. */
  lemma {:induction false} StandsIffGuarding(record: Option<Failure>, starts: seq<Start>, directory: string, key: seq<string>, from: Time)
    requires Stands(record, directory, key) && Recent(record, from, from) && InOrder(from, starts)
    ensures Recent(RecordAfter(record, starts), from, if starts == [] then from else Clock(starts))
    ensures Stands(RecordAfter(record, starts), directory, key) <==> Guarding(record, starts, directory, key)
  {
    if starts != [] {
      var n := |starts| - 1;
      var before, a := starts[..n], starts[n];
      StandsIffGuarding(record, before, directory, key, from);
      AttemptLeaves(RecordAfter(record, before), a, from, if before == [] then from else Clock(before));
      GuardingSplits(record, starts, directory, key);
    }
  }

  lemma GuardingSplits(record: Option<Failure>, starts: seq<Start>, directory: string, key: seq<string>)
    requires starts != []
    ensures var n := |starts| - 1;
            Guarding(record, starts, directory, key)
            <==> || Renews(record, starts, n, directory, key)
                 || (Guarding(record, starts[..n], directory, key) && !Disturbs(record, starts, n, directory, key))
  {
    var n := |starts| - 1;
    if Renews(record, starts, n, directory, key) {
      assert !Disturbs(record, starts, n, directory, key);
    } else if Guarding(record, starts, directory, key) {
      GuardingBefore(record, starts, directory, key);
    } else if Guarding(record, starts[..n], directory, key) && !Disturbs(record, starts, n, directory, key) {
      GuardingAfter(record, starts, directory, key);
    }
  }

  lemma GuardingBefore(record: Option<Failure>, starts: seq<Start>, directory: string, key: seq<string>)
    requires starts != [] && Guarding(record, starts, directory, key) && !Renews(record, starts, |starts| - 1, directory, key)
    ensures Guarding(record, starts[..|starts| - 1], directory, key) && !Disturbs(record, starts, |starts| - 1, directory, key)
  {
    var before := starts[..|starts| - 1];
    forall i | 0 <= i < |before| && Disturbs(record, before, i, directory, key)
      ensures exists j :: i < j < |before| && Renews(record, before, j, directory, key)
    {
      PrefixResult(record, starts, i, directory, key);
      var j :| i < j < |starts| && Renews(record, starts, j, directory, key);
      PrefixResult(record, starts, j, directory, key);
    }
  }

  lemma GuardingAfter(record: Option<Failure>, starts: seq<Start>, directory: string, key: seq<string>)
    requires starts != [] && Guarding(record, starts[..|starts| - 1], directory, key)
    requires !Disturbs(record, starts, |starts| - 1, directory, key)
    ensures Guarding(record, starts, directory, key)
  {
    var before := starts[..|starts| - 1];
    forall i | 0 <= i < |starts| && Disturbs(record, starts, i, directory, key)
      ensures exists j :: i < j < |starts| && Renews(record, starts, j, directory, key)
    {
      PrefixResult(record, starts, i, directory, key);
      var j :| i < j < |before| && Renews(record, before, j, directory, key);
      PrefixResult(record, starts, j, directory, key);
    }
  }

  lemma PrefixResult(record: Option<Failure>, starts: seq<Start>, i: nat, directory: string, key: seq<string>)
    requires i < |starts| - 1
    ensures Disturbs(record, starts[..|starts| - 1], i, directory, key) <==> Disturbs(record, starts, i, directory, key)
    ensures Renews(record, starts[..|starts| - 1], i, directory, key) <==> Renews(record, starts, i, directory, key)
  {
    assert starts[..|starts| - 1][..i] == starts[..i];
  }

  /**
    The cooldown, exactly: after a recorded failure and any starts since, of any deployments, the next start of
    this deployment inside the cooldown, with a name still to be ordered, is refused if and only if it can read
    the record and everything that overwrote or removed the record was followed by a failure of its own.
   */
  lemma RefusedIffGuarding(failure: Failure, starts: seq<Start>, b: Start)
    requires InOrder(failure.failedAt, starts + [b])
    requires SameDeployment(b, failure.directory, failure.names) && WouldOrder(b) && b.checkedAt < failure.failedAt + COOLDOWN
    ensures Attempt(RecordAfter(Some(failure), starts), b).1 == Refused
            <==> b.readable && Guarding(Some(failure), starts, failure.directory, failure.names)
  {
    var all := starts + [b];
    assert all[|starts|] == b && forall i :: 0 <= i < |starts| ==> all[i] == starts[i];
    StandsIffGuarding(Some(failure), starts, failure.directory, failure.names, failure.failedAt);
  }

  /** When every start since was of another deployment: refused if and only if none of them recorded or removed. */
  lemma OthersEvadeIff(failure: Failure, starts: seq<Start>, b: Start)
    requires InOrder(failure.failedAt, starts + [b]) && b.readable
    requires SameDeployment(b, failure.directory, failure.names) && WouldOrder(b) && b.checkedAt < failure.failedAt + COOLDOWN
    requires forall i :: 0 <= i < |starts| ==> !SameDeployment(starts[i], failure.directory, failure.names)
    ensures Attempt(RecordAfter(Some(failure), starts), b).1 == Refused
            <==> forall i :: 0 <= i < |starts| ==> !Touches(Some(failure), starts, i)
  {
    RefusedIffGuarding(failure, starts, b);
    GuardingAmongOthers(Some(failure), starts, failure.directory, failure.names);
  }

  /** The start at `i` recorded a failure or removed the record. */
  predicate Touches(record: Option<Failure>, starts: seq<Start>, i: nat)
    requires i < |starts|
  {
    ResultAt(record, starts, i).Recorded? || (ResultAt(record, starts, i).Served? && starts[i].cleared)
  }

  lemma GuardingAmongOthers(record: Option<Failure>, starts: seq<Start>, directory: string, key: seq<string>)
    requires forall i :: 0 <= i < |starts| ==> !SameDeployment(starts[i], directory, key)
    ensures Guarding(record, starts, directory, key) <==> forall i :: 0 <= i < |starts| ==> !Touches(record, starts, i)
  {
    assert forall i :: 0 <= i < |starts| ==> !Renews(record, starts, i, directory, key);
    assert forall i :: 0 <= i < |starts| ==> (Touches(record, starts, i) <==> Disturbs(record, starts, i, directory, key));
  }

  /** An overwritten record can come back: a failure of its own, recorded since, guards the deployment again. */
  lemma OwnFailureGuardsAgain(failure: Failure, a: Start, b: Start, next: Start)
    requires InOrder(failure.failedAt, [a, b] + [next])
    requires a.order == b.order == ValidationFailed && a.recorded && b.recorded && next.readable && WouldOrder(next)
    requires !SameDeployment(a, failure.directory, failure.names)
    requires SameDeployment(b, failure.directory, failure.names) && SameDeployment(next, failure.directory, failure.names)
    requires next.checkedAt < failure.failedAt + COOLDOWN
    ensures ResultAt(Some(failure), [a, b], 0).Recorded? && ResultAt(Some(failure), [a, b], 1).Recorded?
    ensures Attempt(RecordAfter(Some(failure), [a, b]), next).1 == Refused
  {
    var record := Some(failure);
    assert [a, b][..1] == [a] && [a, b][..0] == [] && [a][..0] == [];
    assert Attempt(record, a) == (Some(Failure(a.directory, Key(a.names), a.endedAt)), Recorded(a.endedAt));
    assert RecordAfter(record, [a]) == Attempt(record, a).0;
    assert Renews(record, [a, b], 1, failure.directory, failure.names);
    RefusedIffGuarding(failure, [a, b], next);
  }

  // ---- when a start is refused ----

  /** A refusal always has its reason on record: an unexpired failure of the same directory and names, not from the future. */
  lemma RefusedIff(record: Option<Failure>, a: Start)
    ensures Attempt(record, a).1 == Refused
            <==> && a.readable && record.Some? && record.value.directory == a.directory
                 && record.value.names == Key(a.names)
                 && record.value.failedAt <= a.checkedAt + 60 && a.checkedAt < record.value.failedAt + 720
                 && exists i :: 0 <= i < |a.stored| && a.stored[i].Absent?
  {
  }

  /** A record from more than a minute ahead was written under a wrong clock: it refuses nobody and does not outlive the start. */
  lemma FutureRecordIsDropped(record: Option<Failure>, a: Start)
    requires a.readable && record.Some? && SameOrder(record.value, a.directory, a.names)
    requires record.value.failedAt > a.checkedAt + 60
    ensures Attempt(record, a).1 != Refused
    ensures Attempt(record, a).0 == if Attempt(record, a).1.Recorded? then Some(Failure(a.directory, Key(a.names), a.endedAt)) else None
  {
  }

  lemma {:induction false} RecordCameFrom(record: Option<Failure>, starts: seq<Start>)
    ensures RecordAfter(record, starts).None? || RecordAfter(record, starts) == record
            || exists i :: 0 <= i < |starts| && WroteRecord(record, starts, i)
  {
    if starts != [] {
      var n := |starts| - 1;
      RecordCameFrom(record, starts[..n]);
      if ResultAt(record, starts, n).Recorded? {
        assert WroteRecord(record, starts, n);
      } else if i :| 0 <= i < n && WroteRecord(record, starts[..n], i) {
        if RecordAfter(record, starts).Some? {
          assert starts[..n][..i] == starts[..i];
          assert WroteRecord(record, starts, i);
        }
      }
    }
  }

  /** The start at `i` recorded the failure that is on record at the end. */
  predicate WroteRecord(record: Option<Failure>, starts: seq<Start>, i: nat)
    requires i < |starts|
  {
    && ResultAt(record, starts, i).Recorded?
    && RecordAfter(record, starts) == Some(Failure(starts[i].directory, Key(starts[i].names), starts[i].endedAt))
  }

  /**
    Nobody is refused without cause: over any starts, of any deployments and under any clock, a start is refused
    only if its own directory and names failed validation, at the first record or in one of these starts, less than
    twelve minutes before. So a deployment that waits twelve minutes may order again.
   */
  lemma RefusedHasCause(record: Option<Failure>, starts: seq<Start>, b: Start)
    requires Attempt(RecordAfter(record, starts), b).1 == Refused
    ensures || (&& record.Some? && SameOrder(record.value, b.directory, b.names) && b.checkedAt < record.value.failedAt + 720)
            || exists i :: 0 <= i < |starts| && Renews(record, starts, i, b.directory, Key(b.names))
                           && b.checkedAt < starts[i].endedAt + 720
  {
    RecordCameFrom(record, starts);
    if RecordAfter(record, starts) != record {
      var i :| 0 <= i < |starts| && WroteRecord(record, starts, i);
      assert Renews(record, starts, i, b.directory, Key(b.names));
    }
  }

  // ---- the record file as an object ----

  class RecordFile {
    var record: Option<Failure>

    constructor (record: Option<Failure>)
      ensures this.record == record
    {
      this.record := record;
    }

    /** The names in key form: normalised one by one, then sorted. */
    static method CooldownKey(names: seq<string>) returns (key: seq<string>)
      ensures key == Key(names)
    {
      var normals: seq<string> := [];
      var i := 0;
      while i < |names|
        invariant 0 <= i <= |names| && normals == Normals(names[..i])
      {
        normals := normals + [ToLower(TrimSpace(names[i]))];
        assert normals == Normals(names[..i + 1]);
        i := i + 1;
      }
      assert names[..i] == names;
      key := SortNames(normals);
    }

    method ActiveCooldown(directory: string, names: seq<string>, now: Time, readable: bool) returns (blocked: bool)
      modifies this
      ensures blocked <==> readable && Blocks(old(record), directory, names, now)
      ensures record == if readable then Looked(old(record), directory, names, now) else old(record)
    {
      if !readable || record.None? { return false; }
      var key := CooldownKey(names);
      if record.value.directory != directory || record.value.names != key { return false; }
      if record.value.failedAt > now + FUTURE_SLACK {
        record := None;
        return false;
      }
      return now < record.value.failedAt + COOLDOWN;
    }

    method RefuseDuringCooldown(a: Start) returns (refused: bool)
      requires |a.stored| == |a.names|
      modifies this
      ensures refused <==> a.readable && Blocks(old(record), a.directory, a.names, a.checkedAt) && WouldOrder(a)
      ensures record == Seen(old(record), a)
    {
      var blocked := ActiveCooldown(a.directory, a.names, a.checkedAt, a.readable);
      if !blocked { return false; }
      var i := 0;
      while i < |a.names|
        invariant 0 <= i <= |a.names|
        invariant forall k :: 0 <= k < i ==> !a.stored[k].Absent?
      {
        if a.stored[i].Absent? { return true; }
        i := i + 1;
      }
      return false;
    }

    /** One start, in the order EnsureACME makes its calls. */
    method Begin(a: Start) returns (r: Result)
      requires WellPosed(a)
      modifies this
      ensures (record, r) == Attempt(old(record), a)
    {
      var refused := RefuseDuringCooldown(a);
      if refused { return Refused; }
      match a.order {
        case Issued =>
          if a.cleared {
            record := None;
          }
          return Served;
        case ValidationFailed =>
          if !a.recorded { return Unrecorded; }
          var key := CooldownKey(a.names);
          record := Some(Failure(a.directory, key, a.endedAt));
          return Recorded(a.endedAt);
        case OtherError => return Unrecorded;
      }
    }
  }
}
