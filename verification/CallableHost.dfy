/**
 Backend callables behind an effect ledger. Every outside call may fail: a fault schedule fixes what
 each of them does, and the results are stated for every schedule.
 */
module CallableHost {
  import opened Common

  const MAX_CALLS := 128 * 64

  /** The identity of one call: its model attempt and its call id. */
  datatype Key = Key(attempt: string, call: string)

  datatype Outcome = Succeeded | Failed | Uncertain

  /** What the binding does once called. */
  datatype Behaviour = Returns | ReturnsUnusable | Throws

  /** What an invocation leaves in the journal, and the run of the binding itself. */
  datatype Event =
    | Acquired(op: nat, key: Key)
    | Ran(op: nat, key: Key, behaviour: Behaviour)
    | Finished(op: nat, outcome: Outcome, recorded: bool)

  datatype Error = InvalidArgument | AccessDenied | PermissionRefused | Cancelled | GuidanceChanged | EffectUncertain
    | OutcomeUnrecorded | OtherError

  datatype Reply = Delivered(success: bool) | Thrown(error: Error)

  /**
   The outside calls of one invocation in order: entry tests, preparation, the first readiness test,
   acquisition, the re-check, the second readiness test, the last guard, the binding, the recording.
   */
  datatype Faults = Faults(entry: Option<Error>, prepare: Option<Error>, ready: bool, acquire: Option<Error>,
                           recheck: Option<Error>,
                           stillReady: bool, guard: Option<Error>, binding: Behaviour, recorded: bool)

  /** Errors that the host's ports raise: never the two with which the host reports an outcome. */
  predicate PortError(e: Option<Error>) {
    e.Some? ==> e.value != EffectUncertain && e.value != OutcomeUnrecorded
  }

  predicate Legal(f: Faults) {
    PortError(f.entry) && PortError(f.prepare) && PortError(f.acquire) && PortError(f.recheck) && PortError(f.guard)
  }

  // ------------------------------------------------------------------ one invocation

  predicate Admits(calls: set<Key>, key: Key) {
    |calls| < MAX_CALLS && key !in calls
  }

  predicate Acquires(f: Faults) {
    f.prepare.None? && f.ready && f.acquire.None?
  }

  predicate Reaches(f: Faults) {
    Acquires(f) && f.recheck.None? && f.stillReady && f.guard.None?
  }

  /** The journal events of an admitted invocation. */
  function Piece(key: Key, op: nat, f: Faults): seq<Event> {
    if !Acquires(f) then []
    else if !Reaches(f) then [Acquired(op, key), Finished(op, Failed, f.recorded)]
    else [Acquired(op, key), Ran(op, key, f.binding),
          Finished(op, if f.binding == Returns then Succeeded else Uncertain, f.recorded)]
  }

  function ReplyOf(f: Faults): Reply {
    if f.prepare.Some? then Thrown(f.prepare.value)
    else if !f.ready then Delivered(false)
    else if f.acquire.Some? then Thrown(f.acquire.value)
    else if !f.recorded then Thrown(OutcomeUnrecorded)
    else if f.recheck.Some? then Thrown(f.recheck.value)
    else if !f.stillReady then Delivered(false)
    else if f.guard.Some? then Thrown(f.guard.value)
    else if f.binding != Returns then Thrown(EffectUncertain)
    else Delivered(true)
  }

  class Host {
    var calls: set<Key>
    var trace: seq<Event>
    var nextOperation: nat

    constructor ()
      ensures calls == {} && trace == [] && nextOperation == 0
    {
      calls, trace, nextOperation := {}, [], 0;
    }

    method Finish(op: nat, outcome: Outcome, recorded: bool) returns (ok: bool)
      modifies this`trace
      ensures ok == recorded && trace == old(trace) + [Finished(op, outcome, recorded)]
    {
      trace := trace + [Finished(op, outcome, recorded)];
      ok := recorded;
    }

    method Invoke(key: Key, f: Faults) returns (r: Reply)
      modifies this
      ensures f.entry.Some? ==> r == Thrown(f.entry.value) && calls == old(calls) && trace == old(trace)
      ensures f.entry.None? && !Admits(old(calls), key) ==>
                r == Thrown(AccessDenied) && calls == old(calls) && trace == old(trace)
      ensures f.entry.None? && Admits(old(calls), key) ==>
                calls == old(calls) + {key} && trace == old(trace) + Piece(key, old(nextOperation), f)
                  && r == ReplyOf(f)
      ensures f.entry.None? && Admits(old(calls), key) && Legal(f) ==>
                var events := trace[|old(trace)|..];
                && Truthful(events, r) && (forall b :: RanAs(events, b) <==> Reaches(f) && b == f.binding)
                && (r == Delivered(true) <==> Reaches(f) && f.binding == Returns && f.recorded)
                && (r == Delivered(false) <==> Deferred(f))
    {
      r := Perform(key, f);
      PieceRuns(key, old(nextOperation), f);
      if Legal(f) {
        PieceTruthful(key, old(nextOperation), f);
        ReplyMeans(f);
      }
    }

    /** The body of `invoke`. */
    method Perform(key: Key, f: Faults) returns (r: Reply)
      modifies this
      ensures f.entry.Some? ==> r == Thrown(f.entry.value) && calls == old(calls) && trace == old(trace)
      ensures f.entry.None? && !Admits(old(calls), key) ==>
                r == Thrown(AccessDenied) && calls == old(calls) && trace == old(trace)
      ensures f.entry.None? && Admits(old(calls), key) ==>
                calls == old(calls) + {key} && trace == old(trace) + Piece(key, old(nextOperation), f)
                  && r == ReplyOf(f)
    {
      if f.entry.Some? { return Thrown(f.entry.value); }
      if |calls| >= MAX_CALLS || key in calls { return Thrown(AccessDenied); }
      calls := calls + {key};
      if f.prepare.Some? { return Thrown(f.prepare.value); }
      if !f.ready { return Delivered(false); }
      var op := nextOperation;
      nextOperation := nextOperation + 1;
      if f.acquire.Some? { return Thrown(f.acquire.value); }
      trace := trace + [Acquired(op, key)];
      var dispatched, deferred := false, false;
      var failure: Option<Error> := None;
      if f.recheck.Some? {
        failure := f.recheck;
      } else if !f.stillReady {
        deferred := true;
      } else if f.guard.Some? {
        failure := f.guard;
      } else {
        dispatched := true;
        trace := trace + [Ran(op, key, f.binding)];
        if f.binding != Returns { failure := Some(OtherError); }
      }
      var ok;
      if failure.Some? {
        ok := Finish(op, if dispatched then Uncertain else Failed, f.recorded);
        if !ok { return Thrown(OutcomeUnrecorded); }
        return Thrown(if dispatched then EffectUncertain else failure.value);
      }
      ok := Finish(op, if deferred then Failed else Succeeded, f.recorded);
      if !ok { return Thrown(OutcomeUnrecorded); }
      r := Delivered(!deferred);
    }
  }

  // ------------------------------------------------------------------ truth of one invocation

  function Runs(trace: seq<Event>, key: Key): nat {
    if trace == [] then 0
    else
      var last := trace[|trace| - 1];
      Runs(trace[..|trace| - 1], key) + if last.Ran? && last.key == key then 1 else 0
  }

  function Attempts(trace: seq<Event>, op: nat): nat {
    if trace == [] then 0
    else
      var last := trace[|trace| - 1];
      Attempts(trace[..|trace| - 1], op) + if last.Finished? && last.op == op then 1 else 0
  }

  ghost predicate RanIn(trace: seq<Event>) {
    exists e :: e in trace && e.Ran?
  }

  ghost predicate RanAs(trace: seq<Event>, behaviour: Behaviour) {
    exists e :: e in trace && e.Ran? && e.behaviour == behaviour
  }

  ghost predicate FinishedAs(trace: seq<Event>, outcome: Outcome, recorded: bool) {
    exists e :: e in trace && e.Finished? && e.outcome == outcome && e.recorded == recorded
  }

  /** The outcome put on record says what happened, and so does what the caller is told. */
  ghost predicate Truthful(events: seq<Event>, r: Reply) {
    && (forall e :: e in events && e.Finished? ==>
          && (e.outcome == Failed <==> !RanIn(events))
          && (e.outcome == Succeeded <==> RanAs(events, Returns))
          && (e.outcome == Uncertain <==> RanAs(events, ReturnsUnusable) || RanAs(events, Throws)))
    && (r == Delivered(true) <==> RanAs(events, Returns) && FinishedAs(events, Succeeded, true))
    && (r == Delivered(false) ==> !RanIn(events))
    && (r == Thrown(EffectUncertain) <==> FinishedAs(events, Uncertain, true))
    && (r == Thrown(OutcomeUnrecorded) <==> exists e :: e in events && e.Finished? && !e.recorded)
    && (r.Thrown? && r.error != EffectUncertain && r.error != OutcomeUnrecorded ==> !RanIn(events))
  }

  lemma Members3(a: Event, b: Event, c: Event, e: Event)
    ensures e in [a, b, c] <==> e == a || e == b || e == c
    ensures a in [a, b, c] && b in [a, b, c] && c in [a, b, c]
  {
  }

  lemma Members2(a: Event, b: Event, e: Event)
    ensures e in [a, b] <==> e == a || e == b
    ensures a in [a, b] && b in [a, b]
  {
  }

  /** The binding ran, as it did, exactly when the last guard was passed. */
  lemma PieceRuns(key: Key, op: nat, f: Faults)
    ensures forall b :: RanAs(Piece(key, op, f), b) <==> Reaches(f) && b == f.binding
    ensures RanIn(Piece(key, op, f)) <==> Reaches(f)
  {
    var p := Piece(key, op, f);
    if Reaches(f) {
      assert p[1] == Ran(op, key, f.binding);
      assert forall e :: e in p && e.Ran? ==> e == p[1];
    }
  }

  /** Deferred for guidance that is not ready, before the operation or behind it. */
  predicate Deferred(f: Faults) {
    f.prepare.None? && (!f.ready || (f.acquire.None? && f.recorded && f.recheck.None? && !f.stillReady))
  }

  /** Which reply an admitted invocation gives. */
  lemma ReplyMeans(f: Faults)
    requires Legal(f)
    ensures ReplyOf(f) == Delivered(true) <==> Reaches(f) && f.binding == Returns && f.recorded
    ensures ReplyOf(f) == Delivered(false) <==> Deferred(f)
    ensures ReplyOf(f) == Thrown(EffectUncertain) <==> Reaches(f) && f.binding != Returns && f.recorded
    ensures ReplyOf(f) == Thrown(OutcomeUnrecorded) <==> Acquires(f) && !f.recorded
    ensures ReplyOf(f).Thrown? && Acquires(f) && !Reaches(f) && f.recorded ==>
              Some(ReplyOf(f).error) == if f.recheck.Some? then f.recheck else f.guard
    ensures ReplyOf(f).Thrown? && !Acquires(f) ==>
              Some(ReplyOf(f).error) == if f.prepare.Some? then f.prepare else f.acquire
  {
  }

  lemma PieceTruthful(key: Key, op: nat, f: Faults)
    requires Legal(f)
    ensures Truthful(Piece(key, op, f), ReplyOf(f))
  {
    var p := Piece(key, op, f);
    PieceRuns(key, op, f);
    if Reaches(f) {
      var last := Finished(op, if f.binding == Returns then Succeeded else Uncertain, f.recorded);
      forall e ensures e in p <==> e == Acquired(op, key) || e == Ran(op, key, f.binding) || e == last {
        Members3(Acquired(op, key), Ran(op, key, f.binding), last, e);
      }
      assert Ran(op, key, f.binding) in p && last in p;
    } else if Acquires(f) {
      var last := Finished(op, Failed, f.recorded);
      forall e ensures e in p <==> e == Acquired(op, key) || e == last {
        Members2(Acquired(op, key), last, e);
      }
      assert last in p;
    }
  }

  /** An acquired operation gets exactly one recording attempt, after everything else. */
  ghost predicate OneRecord(events: seq<Event>, op: nat) {
    || (events == [] && Attempts(events, op) == 0)
    || (|events| > 0 && events[0].Acquired? && events[|events| - 1].Finished? && Attempts(events, op) == 1)
  }

  lemma Unfold2(a: Event, b: Event, op: nat, key: Key)
    ensures Attempts([a, b], op) == Attempts([a], op) + Attempts([b], op)
    ensures Runs([a, b], key) == Runs([a], key) + Runs([b], key)
  {
    assert [a, b][..1] == [a];
    assert [a][..0] == [b][..0];
  }

  lemma Unfold3(a: Event, b: Event, c: Event, op: nat, key: Key)
    ensures Attempts([a, b, c], op) == Attempts([a], op) + Attempts([b], op) + Attempts([c], op)
    ensures Runs([a, b, c], key) == Runs([a], key) + Runs([b], key) + Runs([c], key)
  {
    assert [a, b, c][..2] == [a, b];
    assert [a][..0] == [c][..0];
    Unfold2(a, b, op, key);
  }

  lemma PieceCounts(key: Key, op: nat, f: Faults, k: Key)
    ensures OneRecord(Piece(key, op, f), op)
    ensures Runs(Piece(key, op, f), k) == if k == key && Reaches(f) then 1 else 0
  {
    if Reaches(f) {
      Unfold3(Acquired(op, key), Ran(op, key, f.binding),
              Finished(op, if f.binding == Returns then Succeeded else Uncertain, f.recorded), op, k);
    } else if Acquires(f) {
      Unfold2(Acquired(op, key), Finished(op, Failed, f.recorded), op, k);
    }
  }

  // ------------------------------------------------------------------- many invocations at once

  /** An admitted invocation: its operation, its fate, and the events it has yet to cause. */
  datatype Thread = Thread(key: Key, fate: Faults, todo: seq<Event>)

  /** Operations are numbered by thread. Only the admission test is under a lock; events interleave freely. */
  datatype System = System(calls: set<Key>, threads: seq<Thread>, trace: seq<Event>)

  datatype Step = Enter(key: Key, fate: Faults) | Advance(thread: nat)

  function Next(s: System, step: Step): System {
    match step
    case Enter(key, f) =>
      if f.entry.Some? || !Admits(s.calls, key) then s
      else s.(calls := s.calls + {key}, threads := s.threads + [Thread(key, f, Piece(key, |s.threads|, f))])
    case Advance(t) =>
      if t >= |s.threads| || s.threads[t].todo == [] then s
      else
        var w := s.threads[t];
        s.(threads := s.threads[t := w.(todo := w.todo[1..])], trace := s.trace + [w.todo[0]])
  }

  function Execute(s: System, steps: seq<Step>): System
    decreases |steps|
  {
    if steps == [] then s else Execute(Next(s, steps[0]), steps[1..])
  }

  /** The events of one operation. */
  function Of(trace: seq<Event>, op: nat): seq<Event> {
    if trace == [] then []
    else
      var last := trace[|trace| - 1];
      Of(trace[..|trace| - 1], op) + if last.op == op then [last] else []
  }

  lemma OfGrows(trace: seq<Event>, e: Event, op: nat)
    ensures Of(trace + [e], op) == Of(trace, op) + if e.op == op then [e] else []
  {
    assert (trace + [e])[..|trace|] == trace;
  }

  ghost predicate Distinct(threads: seq<Thread>) {
    forall i, j :: 0 <= i < j < |threads| ==> threads[i].key != threads[j].key
  }

  ghost predicate OnTrack(s: System, t: nat)
    requires t < |s.threads|
  {
    Of(s.trace, t) + s.threads[t].todo == Piece(s.threads[t].key, t, s.threads[t].fate)
  }

  /** Every event was caused by a thread, under that thread's key. */
  ghost predicate Owned(s: System) {
    forall e :: e in s.trace ==> e.op < |s.threads| && (e.Ran? ==> e.key == s.threads[e.op].key)
  }

  ghost predicate Invariant(s: System) {
    && Distinct(s.threads) && Owned(s)
    && (forall t :: 0 <= t < |s.threads| ==> s.threads[t].key in s.calls && OnTrack(s, t))
  }

  lemma {:induction false} OfNobody(trace: seq<Event>, op: nat)
    requires forall e :: e in trace ==> e.op != op
    ensures Of(trace, op) == []
    decreases |trace|
  {
    if trace != [] {
      assert trace[|trace| - 1] in trace;
      OfNobody(trace[..|trace| - 1], op);
    }
  }

  lemma EnteredOnTrack(s: System, n: System, t: nat)
    requires Invariant(s) && n.trace == s.trace && s.threads <= n.threads && t < |s.threads|
    ensures OnTrack(n, t)
  {
    assert OnTrack(s, t) && n.threads[t] == s.threads[t];
  }

  lemma EnterKeeps(s: System, key: Key, f: Faults)
    requires Invariant(s)
    ensures Invariant(Next(s, Enter(key, f)))
  {
    var n := Next(s, Enter(key, f));
    if n != s {
      OfNobody(s.trace, |s.threads|);
      assert OnTrack(n, |s.threads|);
      forall t | 0 <= t < |s.threads| ensures OnTrack(n, t) {
        EnteredOnTrack(s, n, t);
      }
    }
  }

  lemma PieceEvent(key: Key, op: nat, f: Faults, i: nat)
    requires i < |Piece(key, op, f)|
    ensures Piece(key, op, f)[i].op == op && (Piece(key, op, f)[i].Ran? ==> Piece(key, op, f)[i].key == key)
  {
  }

  lemma AdvanceOwned(s: System, t: nat, e: Event)
    requires Invariant(s) && t < |s.threads| && s.threads[t].todo != [] && e == s.threads[t].todo[0]
    ensures e.op == t && (e.Ran? ==> e.key == s.threads[t].key)
  {
    assert OnTrack(s, t);
    var done := Of(s.trace, t);
    assert (done + s.threads[t].todo)[|done|] == e;
    PieceEvent(s.threads[t].key, t, s.threads[t].fate, |done|);
  }

  lemma AdvanceOnTrack(s: System, t: nat, i: nat)
    requires Invariant(s) && t < |s.threads| && s.threads[t].todo != [] && i < |s.threads|
    ensures OnTrack(Next(s, Advance(t)), i)
  {
    var w := s.threads[t];
    AdvanceOwned(s, t, w.todo[0]);
    OfGrows(s.trace, w.todo[0], i);
    assert OnTrack(s, i);
    if i == t {
      MoveOne(Of(s.trace, t), w.todo);
    } else {
      assert Of(s.trace, i) + [] == Of(s.trace, i);
    }
  }

  lemma MoveOne(done: seq<Event>, todo: seq<Event>)
    requires todo != []
    ensures done + [todo[0]] + todo[1..] == done + todo
  {
  }

  /** One more event of a thread that owns it; the threads keep their keys. */
  lemma OwnedGrows(s: System, n: System, e: Event)
    requires Owned(s) && n.trace == s.trace + [e] && |n.threads| == |s.threads|
    requires forall i :: 0 <= i < |s.threads| ==> n.threads[i].key == s.threads[i].key
    requires e.op < |s.threads| && (e.Ran? ==> e.key == s.threads[e.op].key)
    ensures Owned(n)
  {
    forall x | x in n.trace ensures x.op < |n.threads| && (x.Ran? ==> x.key == n.threads[x.op].key) {
      if x != e {
        assert x in s.trace;
      }
    }
  }

  lemma DistinctStay(before: seq<Thread>, after: seq<Thread>)
    requires Distinct(before) && |after| == |before|
    requires forall i :: 0 <= i < |before| ==> after[i].key == before[i].key
    ensures Distinct(after)
  {
  }

  lemma AdvanceKeeps(s: System, t: nat)
    requires Invariant(s)
    ensures Invariant(Next(s, Advance(t)))
  {
    var n := Next(s, Advance(t));
    if t < |s.threads| && s.threads[t].todo != [] {
      var e := s.threads[t].todo[0];
      AdvanceOwned(s, t, e);
      OwnedGrows(s, n, e);
      DistinctStay(s.threads, n.threads);
      forall i | 0 <= i < |n.threads| ensures n.threads[i].key in n.calls && OnTrack(n, i) {
        AdvanceOnTrack(s, t, i);
        assert n.threads[i].key == s.threads[i].key;
      }
    }
  }

  lemma {:induction false} InvariantAlways(s: System, steps: seq<Step>)
    requires Invariant(s)
    ensures Invariant(Execute(s, steps))
    decreases |steps|
  {
    if steps != [] {
      if steps[0].Enter? {
        EnterKeeps(s, steps[0].key, steps[0].fate);
      } else {
        AdvanceKeeps(s, steps[0].thread);
      }
      InvariantAlways(Next(s, steps[0]), steps[1..]);
    }
  }

  /** Runs of a key are counted within the one operation that has the key. */
  lemma {:induction false} RunsWithin(trace: seq<Event>, key: Key, op: nat)
    requires forall i :: 0 <= i < |trace| && trace[i].Ran? && trace[i].key == key ==> trace[i].op == op
    ensures Runs(trace, key) == Runs(Of(trace, op), key)
    decreases |trace|
  {
    if trace != [] {
      var front, last := trace[..|trace| - 1], trace[|trace| - 1];
      RunsWithin(front, key, op);
      CountsGrow(Of(front, op), last, key, op);
    }
  }

  lemma CountsGrow(own: seq<Event>, e: Event, key: Key, op: nat)
    ensures Runs(own + [e], key) == Runs(own, key) + (if e.Ran? && e.key == key then 1 else 0)
    ensures Attempts(own + [e], op) == Attempts(own, op) + (if e.Finished? && e.op == op then 1 else 0)
    ensures own + [] == own
  {
    assert (own + [e])[..|own|] == own;
  }

  lemma {:induction false} AttemptsWithin(trace: seq<Event>, op: nat)
    ensures Attempts(trace, op) == Attempts(Of(trace, op), op)
    decreases |trace|
  {
    if trace != [] {
      var front, last := trace[..|trace| - 1], trace[|trace| - 1];
      AttemptsWithin(front, op);
      CountsGrow(Of(front, op), last, Key("", ""), op);
    }
  }

  lemma {:induction false} PrefixCounts(a: seq<Event>, b: seq<Event>, key: Key, op: nat)
    ensures Runs(a, key) <= Runs(a + b, key) && Attempts(a, op) <= Attempts(a + b, op)
    decreases |b|
  {
    if b == [] {
      assert a + b == a;
    } else {
      var front := b[..|b| - 1];
      assert (a + b)[..|a + b| - 1] == a + front;
      PrefixCounts(a, front, key, op);
    }
  }

  lemma {:induction false} NeverRan(trace: seq<Event>, key: Key)
    requires forall e :: e in trace && e.Ran? ==> e.key != key
    ensures Runs(trace, key) == 0
    decreases |trace|
  {
    if trace != [] {
      assert trace[|trace| - 1] in trace;
      NeverRan(trace[..|trace| - 1], key);
    }
  }

  /** Under every interleaving, a key's binding runs at most once. */
  lemma RunsOnce(s: System, key: Key)
    requires Invariant(s)
    ensures Runs(s.trace, key) <= 1
  {
    if t :| 0 <= t < |s.threads| && s.threads[t].key == key {
      forall i | 0 <= i < |s.trace| && s.trace[i].Ran? && s.trace[i].key == key ensures s.trace[i].op == t {
        assert s.trace[i] in s.trace;
      }
      RunsWithin(s.trace, key, t);
      assert OnTrack(s, t);
      PrefixCounts(Of(s.trace, t), s.threads[t].todo, key, t);
      PieceCounts(key, t, s.threads[t].fate, key);
    } else {
      NeverRan(s.trace, key);
    }
  }

  /** No operation gets a second recording attempt, and a finished thread's operation got one. */
  lemma RecordedOnce(s: System, t: nat)
    requires Invariant(s) && t < |s.threads|
    ensures Attempts(s.trace, t) <= 1
    ensures s.threads[t].todo == [] && Of(s.trace, t) != [] ==> Attempts(s.trace, t) == 1
  {
    assert OnTrack(s, t);
    AttemptsWithin(s.trace, t);
    var done, todo := Of(s.trace, t), s.threads[t].todo;
    PrefixCounts(done, todo, s.threads[t].key, t);
    PieceCounts(s.threads[t].key, t, s.threads[t].fate, s.threads[t].key);
    if todo == [] {
      assert done + todo == done;
    }
  }

  /** The steps by which thread `t` causes the events it has left. */
  function Drive(t: nat, n: nat): seq<Step> {
    if n == 0 then [] else [Step.Advance(t)] + Drive(t, n - 1)
  }

  lemma {:induction false} DriveFinishes(s: System, t: nat)
    requires t < |s.threads|
    ensures var e := Execute(s, Drive(t, |s.threads[t].todo|));
            && e.trace == s.trace + s.threads[t].todo && e.calls == s.calls && |e.threads| == |s.threads|
            && e.threads[t] == s.threads[t].(todo := [])
    decreases |s.threads[t].todo|
  {
    var todo := s.threads[t].todo;
    if todo == [] {
      assert s.trace + [] == s.trace;
    } else {
      var n := Next(s, Step.Advance(t));
      var more := Drive(t, |todo| - 1);
      ConsParts(Step.Advance(t), more);
      DriveFinishes(n, t);
      assert s.trace + [todo[0]] + todo[1..] == s.trace + todo;
    }
  }

  /** An admissible call is admitted, and left to itself causes exactly the events of its invocation. */
  lemma CallGoesThrough(s: System, key: Key, f: Faults)
    requires f.entry.None? && Admits(s.calls, key)
    ensures var op := |s.threads|;
            var e := Execute(s, [Enter(key, f)] + Drive(op, |Piece(key, op, f)|));
            && key in e.calls && e.trace == s.trace + Piece(key, op, f)
            && e.threads == s.threads + [Thread(key, f, [])]
  {
    var op := |s.threads|;
    var n := Next(s, Enter(key, f));
    ConsParts(Enter(key, f), Drive(op, |Piece(key, op, f)|));
    DriveFinishes(n, op);
    DriveLeavesOthers(n, op, |Piece(key, op, f)|);
    var e := Execute(n, Drive(op, |Piece(key, op, f)|));
    assert e.threads[..op] == s.threads && e.threads[op] == Thread(key, f, []);
  }

  lemma {:induction false} DriveLeavesOthers(s: System, t: nat, n: nat)
    requires t < |s.threads|
    ensures var e := Execute(s, Drive(t, n));
            |e.threads| == |s.threads| && forall i :: 0 <= i < |s.threads| && i != t ==> e.threads[i] == s.threads[i]
    decreases n
  {
    if n > 0 {
      ConsParts(Step.Advance(t), Drive(t, n - 1));
      DriveLeavesOthers(Next(s, Step.Advance(t)), t, n - 1);
    }
  }

  /** What a finished thread left behind is true, and tells what its binding did. */
  ghost predicate Honest(events: seq<Event>, f: Faults) {
    && Truthful(events, ReplyOf(f))
    && (forall b :: RanAs(events, b) <==> Reaches(f) && b == f.binding)
    && (ReplyOf(f) == Delivered(true) <==> Reaches(f) && f.binding == Returns && f.recorded)
  }

  ghost predicate Initial(s: System) {
    s.calls == {} && s.threads == [] && s.trace == []
  }

  /** Every run: at most one run per key, one record per operation, and finished threads told the truth. */
  lemma EveryRun(s: System, steps: seq<Step>)
    requires Initial(s)
    ensures var e := Execute(s, steps);
            && (forall key :: Runs(e.trace, key) <= 1)
            && (forall t :: 0 <= t < |e.threads| ==> Attempts(e.trace, t) <= 1)
            && (forall t :: 0 <= t < |e.threads| && e.threads[t].todo == [] && Legal(e.threads[t].fate) ==>
                  Honest(Of(e.trace, t), e.threads[t].fate))
  {
    var e := Execute(s, steps);
    InvariantAlways(s, steps);
    forall key ensures Runs(e.trace, key) <= 1 {
      RunsOnce(e, key);
    }
    forall t | 0 <= t < |e.threads| ensures Attempts(e.trace, t) <= 1 {
      RecordedOnce(e, t);
    }
    forall t | 0 <= t < |e.threads| && e.threads[t].todo == [] && Legal(e.threads[t].fate)
      ensures Honest(Of(e.trace, t), e.threads[t].fate)
    {
      assert OnTrack(e, t);
      assert Of(e.trace, t) + [] == Of(e.trace, t);
      PieceTruthful(e.threads[t].key, t, e.threads[t].fate);
      PieceRuns(e.threads[t].key, t, e.threads[t].fate);
      ReplyMeans(e.threads[t].fate);
    }
  }

  // ------------------------------------------------------------------------ the worker wrapper

  datatype WorkerEvent = Claimed(key: Key) | Started(key: Key) | Recorded(key: Key, success: bool, stored: bool)

  datatype WorkerError = Busy | NotEntered | ClaimFailed | ResultUnrecorded | NativeError(error: Error) | Stopped

  datatype WorkerReply = Result(success: bool) | Raised(error: WorkerError)

  /** The wrapper's own outside calls in order: its lock, entry tests, claim, start, recording, the last read. */
  datatype WorkerFaults = WorkerFaults(busy: bool, entry: bool, claim: bool, start: bool, stored: bool, journal: bool,
                                       stopped: bool)

  /** The two native outcomes whose ledger entry must stay as it is. */
  predicate OpenOutcome(r: Reply) {
    r == Thrown(EffectUncertain) || r == Thrown(OutcomeUnrecorded)
  }

  /** The native errors that are raised again behind their record. */
  predicate Reraised(r: Reply) {
    r == Thrown(Cancelled) || r == Thrown(OtherError)
  }

  /** The third event records the native result. */
  ghost predicate Records(events: seq<WorkerEvent>, key: Key, native: Reply) {
    |events| == 3 && events[2].Recorded? && events[2].key == key && events[2].success == (native == Delivered(true))
  }

  /**
   After the start, exactly one result is recorded unless the native outcome is uncertain or
   unrecorded; the record and the reply agree with the native result.
   */
  ghost predicate WorkerTruthful(events: seq<WorkerEvent>, key: Key, native: Reply, r: WorkerReply) {
    && |events| >= 2 && events[0] == Claimed(key) && events[1] == Started(key)
    && (OpenOutcome(native) ==> |events| == 2 && r == Raised(NativeError(native.error)))
    && (!OpenOutcome(native) ==> Records(events, key, native))
    && (r.Result? ==> |events| == 3 && events[2] == Recorded(key, r.success, true))
    && (r == Raised(ResultUnrecorded) <==> |events| == 3 && events[2].Recorded? && !events[2].stored)
  }

  class WorkerHost {
    const native: Host
    var ledger: seq<WorkerEvent>

    constructor ()
      ensures fresh(native) && native.calls == {} && native.trace == [] && ledger == []
    {
      native := new Host();
      ledger := [];
    }

    method Save(key: Key, success: bool, stored: bool) returns (ok: bool)
      modifies this
      ensures ok == stored && ledger == old(ledger) + [Recorded(key, success, stored)]
    {
      ledger := ledger + [Recorded(key, success, stored)];
      ok := stored;
    }

    /** The result of a native reply that is not open: recorded, then raised again or delivered. */
    method Report(key: Key, reply: Reply, w: WorkerFaults) returns (r: WorkerReply)
      requires !OpenOutcome(reply)
      modifies this
      ensures ledger == old(ledger) + [Recorded(key, reply == Delivered(true), w.stored)]
      ensures r == Raised(ResultUnrecorded) <==> !w.stored
      ensures r.Result? ==> r.success == (reply == Delivered(true))
      ensures r.Result? <==> w.stored && !Reraised(reply) && !w.journal && !w.stopped
      ensures r.Raised? ==> r.error == ResultUnrecorded || r.error == Stopped || r.error.NativeError?
    {
      var ok := Save(key, reply == Delivered(true), w.stored);
      if !ok { return Raised(ResultUnrecorded); }
      if reply == Thrown(Cancelled) || reply == Thrown(OtherError) { return Raised(NativeError(reply.error)); }
      if w.journal || w.stopped { return Raised(Stopped); }
      r := Result(reply == Delivered(true));
    }

    /** `answer` is what the native host replied, when it was called. */
    method Invoke(key: Key, f: Faults, w: WorkerFaults) returns (r: WorkerReply, answer: Option<Reply>)
      requires Legal(f)
      modifies this, native
      ensures old(ledger) <= ledger
      ensures answer.None? ==> r.Raised? && native.trace == old(native.trace) && native.calls == old(native.calls)
                               && forall e :: e in ledger[|old(ledger)|..] ==> !e.Recorded? && !e.Started?
      ensures answer.Some? ==> WorkerTruthful(ledger[|old(ledger)|..], key, answer.value, r)
      ensures answer.Some? <==> !w.busy && !w.entry && !w.claim && !w.start
      ensures r == Raised(Busy) <==> w.busy
      ensures r == Raised(NotEntered) <==> !w.busy && w.entry
      ensures r == Raised(ClaimFailed) <==> !w.busy && !w.entry && (w.claim || w.start)
      ensures r.Result? <==>
                && answer.Some? && !OpenOutcome(answer.value) && !Reraised(answer.value)
                && w.stored && !w.journal && !w.stopped
      ensures r.Result? ==> r.success == (answer.value == Delivered(true))
      ensures answer.Some? && f.entry.None? && Admits(old(native.calls), key) ==>
                && answer.value == ReplyOf(f)
                && (answer.value == Delivered(true) <==> Reaches(f) && f.binding == Returns && f.recorded)
    {
      if w.busy { return Raised(Busy), None; }
      if w.entry { return Raised(NotEntered), None; }
      if w.claim { return Raised(ClaimFailed), None; }
      ghost var before := ledger;
      ledger := ledger + [Claimed(key)];
      if w.start { return Raised(ClaimFailed), None; }
      ledger := ledger + [Started(key)];
      var reply := native.Invoke(key, f);
      answer := Some(reply);
      LedgerPart(before, key, reply, w.stored);
      if OpenOutcome(reply) { return Raised(NativeError(reply.error)), answer; }
      r := Report(key, reply, w);
    }
  }

  lemma LedgerPart(before: seq<WorkerEvent>, key: Key, reply: Reply, stored: bool)
    ensures var two, last := before + [Claimed(key)] + [Started(key)], Recorded(key, reply == Delivered(true), stored);
            && two[|before|..] == [Claimed(key), Started(key)]
            && (two + [last])[|before|..] == [Claimed(key), Started(key), last]
            && before <= two + [last]
  {
  }
}
