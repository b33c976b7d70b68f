/**
 Delegation of one task to a remote A2A agent: one send, at most two resubscriptions, one recorded
 outcome. Every outside call may fail: a fault schedule fixes what each of them does, and the results
 are stated for every schedule.
 */
module DelegateTool {
  import opened Common

  /** One streamed event: the task id and cursor it carries, whether it decodes, whether the run commits it. */
  datatype StreamEvent = StreamEvent(task: Option<string>, cursor: string, decodes: bool, commits: bool)

  datatype Ending = Complete | Cancelled | TimedOut | Broken | OtherFailure

  /** What a stream does: the events it brings and how it ends after the last of them. */
  datatype Delivery = Delivery(events: seq<StreamEvent>, ending: Ending)

  datatype Outcome = Succeeded | Failed | Uncertain

  /** What an invocation does to the outside. */
  datatype Event =
    | Acquired
    | Sent
    | Observed(event: StreamEvent)
    | Closed(ending: Ending)
    | Resubscribed(task: string, cursor: string)
    | Read(usable: bool)
    | Finished(outcome: Outcome, recorded: bool)

  datatype Record = Record(outcome: Outcome, recorded: bool)

  datatype Reply = Done | Rejected | NotDispatched | GuidanceChanged | SendCancelled | EffectUncertain
    | OutcomeUnrecorded

  datatype Guidance = Verified | Changed | Unavailable

  /** One round of stream recovery: cancellation, the stored cursor, the clock, the registration, the stream. */
  datatype Round = Round(stopped: bool, readable: bool, timeLeft: bool, registered: bool, delivery: Delivery)

  /**
   The outside calls of one invocation in order. `gate` is the last test before bytes leave, and how
   the send fails when it does not pass.
   */
  datatype Faults = Faults(admissible: bool, acquire: bool, stopped: bool, guidance: Guidance, timeLeft: bool,
                           streaming: bool,
                           gate: Option<Ending>, first: Delivery, rounds: seq<Round>, usable: bool, recorded: bool)

  const ROUNDS := 2

  ghost predicate Legal(f: Faults) {
    |f.rounds| == ROUNDS && (f.gate.Some? ==> f.gate.value != Complete)
  }

  // ------------------------------------------------------------------------ the protocol

  /**
   What an observer of the outside knows so far; `legal` is false once the protocol was broken. `rows`
   holds the cursors of the events stored for the operation, each once, in the order of their rows;
   `stream` is how the last stream ended, and `result` whether its last message could be used.
   */
  datatype Monitor = Monitor(legal: bool, acquired: bool, sends: nat, resumes: nat, task: string, rows: seq<string>,
                             open: bool, stream: Option<Ending>, result: Option<bool>, finished: Option<Record>)

  function Start(): Monitor {
    Monitor(true, false, 0, 0, "", [], false, None, None, None)
  }

  /** An event whose cursor is stored already adds no row. */
  function Store(rows: seq<string>, cursor: string): seq<string> {
    if cursor == "" || cursor in rows then rows else rows + [cursor]
  }

  /** `latest_a2a_event_id`: the cursor of the last row. */
  function Cursor(rows: seq<string>): string {
    if rows == [] then "" else rows[|rows| - 1]
  }

  /**
   The protocol: acquire, at most one send, events only on an open stream, at most two resubscriptions,
   each after a stream that broke, that name the latest task and the latest stored cursor, the first of
   them a known task; the result is read exactly from a stream that ended complete; and one outcome,
   last, that is Failed exactly when nothing was sent and Succeeded exactly when the result is usable.
   */
  function Advance(m: Monitor, e: Event): Monitor {
    match e
    case Acquired => m.(legal := m.legal && !m.acquired, acquired := true)
    case Sent =>
      m.(legal := m.legal && m.acquired && m.sends == 0 && m.finished.None?, sends := m.sends + 1, open := true)
    case Observed(v) =>
      m.(legal := m.legal && m.open && m.finished.None?,
         task := if v.task.Some? then v.task.value else m.task,
         rows := if v.commits then Store(m.rows, v.cursor) else m.rows)
    case Closed(ending) =>
      m.(legal := m.legal && m.open && m.finished.None?, open := false, stream := Some(ending))
    case Resubscribed(task, cursor) =>
      m.(legal := m.legal && m.sends == 1 && !m.open && m.finished.None? && m.resumes < ROUNDS
                  && (if m.resumes == 0 then m.stream == Some(Broken) else m.stream.Some? && Retried(m.stream.value))
                  && (m.resumes == 0 ==> task != "") && task == m.task && cursor != "" && cursor == Cursor(m.rows),
         resumes := m.resumes + 1, open := true)
    case Read(usable) =>
      m.(legal := m.legal && !m.open && m.finished.None? && m.stream == Some(Complete) && m.result.None?,
         result := Some(usable))
    case Finished(outcome, recorded) =>
      m.(legal := m.legal && m.acquired && !m.open && m.finished.None? && (outcome == Failed <==> m.sends == 0)
                  && (m.stream == Some(Complete) <==> m.result.Some?)
                  && (outcome == Succeeded <==> m.result == Some(true)),
         finished := Some(Record(outcome, recorded)))
  }

  function Watch(story: seq<Event>): Monitor {
    if story == [] then Start() else Advance(Watch(story[..|story| - 1]), story[|story| - 1])
  }

  lemma WatchGrows(story: seq<Event>, e: Event)
    ensures Watch(story + [e]) == Advance(Watch(story), e)
  {
    assert (story + [e])[..|story|] == story;
  }

  // ------------------------------------------------------------------------ the operation

  /** On an open stream. */
  ghost predicate Streaming(story: seq<Event>, task: string, rows: seq<string>, resumes: nat) {
    var m := Watch(story);
    m.legal && m.acquired && m.sends == 1 && m.finished.None? && m.task == task && m.rows == rows
      && m.resumes == resumes && m.open && m.result.None?
  }

  /** Behind a stream. */
  ghost predicate Stopped(story: seq<Event>, task: string, rows: seq<string>, resumes: nat, ending: Ending) {
    var m := Watch(story);
    m.legal && m.acquired && m.sends == 1 && m.finished.None? && m.task == task && m.rows == rows
      && m.resumes == resumes && !m.open && m.stream == Some(ending) && m.result.None?
  }

  /** What a stream leaves behind: the events observed, the task id and rows then known, how it ended. */
  datatype Left = Left(seen: seq<Event>, task: string, rows: seq<string>, ending: Ending)

  function Consumed(d: Delivery, i: nat, task: string, rows: seq<string>): Left
    requires i <= |d.events|
    decreases |d.events| - i
  {
    if i == |d.events| then Left([Closed(d.ending)], task, rows, d.ending)
    else
      var e := d.events[i];
      var known := if e.task.Some? then e.task.value else task;
      if !e.decodes then Left([Closed(OtherFailure)], task, rows, OtherFailure)
      else if !e.commits then Left([Observed(e), Closed(OtherFailure)], known, rows, OtherFailure)
      else
        var rest := Consumed(d, i + 1, known, Store(rows, e.cursor));
        rest.(seen := [Observed(e)] + rest.seen)
  }

  /** Every event decodes and is committed. */
  predicate Flows(events: seq<StreamEvent>) {
    forall e :: e in events ==> e.decodes && e.commits
  }

  /** How a stream ends for the caller. */
  function StreamEnd(d: Delivery): Ending {
    if Flows(d.events) then d.ending else OtherFailure
  }

  function TaskAfter(events: seq<StreamEvent>, task: string): string {
    if events == [] then task
    else TaskAfter(events[1..], if events[0].task.Some? then events[0].task.value else task)
  }

  function RowsAfter(events: seq<StreamEvent>, rows: seq<string>): seq<string> {
    if events == [] then rows else RowsAfter(events[1..], Store(rows, events[0].cursor))
  }

  /** What is left of a stream: its own end when all events flow, and a failure at the first that does not. */
  lemma {:induction false} ConsumedMeans(d: Delivery, i: nat, task: string, rows: seq<string>)
    requires i <= |d.events|
    ensures var r, rest := Consumed(d, i, task, rows), d.events[i..];
            && r.ending == (if Flows(rest) then d.ending else OtherFailure)
            && (Flows(rest) ==> r.task == TaskAfter(rest, task) && r.rows == RowsAfter(rest, rows))
            && r.seen != [] && r.seen[|r.seen| - 1] == Closed(r.ending)
    decreases |d.events| - i
  {
    if i < |d.events| {
      var e, rest := d.events[i], d.events[i..];
      assert rest[0] == e && rest[1..] == d.events[i + 1..];
      assert Flows(rest) <==> e.decodes && e.commits && Flows(rest[1..]);
      ConsumedMeans(d, i + 1, if e.task.Some? then e.task.value else task, Store(rows, e.cursor));
    }
  }

  lemma StreamMeans(d: Delivery, task: string, rows: seq<string>)
    ensures var r := Consumed(d, 0, task, rows);
            && r.ending == StreamEnd(d)
            && (r.ending != OtherFailure ==> r.task == TaskAfter(d.events, task) && r.rows == RowsAfter(d.events, rows))
  {
    ConsumedMeans(d, 0, task, rows);
    assert d.events[0..] == d.events;
  }

  lemma Push(a: seq<Event>, e: Event, rest: seq<Event>)
    ensures a + ([e] + rest) == a + [e] + rest
  {
  }

  /** The stream's event consumer: it notes the task id, then hands the event to the run, which may fail. */
  method Consume(before: seq<Event>, d: Delivery, task0: string, rows0: seq<string>, ghost resumes: nat)
    returns (story: seq<Event>, task: string, rows: seq<string>, ending: Ending)
    requires Streaming(before, task0, rows0, resumes)
    ensures Stopped(story, task, rows, resumes, ending)
    ensures var r := Consumed(d, 0, task0, rows0);
            story == before + r.seen && task == r.task && rows == r.rows && ending == r.ending
  {
    story, task, rows := before, task0, rows0;
    var i := 0;
    while i < |d.events|
      invariant 0 <= i <= |d.events|
      invariant Streaming(story, task, rows, resumes)
      invariant var r, s := Consumed(d, 0, task0, rows0), Consumed(d, i, task, rows);
                before + r.seen == story + s.seen && r.task == s.task && r.rows == s.rows && r.ending == s.ending
    {
      var e := d.events[i];
      if !e.decodes {
        WatchGrows(story, Closed(OtherFailure));
        return story + [Closed(OtherFailure)], task, rows, OtherFailure;
      }
      if e.task.Some? { task := e.task.value; }
      WatchGrows(story, Observed(e));
      if !e.commits {
        WatchGrows(story + [Observed(e)], Closed(OtherFailure));
        Push(story, Observed(e), [Closed(OtherFailure)]);
        return story + [Observed(e)] + [Closed(OtherFailure)], task, rows, OtherFailure;
      }
      rows := Store(rows, e.cursor);
      Push(story, Observed(e), Consumed(d, i + 1, task, rows).seen);
      story := story + [Observed(e)];
      i := i + 1;
    }
    ending := d.ending;
    WatchGrows(story, Closed(ending));
    story := story + [Closed(ending)];
  }

  /** A round that reaches its resubscription. */
  predicate Resumable(r: Round, cursor: string) {
    !r.stopped && r.readable && cursor != "" && r.timeLeft && r.registered
  }

  /** How a round that does not reach it ends the recovery. */
  function RoundEnding(r: Round, cursor: string): Ending {
    if !r.stopped && (!r.readable || (cursor != "" && r.timeLeft && !r.registered)) then OtherFailure else Broken
  }

  predicate Retried(ending: Ending) {
    ending == Broken || ending == TimedOut
  }

  /** What recovery does from round `i` on. */
  function Recovered(rounds: seq<Round>, i: nat, task: string, rows: seq<string>): (seq<Event>, Ending)
    requires i <= |rounds| == ROUNDS
    decreases ROUNDS - i
  {
    if i == ROUNDS then ([], Broken)
    else if !Resumable(rounds[i], Cursor(rows)) then ([], RoundEnding(rounds[i], Cursor(rows)))
    else
      var r := Consumed(rounds[i].delivery, 0, task, rows);
      var seen := [Resubscribed(task, Cursor(rows))] + r.seen;
      if !Retried(r.ending) || i == 1 then (seen, r.ending)
      else
        var more := Recovered(rounds, i + 1, r.task, r.rows);
        (seen + more.0, more.1)
  }

  lemma RecoveredStep(before: seq<Event>, e: Event, seen: seq<Event>, more: seq<Event>)
    ensures before + ([e] + seen + more) == before + [e] + seen + more
  {
  }

  /** Stream recovery: no second send, at most two rounds, each from the last stored cursor. */
  method Recover(before: seq<Event>, rounds: seq<Round>, task0: string, rows0: seq<string>)
    returns (story: seq<Event>, ending: Ending)
    requires |rounds| == ROUNDS && Stopped(before, task0, rows0, 0, Broken)
    ensures Answered(story, ending)
    ensures var r := if task0 == "" then ([], Broken) else Recovered(rounds, 0, task0, rows0);
            story == before + r.0 && ending == r.1
  {
    story := before;
    var task, rows := task0, rows0;
    assert before + [] == before;
    if task == "" { return story, Broken; }
    var attempt, last := 0, Broken;
    while attempt < ROUNDS
      invariant 0 <= attempt <= ROUNDS && (attempt == 0 ==> task != "" && last == Broken) && Retried(last)
      invariant Stopped(story, task, rows, attempt, last)
      invariant var r, s := Recovered(rounds, 0, task0, rows0), Recovered(rounds, attempt, task, rows);
                before + r.0 == story + s.0 && r.1 == s.1
    {
      var round, cursor := rounds[attempt], Cursor(rows);
      assert story + [] == story;
      if round.stopped { return story, Broken; }
      if !round.readable { return story, OtherFailure; }
      if cursor == "" || !round.timeLeft { return story, Broken; }
      if !round.registered { return story, OtherFailure; }
      WatchGrows(story, Resubscribed(task, cursor));
      ghost var r := Consumed(round.delivery, 0, task, rows);
      RecoveredStep(story, Resubscribed(task, cursor), r.seen, Recovered(rounds, attempt + 1, r.task, r.rows).0);
      Push(story, Resubscribed(task, cursor), r.seen);
      story, task, rows, last :=
        Consume(story + [Resubscribed(task, cursor)], round.delivery, task, rows, attempt + 1);
      if last == Complete || last == Cancelled || last == OtherFailure || attempt == 1 { return story, last; }
      attempt := attempt + 1;
    }
    ending := Broken;
  }

  /** The exchange is over; it is complete exactly when its last stream was. */
  ghost predicate Answered(story: seq<Event>, ending: Ending) {
    var m := Watch(story);
    && m.legal && m.acquired && m.sends == 1 && m.finished.None? && !m.open && m.result.None?
    && (m.stream == Some(Complete) <==> ending == Complete)
  }

  /** When recovery ends complete: in the first round, or in the second after the first broke again. */
  lemma RecoveredMeans(rounds: seq<Round>, task: string, rows: seq<string>)
    requires |rounds| == ROUNDS
    ensures Recovered(rounds, 0, task, rows).1 == Complete <==>
              && Resumable(rounds[0], Cursor(rows))
              && (|| StreamEnd(rounds[0].delivery) == Complete
                  || (&& Retried(StreamEnd(rounds[0].delivery))
                      && Resumable(rounds[1], Cursor(RowsAfter(rounds[0].delivery.events, rows)))
                      && StreamEnd(rounds[1].delivery) == Complete))
  {
    var r := Consumed(rounds[0].delivery, 0, task, rows);
    StreamMeans(rounds[0].delivery, task, rows);
    StreamMeans(rounds[1].delivery, r.task, r.rows);
  }

  /**
   The task id is tested before the first round only. A peer that answers the first resubscription
   with an empty id and breaks off is asked again for the empty id.
   */
  lemma ClearedTaskIsResubscribed(task: string, rows: seq<string>)
    requires task != "" && Cursor(rows) != ""
    ensures var clears := Round(false, true, true, true, Delivery([StreamEvent(Some(""), "", true, true)], Broken));
            Resubscribed("", Cursor(rows)) in Recovered([clears, clears], 0, task, rows).0
  {
    var event := StreamEvent(Some(""), "", true, true);
    var d := Delivery([event], Broken);
    var clears := Round(false, true, true, true, d);
    var rounds := [clears, clears];
    assert Consumed(d, 1, "", rows) == Left([Closed(Broken)], "", rows, Broken);
    var r := Consumed(d, 0, task, rows);
    assert r.task == "" && r.rows == rows && r.ending == Broken;
    var more := Recovered(rounds, 1, "", rows).0;
    assert more[0] == Resubscribed("", Cursor(rows));
    assert Recovered(rounds, 0, task, rows).0 == [Resubscribed(task, Cursor(rows))] + r.seen + more;
  }

  /** The last test before bytes leave is passed. */
  predicate Reaches(f: Faults) {
    f.admissible && f.acquire && !f.stopped && f.guidance == Verified && f.timeLeft && f.gate.None?
  }

  /**
   The exchange ends complete: the send's own stream does, or it breaks behind a known task and a round
   of recovery from the last stored cursor ends complete.
   */
  predicate Completes(f: Faults)
    requires |f.rounds| == ROUNDS
  {
    if !f.streaming then f.first.ending == Complete
    else
      var rows := RowsAfter(f.first.events, []);
      var a, b := f.rounds[0], f.rounds[1];
      || StreamEnd(f.first) == Complete
      || (&& StreamEnd(f.first) == Broken && TaskAfter(f.first.events, "") != "" && Resumable(a, Cursor(rows))
          && (|| StreamEnd(a.delivery) == Complete
              || (&& Retried(StreamEnd(a.delivery)) && Resumable(b, Cursor(RowsAfter(a.delivery.events, rows)))
                  && StreamEnd(b.delivery) == Complete)))
  }

  /** The send and what follows it, up to the response: `dispatched` is set by the last test before bytes leave. */
  method Dispatch(before: seq<Event>, f: Faults) returns (story: seq<Event>, dispatched: bool, ending: Ending)
    requires Legal(f) && before == [Acquired]
    ensures dispatched ==> Answered(story, ending)
    ensures !dispatched ==> story == before && if f.timeLeft then f.gate == Some(ending) else ending == TimedOut
    ensures dispatched <==> f.timeLeft && f.gate.None?
    ensures dispatched ==> (ending == Complete <==> Completes(f))
  {
    story, dispatched := before, false;
    if !f.timeLeft { return story, false, TimedOut; }
    if f.gate.Some? { return story, false, f.gate.value; }
    AcquiredOnly();
    WatchGrows(story, Sent);
    story, dispatched := story + [Sent], true;
    assert Streaming(story, "", [], 0);
    if !f.streaming {
      WatchGrows(story, Closed(f.first.ending));
      return story + [Closed(f.first.ending)], true, f.first.ending;
    }
    var task, rows;
    StreamMeans(f.first, "", []);
    story, task, rows, ending := Consume(story, f.first, "", [], 0);
    if ending == Broken {
      RecoveredMeans(f.rounds, task, rows);
      story, ending := Recover(story, f.rounds, task, rows);
    }
  }

  lemma AcquiredOnly()
    ensures Watch([Acquired]) == Start().(acquired := true)
  {
    assert [Acquired] == [] + [Acquired];
    WatchGrows([], Acquired);
  }

  /** The protocol was kept, and the reply tells what an observer of the outside knows. */
  ghost predicate Truthful(story: seq<Event>, r: Reply) {
    var m := Watch(story);
    && m.legal
    && (story != [] ==> m.finished.Some?)
    && (r == Rejected <==> story == [])
    && (r == Done <==> m.finished == Some(Record(Succeeded, true)))
    && (r == EffectUncertain <==> m.finished == Some(Record(Uncertain, true)))
    && (r == OutcomeUnrecorded <==> m.finished.Some? && !m.finished.value.recorded)
    && (r == NotDispatched || r == GuidanceChanged || r == SendCancelled ==> m.sends == 0)
  }

  lemma Concluded(before: seq<Event>, outcome: Outcome, recorded: bool, r: Reply)
    requires var m := Watch(before);
             && m.legal && m.acquired && m.finished.None? && !m.open && (outcome == Failed <==> m.sends == 0)
             && (m.stream == Some(Complete) <==> m.result.Some?) && (outcome == Succeeded <==> m.result == Some(true))
    requires if !recorded then r == OutcomeUnrecorded
             else if outcome == Succeeded then r == Done
             else if outcome == Uncertain then r == EffectUncertain
             else r == NotDispatched || r == GuidanceChanged || r == SendCancelled
    ensures Truthful(before + [Finished(outcome, recorded)], r)
    ensures Watch(before + [Finished(outcome, recorded)]).sends == Watch(before).sends
  {
    WatchGrows(before, Finished(outcome, recorded));
  }

  /** Which reply an invocation gives. */
  ghost predicate Replies(f: Faults, r: Reply)
    requires |f.rounds| == ROUNDS
  {
    var acquired := f.admissible && f.acquire;
    && (r == Rejected <==> !acquired)
    && (r == OutcomeUnrecorded <==> acquired && !f.recorded)
    && (r == Done <==> Reaches(f) && Completes(f) && f.usable && f.recorded)
    && (r == EffectUncertain <==> Reaches(f) && !(Completes(f) && f.usable) && f.recorded)
    && (r == GuidanceChanged <==> acquired && !f.stopped && f.guidance == Changed && f.recorded)
    && (r == SendCancelled <==>
          && acquired && !f.stopped && f.guidance == Verified && f.timeLeft && f.gate == Some(Cancelled) && f.recorded)
  }

  method Invoke(f: Faults) returns (r: Reply, story: seq<Event>)
    requires Legal(f)
    ensures Truthful(story, r) && Replies(f, r)
    ensures Watch(story).sends == if Reaches(f) then 1 else 0
  {
    if !f.admissible || !f.acquire { return Rejected, []; }
    story := [Acquired];
    AcquiredOnly();
    if f.stopped {
      r := if f.recorded then NotDispatched else OutcomeUnrecorded;
      Concluded(story, Failed, f.recorded, r);
      return r, story + [Finished(Failed, f.recorded)];
    }
    if f.guidance != Verified {
      r := if !f.recorded then OutcomeUnrecorded else if f.guidance == Changed then GuidanceChanged else NotDispatched;
      Concluded(story, Failed, f.recorded, r);
      return r, story + [Finished(Failed, f.recorded)];
    }
    var dispatched, ending;
    story, dispatched, ending := Dispatch(story, f);
    if ending != Complete {
      r := if !f.recorded then OutcomeUnrecorded else if dispatched then EffectUncertain
        else if ending == Cancelled then SendCancelled else NotDispatched;
      var outcome := if dispatched then Uncertain else Failed;
      Concluded(story, outcome, f.recorded, r);
      return r, story + [Finished(outcome, f.recorded)];
    }
    WatchGrows(story, Read(f.usable));
    story := story + [Read(f.usable)];
    var outcome := if f.usable then Succeeded else Uncertain;
    r := if !f.recorded then OutcomeUnrecorded else if f.usable then Done else EffectUncertain;
    Concluded(story, outcome, f.recorded, r);
    story := story + [Finished(outcome, f.recorded)];
  }

  // -------------------------------------------------------------- what the protocol means

  function Sends(story: seq<Event>): nat {
    if story == [] then 0 else Sends(story[..|story| - 1]) + if story[|story| - 1] == Sent then 1 else 0
  }

  function Resumes(story: seq<Event>): nat {
    if story == [] then 0 else Resumes(story[..|story| - 1]) + if story[|story| - 1].Resubscribed? then 1 else 0
  }

  function Outcomes(story: seq<Event>): nat {
    if story == [] then 0 else Outcomes(story[..|story| - 1]) + if story[|story| - 1].Finished? then 1 else 0
  }

  ghost predicate Stores(e: Event, cursor: string) {
    e.Observed? && e.event.commits && e.event.cursor == cursor
  }

  /** The event at `i` is the first to store its cursor, so it has a row of its own. */
  ghost predicate AddsRow(story: seq<Event>, i: nat)
    requires i < |story|
  {
    && story[i].Observed? && story[i].event.commits && story[i].event.cursor != ""
    && forall k :: 0 <= k < i ==> !Stores(story[k], story[i].event.cursor)
  }

  /** The cursor is that of the last event with a row of its own. */
  ghost predicate LatestCursor(story: seq<Event>, cursor: string) {
    exists i :: 0 <= i < |story| && AddsRow(story, i) && story[i].event.cursor == cursor
                && forall j :: i < j < |story| ==> !AddsRow(story, j)
  }

  /** The task id is that of an event after which no event carries one. */
  ghost predicate LatestTask(story: seq<Event>, task: string) {
    exists i :: 0 <= i < |story| && story[i].Observed? && story[i].event.task == Some(task)
                && forall j :: i < j < |story| && story[j].Observed? ==> story[j].event.task.None?
  }

  lemma {:induction false} MonitorCounts(story: seq<Event>)
    ensures Watch(story).sends == Sends(story) && Watch(story).resumes == Resumes(story)
    ensures Watch(story).legal ==> Outcomes(story) == (if Watch(story).finished.Some? then 1 else 0)
    ensures Watch(story).legal ==> Sends(story) <= 1 && Resumes(story) <= ROUNDS
    decreases |story|
  {
    if story != [] {
      MonitorCounts(story[..|story| - 1]);
    }
  }

  /** A task id was seen: the one known is not empty, or one was resubscribed to. */
  predicate HasTask(m: Monitor) {
    m.task != "" || (m.resumes > 0 && m.legal)
  }

  lemma {:induction false} MonitorTask(story: seq<Event>)
    ensures HasTask(Watch(story)) ==> LatestTask(story, Watch(story).task)
    decreases |story|
  {
    if story != [] {
      var front, e := story[..|story| - 1], story[|story| - 1];
      MonitorTask(front);
      assert story == front + [e];
      if e.Observed? && e.event.task.Some? {
        NewTask(front, e);
      } else if HasTask(Watch(front)) {
        SameTask(front, e, Watch(front).task);
      }
    }
  }

  lemma NewTask(front: seq<Event>, e: Event)
    requires e.Observed? && e.event.task.Some?
    ensures LatestTask(front + [e], e.event.task.value)
  {
    assert (front + [e])[|front|] == e;
  }

  lemma SameTask(front: seq<Event>, e: Event, task: string)
    requires LatestTask(front, task) && (e.Observed? ==> e.event.task.None?)
    ensures LatestTask(front + [e], task)
  {
    var story := front + [e];
    var i :| 0 <= i < |front| && front[i].Observed? && front[i].event.task == Some(task)
             && forall j :: i < j < |front| && front[j].Observed? ==> front[j].event.task.None?;
    assert story[i] == front[i] && story[|front|] == e;
  }

  /** The rows are the cursors stored, and their last one is the latest. */
  ghost predicate RowsTell(story: seq<Event>, rows: seq<string>) {
    && (forall c :: c in rows <==> c != "" && exists i :: 0 <= i < |story| && Stores(story[i], c))
    && (rows != [] ==> LatestCursor(story, Cursor(rows)))
  }

  lemma {:induction false} MonitorRows(story: seq<Event>)
    ensures RowsTell(story, Watch(story).rows)
    decreases |story|
  {
    if story != [] {
      var front, e := story[..|story| - 1], story[|story| - 1];
      MonitorRows(front);
      assert story == front + [e];
      if e.Observed? && e.event.commits && e.event.cursor != "" && e.event.cursor !in Watch(front).rows {
        NewRow(front, e, Watch(front).rows);
      } else {
        SameRows(front, e, Watch(front).rows);
      }
    }
  }

  lemma StoredIn(front: seq<Event>, e: Event, c: string)
    ensures (exists i :: 0 <= i < |front| + 1 && Stores((front + [e])[i], c)) <==>
            Stores(e, c) || exists i :: 0 <= i < |front| && Stores(front[i], c)
  {
    var story := front + [e];
    assert story[|front|] == e && forall i :: 0 <= i < |front| ==> story[i] == front[i];
  }

  lemma NewRow(front: seq<Event>, e: Event, rows: seq<string>)
    requires RowsTell(front, rows) && e.Observed? && e.event.commits && e.event.cursor != "" && e.event.cursor !in rows
    ensures RowsTell(front + [e], rows + [e.event.cursor])
  {
    var story, more := front + [e], rows + [e.event.cursor];
    forall c ensures c in more <==> c != "" && exists i :: 0 <= i < |story| && Stores(story[i], c) {
      StoredIn(front, e, c);
    }
    assert story[|front|] == e && forall k :: 0 <= k < |front| ==> story[k] == front[k];
    assert AddsRow(story, |front|);
  }

  lemma SameRows(front: seq<Event>, e: Event, rows: seq<string>)
    requires RowsTell(front, rows)
    requires !(e.Observed? && e.event.commits && e.event.cursor != "" && e.event.cursor !in rows)
    ensures RowsTell(front + [e], rows)
  {
    var story := front + [e];
    forall c ensures c in rows <==> c != "" && exists i :: 0 <= i < |story| && Stores(story[i], c) {
      StoredIn(front, e, c);
    }
    if rows != [] {
      SameLatest(front, e, Cursor(rows));
    }
  }

  lemma SameLatest(front: seq<Event>, e: Event, cursor: string)
    requires LatestCursor(front, cursor)
    requires e.Observed? && e.event.commits && e.event.cursor != "" ==>
               exists i :: 0 <= i < |front| && Stores(front[i], e.event.cursor)
    ensures LatestCursor(front + [e], cursor)
  {
    var story := front + [e];
    assert story[|front|] == e && forall k :: 0 <= k < |front| ==> story[k] == front[k];
    var i :| 0 <= i < |front| && AddsRow(front, i) && front[i].event.cursor == cursor
             && forall j :: i < j < |front| ==> !AddsRow(front, j);
    assert AddsRow(story, i);
    forall j | i < j < |story| ensures !AddsRow(story, j) {
      if j < |front| {
        assert !AddsRow(front, j);
      }
    }
  }

  lemma {:induction false} LegalPrefix(story: seq<Event>, i: nat)
    requires Watch(story).legal && i < |story|
    ensures Watch(story[..i]).legal && Advance(Watch(story[..i]), story[i]).legal
    decreases |story|
  {
    var front := story[..|story| - 1];
    AdvanceStream(Watch(front), story[|story| - 1]);
    if i < |front| {
      LegalPrefix(front, i);
      assert front[..i] == story[..i];
    }
  }

  /** How the last stream of a story ended. */
  ghost predicate LastClosed(story: seq<Event>, ending: Ending) {
    exists k :: 0 <= k < |story| && story[k] == Closed(ending) && forall j :: k < j < |story| ==> !story[j].Closed?
  }

  ghost predicate ReadAs(story: seq<Event>, usable: bool) {
    exists k :: 0 <= k < |story| && story[k] == Read(usable)
  }

  lemma LastClosedStep(front: seq<Event>, e: Event, ending: Ending)
    ensures LastClosed(front + [e], ending) <==> if e.Closed? then e.ending == ending else LastClosed(front, ending)
  {
    var story := front + [e];
    assert story[|front|] == e && forall k :: 0 <= k < |front| ==> story[k] == front[k];
  }

  lemma ReadAsStep(front: seq<Event>, e: Event, usable: bool)
    ensures ReadAs(front + [e], usable) <==> e == Read(usable) || ReadAs(front, usable)
  {
    var story := front + [e];
    assert story[|front|] == e && forall k :: 0 <= k < |front| ==> story[k] == front[k];
  }

  /** The monitor knows how the last stream ended and how its result was read. */
  ghost predicate StreamTells(story: seq<Event>, m: Monitor) {
    && (forall ending :: LastClosed(story, ending) <==> m.stream == Some(ending))
    && (forall usable :: ReadAs(story, usable) <==> m.result == Some(usable))
  }

  lemma AdvanceStream(m: Monitor, e: Event)
    ensures var n := Advance(m, e);
            && n.stream == (if e.Closed? then Some(e.ending) else m.stream)
            && n.result == (if e.Read? then Some(e.usable) else m.result)
            && (n.legal ==> m.legal && (e.Read? ==> m.result.None?))
  {
  }

  lemma StreamTellsStep(front: seq<Event>, e: Event, m: Monitor, n: Monitor)
    requires StreamTells(front, m) && n.stream == if e.Closed? then Some(e.ending) else m.stream
    requires n.result == (if e.Read? then Some(e.usable) else m.result) && (e.Read? ==> m.result.None?)
    ensures StreamTells(front + [e], n)
  {
    forall ending ensures LastClosed(front + [e], ending) <==> n.stream == Some(ending) {
      LastClosedStep(front, e, ending);
    }
    forall usable ensures ReadAs(front + [e], usable) <==> n.result == Some(usable) {
      ReadAsStep(front, e, usable);
    }
  }

  lemma NothingYet()
    ensures StreamTells([], Start())
  {
  }

  lemma {:induction false} MonitorStream(story: seq<Event>)
    requires Watch(story).legal
    ensures StreamTells(story, Watch(story))
    decreases |story|
  {
    if story == [] {
      NothingYet();
    }
    if story != [] {
      var front, e := story[..|story| - 1], story[|story| - 1];
      var m := Watch(front);
      AdvanceStream(m, e);
      MonitorStream(front);
      StreamTellsStep(front, e, m, Advance(m, e));
      assert story == front + [e];
    }
  }

  /** What the outcome, the reading and the resubscriptions rest on. */
  ghost predicate Founded(m: Monitor, e: Event) {
    && (e.Read? ==> m.stream == Some(Complete))
    && (e.Finished? ==>
          && (e.outcome == Succeeded <==> m.result == Some(true)) && (e.outcome == Failed <==> m.sends == 0)
          && (m.stream == Some(Complete) <==> m.result.Some?))
    && (e.Resubscribed? ==> m.stream == Some(Broken) || (m.resumes > 0 && m.stream == Some(TimedOut)))
  }

  lemma OutcomeStep(m: Monitor, e: Event)
    requires Advance(m, e).legal
    ensures Founded(m, e)
  {
  }

  lemma OutcomeTells(front: seq<Event>, e: Event, m: Monitor)
    requires StreamTells(front, m) && Founded(m, e)
    ensures e.Finished? ==>
              && (e.outcome == Succeeded <==> LastClosed(front, Complete) && ReadAs(front, true))
              && (LastClosed(front, Complete) <==> ReadAs(front, true) || ReadAs(front, false))
    ensures e.Read? ==> LastClosed(front, Complete)
    ensures e.Resubscribed? ==> LastClosed(front, Broken) || (m.resumes > 0 && LastClosed(front, TimedOut))
  {
    assert m.result.Some? ==> m.result.value || m.result == Some(false);
    assert ReadAs(front, true) <==> m.result == Some(true);
    assert ReadAs(front, false) <==> m.result == Some(false);
  }

  /**
   The outcome on record: Succeeded exactly when the last stream ended complete and its result was read
   as usable; a result is read exactly from a stream that ended complete; and a resubscription follows a
   stream that broke, the second also one that timed out.
   */
  lemma OutcomeMeans(story: seq<Event>, i: nat)
    requires Watch(story).legal && i < |story|
    ensures story[i].Finished? ==>
              && (story[i].outcome == Succeeded <==> LastClosed(story[..i], Complete) && ReadAs(story[..i], true))
              && (LastClosed(story[..i], Complete) <==> ReadAs(story[..i], true) || ReadAs(story[..i], false))
    ensures story[i].Read? ==> LastClosed(story[..i], Complete)
    ensures story[i].Resubscribed? ==>
              LastClosed(story[..i], Broken) || (Resumes(story[..i]) > 0 && LastClosed(story[..i], TimedOut))
  {
    LegalPrefix(story, i);
    OutcomeStep(Watch(story[..i]), story[i]);
    MonitorStream(story[..i]);
    MonitorCounts(story[..i]);
    OutcomeTells(story[..i], story[i], Watch(story[..i]));
  }

  lemma ProtocolStep(m: Monitor, e: Event)
    requires Advance(m, e).legal
    ensures e.Resubscribed? ==>
              && m.sends == 1 && m.legal && e.task == m.task && (m.resumes == 0 ==> e.task != "")
              && e.cursor != "" && e.cursor == Cursor(m.rows)
    ensures m.finished.Some? ==> !e.Sent? && !e.Observed? && !e.Resubscribed? && !e.Finished?
  {
  }

  /**
   What every invocation keeps: one send at most, two resubscriptions at most, each with the latest
   task id and the latest stored cursor, the first with an id that is not empty; and never Failed
   after a send nor Uncertain before one.
   */
  lemma ProtocolMeans(story: seq<Event>, i: nat)
    requires Watch(story).legal && i < |story|
    ensures Sends(story) <= 1 && Resumes(story) <= ROUNDS && Outcomes(story) <= 1
    ensures story[i].Resubscribed? ==> Sends(story[..i]) == 1 && LatestTask(story[..i], story[i].task)
                                       && (Resumes(story[..i]) == 0 ==> story[i].task != "")
                                       && story[i].cursor != "" && LatestCursor(story[..i], story[i].cursor)
    ensures story[i].Finished? ==> (story[i].outcome == Failed <==> Sends(story[..i]) == 0)
    ensures Outcomes(story[..i]) == 1 ==>
              !story[i].Sent? && !story[i].Observed? && !story[i].Resubscribed? && !story[i].Finished?
  {
    MonitorCounts(story);
    LegalPrefix(story, i);
    MonitorCounts(story[..i]);
    ProtocolStep(Watch(story[..i]), story[i]);
    OutcomeStep(Watch(story[..i]), story[i]);
    if story[i].Resubscribed? {
      MonitorTask(story[..i]);
      MonitorRows(story[..i]);
    }
  }

  lemma OneLatestTask(story: seq<Event>, a: string, b: string)
    requires LatestTask(story, a) && LatestTask(story, b)
    ensures a == b
  {
    var i :| 0 <= i < |story| && story[i].Observed? && story[i].event.task == Some(a)
             && forall k :: i < k < |story| && story[k].Observed? ==> story[k].event.task.None?;
    var j :| 0 <= j < |story| && story[j].Observed? && story[j].event.task == Some(b)
             && forall k :: j < k < |story| && story[k].Observed? ==> story[k].event.task.None?;
    assert i == j;
  }

  /** A resubscription names a known task exactly when the last id the peer sent is not empty. */
  lemma KnownTaskUnlessCleared(story: seq<Event>, i: nat)
    requires Watch(story).legal && i < |story| && story[i].Resubscribed?
    ensures story[i].task != "" <==> !LatestTask(story[..i], "")
  {
    ProtocolMeans(story, i);
    if LatestTask(story[..i], "") {
      OneLatestTask(story[..i], "", story[i].task);
    }
  }
}
