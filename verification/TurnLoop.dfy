/**
 The turn loop of an agent run on the context-managed path: reservation, start and finish of model
 attempts, at most one context rebuild per turn, tool turns, and the ladder of terminal outcomes.
 Every outside call may fail: a fault schedule fixes what each of them does, and the results are
 stated for every schedule.
 */
module TurnLoop {
  import opened Common

  datatype Call = Call(id: string, name: string)

  datatype ToolResult = ToolResult(content: string, callId: string)

  datatype Completion = Stopped | ToolCalls(calls: seq<Call>) | Unsupported

  /** Errors by what the ladder at the end of the run does with them. */
  datatype Error = Cancellation | Unrecorded | Overflow | Http | Other

  datatype Outcome = Completed | ContextOverflow | Cancelled | Failed

  datatype RunState = RunCompleted | RunFailed | RunCancelled

  /** What became of an attempt: no start, no reply, or a reply, perhaps one that cannot be formatted. */
  datatype End = Pending | Unstarted | Replied | Overflowed | Broke | Unformatted

  /** What a run does to the outside. */
  datatype Event =
    | Turn
    | Reserved
    | PinBroke
    | Called
    | Output
    | Ended(end: End)
    | Finished(outcome: Outcome, recorded: bool, stop: bool)
    | Committed(calls: seq<Call>, results: seq<ToolResult>)
    | Terminal(state: RunState, applied: bool)

  // ---------------------------------------------------------------------- fault schedules

  /** Storing a model event: it may fail, or be stored and its acknowledgement lost. */
  datatype Append = Stored | NotStored | Unacknowledged

  datatype ModelEvent = ModelEvent(visible: bool, cancelled: bool, append: Append)

  datatype CallEnding = Completes(completion: Completion) | Raises(error: Error)

  /**
   One model attempt: its start, the streamed events, its ending, the formatting of the reply, the
   stop token when it fails, the recording of its outcome; then, for a rebuild, the new context.
   */
  datatype AttemptFaults = AttemptFaults(start: Option<Error>, events: seq<ModelEvent>, ending: CallEnding,
                                         format: Option<Error>,
                                         stop: bool, recorded: bool, rebuild: Option<Error>, repin: Option<Error>)

  datatype ToolFaults = ToolFaults(cancelled: bool, started: Option<Error>, output: Result<string, Error>,
                                   stopped: bool, completed: Option<Error>)

  datatype TurnFaults = TurnFaults(entry: Option<Error>, prepare: Option<Error>, pin: Option<Error>,
                                   first: AttemptFaults, second: AttemptFaults,
                                   cancelled: bool, join: Option<Error>, joined: bool, plan: Option<Error>,
                                   planOpen: bool,
                                   tools: seq<ToolFaults>, commit: Option<Error>)

  /** A terminal transition asked of the journal: it may also be applied and its acknowledgement lost. */
  datatype Verdict = Acknowledged | Refused(error: Error) | Lost(error: Error)

  datatype Settings = Settings(maxTurns: nat, automatic: bool, pinned: bool)

  /** Only the recording of an outcome, and the context manager, report an outcome as unrecorded. */
  predicate Plain(e: Option<Error>) {
    e != Some(Unrecorded)
  }

  predicate LegalAttempt(a: AttemptFaults) {
    Plain(a.start) && Plain(a.format) && Plain(a.repin) && a.ending != Raises(Unrecorded)
  }

  predicate LegalTurn(t: TurnFaults) {
    Plain(t.pin) && LegalAttempt(t.first) && LegalAttempt(t.second)
  }

  // ------------------------------------------------------------------------- the protocol

  /** What an observer of the outside knows so far; `legal` is false once the protocol was broken. */
  datatype Monitor = Monitor(legal: bool, turns: nat, inTurn: nat, attempts: nat, calls: nat, open: bool, broken: bool,
                             called: bool,
                             visible: bool, end: End, last: Option<Outcome>, closed: bool, ended: bool)

  function Start(): Monitor {
    Monitor(true, 0, 0, 0, 0, false, false, false, false, Pending, None, false, false)
  }

  ghost predicate Matches(calls: seq<Call>, results: seq<ToolResult>) {
    |results| == |calls| && forall i :: 0 <= i < |calls| ==> results[i].callId == calls[i].id
  }

  /** The outcome on record is what happened to the attempt. */
  predicate Truthful(m: Monitor, outcome: Outcome, stop: bool) {
    match outcome
    case Completed => m.end == Replied
    case ContextOverflow => m.end == Overflowed && !m.visible
    case Cancelled => FailedEnd(m.end) && stop
    case Failed => FailedEnd(m.end) && !stop
  }

  /** No start, no reply, or no reply that can be used. */
  predicate FailedEnd(end: End) {
    end != Pending && end != Replied
  }

  /** An end in its place: of a start before the call, of a reply after it, of its formatting behind the reply. */
  predicate EndsIn(m: Monitor, end: End) {
    match end
    case Pending => false
    case Unstarted => !m.called && m.end == Pending
    case Unformatted => m.called && m.end == Replied
    case _ => m.called && m.end == Pending
  }

  /**
   The protocol: attempts only inside a turn, the second only after an overflow, each called at most
   once and finished exactly once with a truthful outcome before anything else happens; tool turns
   only after a completed attempt; nothing after a lost outcome, and after an applied terminal
   transition nothing but refused ones. An attempt may stay unfinished in one case only, a broken pin.
   */
  ghost function Advance(m: Monitor, e: Event): Monitor {
    match e
    case Turn => m.(legal := m.legal && !m.open && !m.closed, turns := m.turns + 1, inTurn := 0, last := None)
    case Reserved =>
      m.(legal := m.legal && !m.open && !m.closed && m.turns > 0
        && (m.inTurn == 0 || (m.inTurn == 1 && m.last == Some(ContextOverflow))),
         attempts := m.attempts + 1, inTurn := m.inTurn + 1, open := true,
         called := false, visible := false, end := Pending)
    case PinBroke => m.(legal := m.legal && m.open && !m.called && !m.closed, broken := true)
    case Called =>
      m.(legal := m.legal && m.open && !m.called && !m.broken && !m.closed, called := true, calls := m.calls + 1)
    case Output => m.(legal := m.legal && m.open && m.called && m.end == Pending && !m.closed, visible := true)
    case Ended(end) => m.(legal := m.legal && m.open && !m.closed && EndsIn(m, end), end := end)
    case Finished(outcome, recorded, stop) =>
      m.(legal := m.legal && m.open && !m.broken && !m.closed && Truthful(m, outcome, stop),
         open := false, last := Some(outcome), closed := !recorded)
    case Committed(calls, results) =>
      m.(legal := m.legal && !m.open && !m.closed && m.last == Some(Completed) && Matches(calls, results))
    case Terminal(_, applied) =>
      m.(legal := m.legal && (m.closed ==> m.ended && !applied) && (m.open ==> m.broken),
         closed := m.closed || applied, ended := m.ended || applied)
  }

  ghost function Watch(story: seq<Event>): Monitor {
    if story == [] then Start() else Advance(Watch(story[..|story| - 1]), story[|story| - 1])
  }

  lemma WatchGrows(story: seq<Event>, e: Event)
    ensures Watch(story + [e]) == Advance(Watch(story), e)
  {
    assert (story + [e])[..|story|] == story;
  }

  // ------------------------------------------------------------------------ one model call

  /** A reserved attempt of turn `turns`, the `k`-th of its turn, not yet finished. */
  ghost predicate Opened(story: seq<Event>, turns: nat, k: nat, called: bool, visible: bool, end: End) {
    var m := Watch(story);
    && m.legal && !m.closed && !m.ended && !m.broken && m.open && m.turns == turns > 0 && m.inTurn == k
    && m.called == called && m.visible == visible && m.end == end
  }

  /** Between attempts. */
  ghost predicate Settled(story: seq<Event>, turns: nat, k: nat, last: Outcome) {
    var m := Watch(story);
    m.legal && !m.closed && !m.ended && !m.broken && !m.open && m.turns == turns > 0 && m.inTurn == k
      && m.last == Some(last)
  }

  /** The context was too long and nothing of the reply was seen: the one case that may be tried again. */
  predicate Quiet(a: AttemptFaults) {
    a.ending == Raises(Overflow) && forall e :: e in a.events ==> !e.cancelled && e.append == Stored && !e.visible
  }

  /** The first attempt of a turn is superseded by a second. */
  predicate Rebuilds(s: Settings, a: AttemptFaults) {
    s.automatic && a.start.None? && Quiet(a) && a.recorded && a.rebuild.None?
  }

  /** The model call runs to its own end: no event is cancelled or fails to be stored. */
  predicate Streams(a: AttemptFaults) {
    forall e :: e in a.events ==> !e.cancelled && e.append == Stored
  }

  // ------------------------------------------------- the error a turn leaves with

  /** The first error of a list of outcomes. */
  function First(outcomes: seq<Option<Error>>): Option<Error> {
    if outcomes == [] then None else if outcomes[0].Some? then outcomes[0] else First(outcomes[1..])
  }

  /** The first event that is cancelled or not acknowledged. */
  function StreamError(events: seq<ModelEvent>): Option<Error> {
    if events == [] then None
    else if events[0].cancelled then Some(Cancellation)
    else if events[0].append != Stored then Some(Other)
    else StreamError(events[1..])
  }

  function EndingError(ending: CallEnding): Option<Error> {
    if ending.Raises? then Some(ending.error) else None
  }

  /** An attempt that is not superseded: its outcome is recorded whatever happened, and that may fail. */
  function AttemptError(a: AttemptFaults): Option<Error> {
    if !a.recorded then Some(Unrecorded)
    else First([a.start, StreamError(a.events), EndingError(a.ending), a.format])
  }

  function AttemptsError(s: Settings, t: TurnFaults): Option<Error> {
    var a := t.first;
    if !(s.automatic && a.start.None? && Quiet(a)) then AttemptError(a)
    else if !a.recorded then Some(Unrecorded)
    else First([a.rebuild, if s.pinned then a.repin else None, AttemptError(t.second)])
  }

  function ToolsError(calls: seq<Call>, faults: seq<ToolFaults>): Option<Error> {
    if calls == [] || faults == [] then None
    else if !ToolAnswers(faults[0]) then Some(ToolError(faults[0]))
    else ToolsError(calls[1..], faults[1..])
  }

  /** What can go wrong behind a reply. */
  function ReplyError(t: TurnFaults, c: Completion): Option<Error> {
    if t.cancelled then Some(Cancellation)
    else
      match c
      case Stopped => First([t.join, if t.joined then None else t.plan])
      case Unsupported => Some(Other)
      case ToolCalls(calls) => First([ToolsError(calls, t.tools), t.commit])
  }

  /** The error a turn leaves with: the first in the order of its outside calls. */
  function TurnError(s: Settings, t: TurnFaults): Option<Error> {
    First([t.entry, t.prepare, if s.pinned then t.pin else None, AttemptsError(s, t),
           if Answer(s, t).Some? then ReplyError(t, Answer(s, t).value) else None])
  }

  /** What one attempt answers. */
  function Answers(a: AttemptFaults): Option<Completion> {
    if a.start.None? && Streams(a) && a.ending.Completes? && a.format.None? && a.recorded then Some(a.ending.completion)
    else None
  }

  /** What the attempts of a turn answer: the second counts exactly when it supersedes the first. */
  function Answer(s: Settings, t: TurnFaults): Option<Completion> {
    if !Rebuilds(s, t.first) then Answers(t.first)
    else if s.pinned && t.first.repin.Some? then None
    else Answers(t.second)
  }

  /** The consumer of streamed events: it stops at the first one cancelled or not acknowledged. */
  method Consume(before: seq<Event>, events: seq<ModelEvent>, ghost turns: nat, ghost k: nat)
    returns (story: seq<Event>, durable: bool, failure: Option<Error>, ghost visible: bool)
    requires Opened(before, turns, k, true, false, Pending)
    ensures Opened(story, turns, k, true, visible, Pending)
    ensures failure.None? <==> forall e :: e in events ==> !e.cancelled && e.append == Stored
    ensures failure.None? ==> (visible ==> durable) && (durable <==> exists e :: e in events && e.visible)
    ensures failure != Some(Overflow) && failure == StreamError(events)
  {
    story, durable, visible := before, false, false;
    var i := 0;
    assert events[0..] == events;
    while i < |events|
      invariant 0 <= i <= |events| && StreamError(events) == StreamError(events[i..])
      invariant Opened(story, turns, k, true, visible, Pending)
      invariant visible ==> durable
      invariant forall j :: 0 <= j < i ==> !events[j].cancelled && events[j].append == Stored
      invariant durable <==> exists j :: 0 <= j < i && events[j].visible
    {
      var e := events[i];
      assert e in events && events[i..][0] == e && events[i..][1..] == events[i + 1..];
      if e.cancelled { return story, durable, Some(Cancellation), visible; }
      if e.visible && e.append != NotStored {
        WatchGrows(story, Output);
        story, visible := story + [Output], true;
      }
      if e.append != Stored { return story, durable, Some(Other), visible; }
      if e.visible { durable := true; }
      i := i + 1;
    }
    failure := None;
  }

  /** The model call with its event consumer: `durable` once a visible event is acknowledged as stored. */
  method CallModel(before: seq<Event>, a: AttemptFaults, ghost turns: nat, ghost k: nat)
    returns (story: seq<Event>, durable: bool, ending: CallEnding, ghost visible: bool, ghost end: End)
    requires Opened(before, turns, k, false, false, Pending)
    ensures Opened(story, turns, k, true, visible, end)
    ensures ending == Raises(Overflow) ==> end == Overflowed && (visible ==> durable)
    ensures if ending.Completes? then end == Replied && ending == a.ending else FailedEnd(end)
    ensures ending == Raises(Overflow) && !durable <==> Quiet(a)
    ensures ending.Completes? <==> Streams(a) && a.ending.Completes?
    ensures EndingError(ending) == First([StreamError(a.events), EndingError(a.ending)])
  {
    WatchGrows(before, Called);
    var failure;
    story, durable, failure, visible := Consume(before + [Called], a.events, turns, k);
    ending := if failure.Some? then Raises(failure.value) else a.ending;
    FirstOfTwo(StreamError(a.events), EndingError(a.ending));
    var last := if ending.Completes? then Replied else if ending.error == Overflow then Overflowed else Broke;
    WatchGrows(story, Ended(last));
    story, end := story + [Ended(last)], last;
  }

  lemma FirstOfTwo(a: Option<Error>, b: Option<Error>)
    ensures First([a, b]) == if a.Some? then a else b
  {
    var all, last := [a, b], [b];
    assert all[1..] == last && last[1..] == [];
    assert First(last) == b;
  }

  lemma FirstOfThree(a: Option<Error>, b: Option<Error>, c: Option<Error>)
    ensures First([a, b, c]) == if a.Some? then a else First([b, c])
  {
    assert [a, b, c][1..] == [b, c];
  }

  lemma FirstOfFour(a: Option<Error>, b: Option<Error>, c: Option<Error>, d: Option<Error>)
    ensures First([a, b, c, d]) == if a.Some? then a else First([b, c, d])
  {
    assert [a, b, c, d][1..] == [b, c, d];
  }

  /** An attempt ends: the loop goes on with its completion, or with an error in hand. */
  datatype Flow<T> = Go(value: T) | Throw(error: Error)

  /** What the story looks like when an error leaves the attempts: the attempt is settled, lost or pinned open. */
  ghost predicate Left(story: seq<Event>, turns: nat, error: Error) {
    var m := Watch(story);
    && m.legal && m.turns == turns
    && (m.closed ==> error == Unrecorded) && !m.ended
    && (m.open <==> m.broken) && (m.broken ==> !m.closed)
  }

  /** Records an attempt's outcome, once. */
  method FinishAttempt(before: seq<Event>, outcome: Outcome, a: AttemptFaults, ghost turns: nat, ghost k: nat,
                       ghost called: bool, ghost visible: bool, ghost end: End)
    returns (story: seq<Event>, ok: bool)
    requires Opened(before, turns, k, called, visible, end)
    requires match outcome
             case Completed => end == Replied
             case ContextOverflow => end == Overflowed && !visible
             case Cancelled => FailedEnd(end) && a.stop
             case Failed => FailedEnd(end) && !a.stop
    ensures ok ==> Settled(story, turns, k, outcome)
    ensures !ok ==> Left(story, turns, Unrecorded)
    ensures ok == a.recorded && !Watch(story).open
  {
    WatchGrows(before, Finished(outcome, a.recorded, a.stop));
    story, ok := before + [Finished(outcome, a.recorded, a.stop)], a.recorded;
  }

  /** A failure with the attempt still open: it is finished as cancelled or failed and the error goes on. */
  method Abandon(before: seq<Event>, a: AttemptFaults, error: Error, ghost turns: nat, ghost k: nat, ghost called: bool,
                 ghost visible: bool, ghost end: End)
    returns (story: seq<Event>, r: Error)
    requires Opened(before, turns, k, called, visible, end) && FailedEnd(end)
    ensures Left(story, turns, r) && !Watch(story).open
    ensures r == if a.recorded then error else Unrecorded
  {
    var ok;
    story, ok := FinishAttempt(before, if a.stop then Cancelled else Failed, a, turns, k, called, visible, end);
    r := if ok then error else Unrecorded;
  }

  /** A first attempt that overflowed unseen is finished as such and replaced by a second. */
  method Supersede(before: seq<Event>, s: Settings, a: AttemptFaults, ghost turns: nat)
    returns (story: seq<Event>, failure: Option<Error>)
    requires Plain(a.repin) && Opened(before, turns, 1, true, false, Overflowed)
    ensures failure.None? ==> Opened(story, turns, 2, false, false, Pending)
    ensures failure.Some? ==> Left(story, turns, failure.value)
    ensures failure.Some? ==> (Watch(story).open <==> s.pinned && a.recorded && a.rebuild.None? && a.repin.Some?)
    ensures failure.None? <==> a.recorded && a.rebuild.None? && !(s.pinned && a.repin.Some?)
    ensures failure == if !a.recorded then Some(Unrecorded) else First([a.rebuild, if s.pinned then a.repin else None])
  {
    FirstOfTwo(a.rebuild, if s.pinned then a.repin else None);
    var ok;
    story, ok := FinishAttempt(before, ContextOverflow, a, turns, 1, true, false, Overflowed);
    if !ok { return story, Some(Unrecorded); }
    if a.rebuild.Some? { return story, a.rebuild; }
    WatchGrows(story, Reserved);
    story, failure := story + [Reserved], None;
    if s.pinned && a.repin.Some? {
      WatchGrows(story, PinBroke);
      return story + [PinBroke], a.repin;
    }
  }

  /** The attempt's reply is formatted and recorded, or the attempt is abandoned. */
  method Conclude(before: seq<Event>, a: AttemptFaults, ending: CallEnding, ghost turns: nat, ghost k: nat,
                  ghost visible: bool, ghost end: End)
    returns (story: seq<Event>, r: Flow<Completion>)
    requires Opened(before, turns, k, true, visible, end)
    requires if ending.Completes? then end == Replied else FailedEnd(end)
    ensures r.Go? ==> Settled(story, turns, k, Completed)
    ensures r.Throw? ==> Left(story, turns, r.error)
    ensures !Watch(story).open && (r.Go? <==> ending.Completes? && a.format.None? && a.recorded)
    ensures r.Go? ==> ending == Completes(r.value)
    ensures r.Throw? ==>
              r.error == if !a.recorded then Unrecorded else if ending.Raises? then ending.error else a.format.value
  {
    var e;
    if ending.Raises? {
      story, e := Abandon(before, a, ending.error, turns, k, true, visible, end);
      return story, Throw(e);
    }
    if a.format.Some? {
      WatchGrows(before, Ended(Unformatted));
      story, e := Abandon(before + [Ended(Unformatted)], a, a.format.value, turns, k, true, visible, Unformatted);
      return story, Throw(e);
    }
    var ok;
    story, ok := FinishAttempt(before, Completed, a, turns, k, true, visible, end);
    r := if ok then Go(ending.completion) else Throw(Unrecorded);
  }

  lemma StartFails(s: Settings, t: TurnFaults, second: bool)
    ensures var a := if second then t.second else t.first;
            a.start.Some? ==>
              && AttemptError(a) == Some(if a.recorded then a.start.value else Unrecorded)
              && (!second ==> AttemptsError(s, t) == AttemptError(a))
  {
  }

  lemma Superseded(s: Settings, t: TurnFaults)
    requires s.automatic && t.first.start.None? && Quiet(t.first)
    ensures var a := t.first;
            var early := if !a.recorded then Some(Unrecorded)
                         else First([a.rebuild, if s.pinned then a.repin else None]);
            AttemptsError(s, t) == if early.Some? then early else AttemptError(t.second)
  {
    var a := t.first;
    var repin := if s.pinned then a.repin else None;
    FirstOfThree(a.rebuild, repin, AttemptError(t.second));
    FirstOfTwo(repin, AttemptError(t.second));
    FirstOfTwo(a.rebuild, repin);
  }

  lemma Concluded(a: AttemptFaults, ending: CallEnding, r: Flow<Completion>)
    requires a.start.None? && EndingError(ending) == First([StreamError(a.events), EndingError(a.ending)])
    requires r.Go? <==> ending.Completes? && a.format.None? && a.recorded
    requires r.Throw? ==>
               r.error == if !a.recorded then Unrecorded else if ending.Raises? then ending.error else a.format.value
    ensures AttemptError(a) == if r.Throw? then Some(r.error) else None
  {
    FirstOfFour(a.start, StreamError(a.events), EndingError(a.ending), a.format);
    FirstOfThree(StreamError(a.events), EndingError(a.ending), a.format);
    FirstOfTwo(EndingError(a.ending), a.format);
    FirstOfTwo(StreamError(a.events), EndingError(a.ending));
  }

  /**
   The attempts of one turn, the first of them reserved. An attempt stays unfinished exactly when
   the second pin breaks.
   */
  method Attempts(before: seq<Event>, s: Settings, t: TurnFaults, ghost turns: nat)
    returns (story: seq<Event>, r: Flow<Completion>, ghost k: nat)
    requires LegalTurn(t) && Opened(before, turns, 1, false, false, Pending)
    ensures r.Go? ==> Settled(story, turns, k, Completed)
    ensures r.Throw? ==> Left(story, turns, r.error)
    ensures Watch(story).open <==> s.pinned && Rebuilds(s, t.first) && t.first.repin.Some?
    ensures r.Go? <==> Answer(s, t).Some?
    ensures r.Go? ==> Answer(s, t) == Some(r.value)
    ensures AttemptsError(s, t) == if r.Throw? then Some(r.error) else None
  {
    story := before;
    var rebuildUsed := false;
    k := 1;
    while true
      invariant k == if rebuildUsed then 2 else 1
      invariant Opened(story, turns, k, false, false, Pending)
      invariant rebuildUsed ==> !(s.pinned && t.first.repin.Some?) && Rebuilds(s, t.first)
      invariant rebuildUsed ==> AttemptsError(s, t) == AttemptError(t.second)
      decreases 2 - k
    {
      var a := if rebuildUsed then t.second else t.first;
      if a.start.Some? {
        var e;
        WatchGrows(story, Ended(Unstarted));
        StartFails(s, t, rebuildUsed);
        story, e := Abandon(story + [Ended(Unstarted)], a, a.start.value, turns, k, false, false, Unstarted);
        return story, Throw(e), k;
      }
      var durable, ending;
      ghost var visible, end;
      story, durable, ending, visible, end := CallModel(story, a, turns, k);
      if ending == Raises(Overflow) && !rebuildUsed && s.automatic && !durable {
        var failure;
        story, failure := Supersede(story, s, a, turns);
        Superseded(s, t);
        if failure.Some? { return story, Throw(failure.value), k; }
        rebuildUsed, k := true, 2;
      } else {
        story, r := Conclude(story, a, ending, turns, k, visible, end);
        Concluded(a, ending, r);
        return story, r, k;
      }
    }
    assert false;
  }

  // --------------------------------------------------------------------------- tool turns

  /** A tool call that yields a result, be it a reported failure of the tool. */
  predicate ToolAnswers(f: ToolFaults) {
    !f.cancelled && f.started.None? && f.output.Ok? && !f.stopped && f.completed.None?
  }

  /** The error that a call without a result raises: the first fault in the order of its steps. */
  function ToolError(f: ToolFaults): Error
    requires !ToolAnswers(f)
  {
    if f.cancelled then Cancellation
    else if f.started.Some? then f.started.value
    else if f.output.Err? then f.output.error
    else if f.stopped then Cancellation
    else f.completed.value
  }

  predicate FirstToFail(faults: seq<ToolFaults>, k: nat) {
    k < |faults| && !ToolAnswers(faults[k]) && forall i :: 0 <= i < k ==> ToolAnswers(faults[i])
  }

  predicate ToolsAnswer(calls: seq<Call>, faults: seq<ToolFaults>) {
    |faults| >= |calls| && forall i :: 0 <= i < |calls| ==> ToolAnswers(faults[i])
  }

  /** One result per call in call order, or the first error that no tool result reports. */
  method RunTools(calls: seq<Call>, faults: seq<ToolFaults>) returns (r: Flow<seq<ToolResult>>)
    requires |faults| >= |calls|
    ensures r.Go? ==> Matches(calls, r.value)
    ensures r.Go? <==> ToolsAnswer(calls, faults)
    ensures r.Throw? ==> exists k :: 0 <= k < |calls| && FirstToFail(faults, k) && r.error == ToolError(faults[k])
    ensures ToolsError(calls, faults) == if r.Throw? then Some(r.error) else None
    ensures r.Go? ==> forall i :: 0 <= i < |calls| ==> faults[i].output == Ok(r.value[i].content)
  {
    var results: seq<ToolResult> := [];
    assert calls[0..] == calls && faults[0..] == faults;
    for index := 0 to |calls|
      invariant |results| == index && ToolsError(calls, faults) == ToolsError(calls[index..], faults[index..])
      invariant forall i :: 0 <= i < index ==> ToolAnswers(faults[i])
      invariant forall i :: 0 <= i < index ==>
                  results[i].callId == calls[i].id && faults[i].output == Ok(results[i].content)
    {
      var f := faults[index];
      assert !ToolAnswers(f) ==> FirstToFail(faults, index);
      assert faults[index..][0] == f && calls[index..][1..] == calls[index + 1..];
      assert faults[index..][1..] == faults[index + 1..];
      if f.cancelled { return Throw(Cancellation); }
      if f.started.Some? { return Throw(f.started.value); }
      if f.output.Err? { return Throw(f.output.error); }
      if f.stopped { return Throw(Cancellation); }
      if f.completed.Some? { return Throw(f.completed.value); }
      results := results + [ToolResult(f.output.value, calls[index].id)];
    }
    r := Go(results);
  }

  // -------------------------------------------------------------------------- a whole turn

  /** How a turn ends: the next one, a terminal transition asked for, or an error. */
  datatype TurnEnd = NextTurn | Terminate(state: RunState) | Leave(error: Error)

  /** Between turns. */
  ghost predicate Between(story: seq<Event>, turns: nat) {
    var m := Watch(story);
    m.legal && !m.closed && !m.ended && !m.broken && !m.open && m.turns == turns
  }

  /** A terminal state asked for inside the loop: after a completed attempt, and never a cancellation. */
  ghost predicate Concludes(story: seq<Event>, state: RunState) {
    Watch(story).last == Some(Completed) && state != RunCancelled
  }

  /** A reply after which the next turn begins. */
  predicate GoesOn(t: TurnFaults, c: Completion) {
    !t.cancelled && ((c.Stopped? && t.join.None? && t.joined)
      || (c.ToolCalls? && ToolsAnswer(c.calls, t.tools) && t.commit.None?))
  }

  /** A reply that completes the run. */
  predicate IsFinal(t: TurnFaults, c: Completion) {
    !t.cancelled && c.Stopped? && t.join.None? && !t.joined && t.plan.None? && !t.planOpen
  }

  /** A reply that would complete the run but for a plan that is not finished. */
  predicate PlanOpen(t: TurnFaults, c: Completion) {
    !t.cancelled && c.Stopped? && t.join.None? && !t.joined && t.plan.None? && t.planOpen
  }

  method AfterReply(before: seq<Event>, t: TurnFaults, completion: Completion, ghost turns: nat, ghost k: nat)
    returns (story: seq<Event>, end: TurnEnd)
    requires Settled(before, turns, k, Completed)
    requires completion.ToolCalls? ==> |t.tools| >= |completion.calls|
    ensures Between(story, turns) && (end.Terminate? ==> Concludes(story, end.state))
    ensures end.NextTurn? <==> GoesOn(t, completion)
    ensures end == Terminate(RunCompleted) <==> IsFinal(t, completion)
    ensures end == Terminate(RunFailed) <==> PlanOpen(t, completion)
    ensures ReplyError(t, completion) == if end.Leave? then Some(end.error) else None
    ensures end.NextTurn? && completion.ToolCalls? ==>
              story != [] && story[|story| - 1].Committed? && story[|story| - 1].calls == completion.calls
  {
    story := before;
    if t.cancelled { return story, Leave(Cancellation); }
    match completion {
      case Stopped =>
        FirstOfTwo(t.join, if t.joined then None else t.plan);
        if t.join.Some? { return story, Leave(t.join.value); }
        if t.joined { return story, NextTurn; }
        if t.plan.Some? { return story, Leave(t.plan.value); }
        return story, Terminate(if t.planOpen then RunFailed else RunCompleted);
      case Unsupported => return story, Leave(Other);
      case ToolCalls(calls) =>
        var tools := RunTools(calls, t.tools);
        FirstOfTwo(ToolsError(calls, t.tools), t.commit);
        if tools.Throw? { return story, Leave(tools.error); }
        if t.commit.Some? { return story, Leave(t.commit.value); }
        WatchGrows(story, Committed(calls, tools.value));
        return story + [Committed(calls, tools.value)], NextTurn;
    }
  }

  /** The tool batches of the schedule are long enough for any reply. */
  ghost predicate Covers(t: TurnFaults) {
    && (t.first.ending.Completes? && t.first.ending.completion.ToolCalls? ==>
      |t.tools| >= |t.first.ending.completion.calls|)
    && (t.second.ending.Completes? && t.second.ending.completion.ToolCalls? ==>
      |t.tools| >= |t.second.ending.completion.calls|)
  }

  ghost predicate Runnable(t: TurnFaults) {
    LegalTurn(t) && Covers(t)
  }

  /** The reservation of a turn is never finished: its first or its second pin breaks. */
  predicate Unfinished(s: Settings, t: TurnFaults) {
    s.pinned && t.entry.None? && t.prepare.None? && (t.pin.Some? || (Rebuilds(s, t.first) && t.first.repin.Some?))
  }

  /** The model was asked and its answer recorded. */
  predicate Asked(s: Settings, t: TurnFaults) {
    t.entry.None? && t.prepare.None? && !(s.pinned && t.pin.Some?) && Answer(s, t).Some?
  }

  predicate Continues(s: Settings, t: TurnFaults) {
    Asked(s, t) && GoesOn(t, Answer(s, t).value)
  }

  predicate CompletesRun(s: Settings, t: TurnFaults) {
    Asked(s, t) && IsFinal(t, Answer(s, t).value)
  }

  /** The turn ends with a plan that is not finished. */
  predicate FailsRun(s: Settings, t: TurnFaults) {
    Asked(s, t) && PlanOpen(t, Answer(s, t).value)
  }

  /** Where the loop stands after `used` turns. */
  ghost predicate LoopAt(story: seq<Event>, used: nat, end: TurnEnd) {
    match end
    case NextTurn => Between(story, used)
    case Terminate(state) => Between(story, used) && Concludes(story, state)
    case Leave(e) => Left(story, used, e)
  }

  /** What the faults of a turn make of it. */
  ghost predicate EndsTurn(s: Settings, t: TurnFaults, story: seq<Event>, end: TurnEnd) {
    && TurnError(s, t) == (if end.Leave? then Some(end.error) else None)
    && (Watch(story).open <==> Unfinished(s, t))
    && (end.NextTurn? <==> Continues(s, t))
    && (end == Terminate(RunCompleted) <==> CompletesRun(s, t))
    && (end == Terminate(RunFailed) <==> FailsRun(s, t))
  }

  method RunTurn(before: seq<Event>, s: Settings, t: TurnFaults, ghost turns: nat)
    returns (story: seq<Event>, end: TurnEnd)
    requires Runnable(t) && Between(before, turns)
    ensures LoopAt(story, turns + 1, end)
    ensures EndsTurn(s, t, story, end)
  {
    WatchGrows(before, Turn);
    story := before + [Turn];
    TurnErrorEarly(s, t);
    if t.entry.Some? { return story, Leave(t.entry.value); }
    if t.prepare.Some? { return story, Leave(t.prepare.value); }
    WatchGrows(story, Reserved);
    story := story + [Reserved];
    if s.pinned && t.pin.Some? {
      WatchGrows(story, PinBroke);
      return story + [PinBroke], Leave(t.pin.value);
    }
    var r;
    ghost var k;
    story, r, k := Attempts(story, s, t, turns + 1);
    TurnErrorLate(s, t);
    if r.Throw? { return story, Leave(r.error); }
    story, end := AfterReply(story, t, r.value, turns + 1, k);
  }

  lemma TurnErrorEarly(s: Settings, t: TurnFaults)
    ensures t.entry.Some? ==> TurnError(s, t) == t.entry
    ensures t.entry.None? && t.prepare.Some? ==> TurnError(s, t) == t.prepare
    ensures t.entry.None? && t.prepare.None? && s.pinned && t.pin.Some? ==> TurnError(s, t) == t.pin
  {
    TurnErrorParts(s, t);
  }

  lemma TurnErrorLate(s: Settings, t: TurnFaults)
    requires t.entry.None? && t.prepare.None? && !(s.pinned && t.pin.Some?)
    ensures TurnError(s, t) ==
            if AttemptsError(s, t).Some? then AttemptsError(s, t)
            else if Answer(s, t).Some? then ReplyError(t, Answer(s, t).value) else None
  {
    TurnErrorParts(s, t);
    FirstOfTwo(AttemptsError(s, t), if Answer(s, t).Some? then ReplyError(t, Answer(s, t).value) else None);
  }

  lemma TurnErrorParts(s: Settings, t: TurnFaults)
    ensures var pin := if s.pinned then t.pin else None;
            var reply := if Answer(s, t).Some? then ReplyError(t, Answer(s, t).value) else None;
            TurnError(s, t) ==
            if t.entry.Some? then t.entry else if t.prepare.Some? then t.prepare else if pin.Some? then pin
            else First([AttemptsError(s, t), reply])
  {
    var pin := if s.pinned then t.pin else None;
    var reply := if Answer(s, t).Some? then ReplyError(t, Answer(s, t).value) else None;
    var all := [t.entry, t.prepare, pin, AttemptsError(s, t), reply];
    assert all[1..] == [t.prepare, pin, AttemptsError(s, t), reply];
    FirstOfFour(t.prepare, pin, AttemptsError(s, t), reply);
    FirstOfThree(pin, AttemptsError(s, t), reply);
  }

  // ----------------------------------------------------------------------- the whole run

  /** What `execute` gives back: a run in a terminal state, or an exception. */
  datatype RunEnd = Returned(state: RunState) | Escaped(error: Error)

  /** The ladder of handlers: errors that hide an outcome leave the run for recovery, all others end it. */
  function Ladder(e: Error, timedOut: bool): Option<RunState> {
    match e
    case Unrecorded => None
    case Cancellation => Some(if timedOut then RunFailed else RunCancelled)
    case _ => Some(RunFailed)
  }

  /**
   The run is over: what is returned is the last event, an applied transition; and an attempt is left
   open behind a broken pin only.
   */
  ghost predicate Over(story: seq<Event>, r: RunEnd) {
    var m := Watch(story);
    && m.legal
    && (r.Returned? ==> m.ended && story != [] && story[|story| - 1] == Terminal(r.state, true))
    && (m.open ==> m.broken)
  }

  lemma ClosedStops(m: Monitor, e: Event)
    ensures Advance(m, e).legal ==> m.legal && (m.closed ==> m.ended && e.Terminal? && !e.applied)
    ensures m.ended && m.closed && e.Terminal? ==> Advance(m, e).closed && Advance(m, e).ended
    ensures e.Terminal? && e.applied ==> Advance(m, e).closed && Advance(m, e).ended
  {
  }

  /** After an applied transition there are refused ones only. */
  lemma {:induction false} AppliedCloses(story: seq<Event>, i: nat)
    requires Watch(story).legal && i < |story| && story[i].Terminal? && story[i].applied
    ensures Watch(story).closed && Watch(story).ended
    ensures forall j :: i < j < |story| ==> story[j].Terminal? && !story[j].applied
    decreases |story|
  {
    var front, last := story[..|story| - 1], story[|story| - 1];
    var m := Watch(front);
    assert Watch(story) == Advance(m, last);
    ClosedStops(m, last);
    if i < |front| {
      AppliedCloses(front, i);
    }
  }

  lemma {:induction false} EndedMeansApplied(story: seq<Event>)
    requires Watch(story).legal
    ensures Watch(story).ended <==> exists i :: 0 <= i < |story| && story[i].Terminal? && story[i].applied
    decreases |story|
  {
    if story != [] {
      var front, last := story[..|story| - 1], story[|story| - 1];
      ClosedStops(Watch(front), last);
      EndedMeansApplied(front);
      EndedStep(Watch(front), last);
      if Watch(front).ended {
        var i :| 0 <= i < |front| && front[i].Terminal? && front[i].applied;
        assert story[i] == front[i];
      }
    }
  }

  lemma EndedStep(m: Monitor, e: Event)
    ensures Advance(m, e).ended <==> m.ended || (e.Terminal? && e.applied)
  {
    match e {
      case Terminal(_, _) =>
      case _ =>
    }
  }

  /**
   A terminal transition is asked for. The journal applies it from `running` only; `failure` is what it
   raises, also when it has applied it and the acknowledgement is lost.
   */
  method Apply(before: seq<Event>, state: RunState, running: bool, verdict: Verdict)
    returns (story: seq<Event>, failure: Option<Error>, still: bool)
    requires var m := Watch(before); m.legal && (m.closed ==> m.ended) && running == !m.ended && (m.open ==> m.broken)
    ensures story == before + [Terminal(state, running && !verdict.Refused?)]
    ensures var m := Watch(story);
            && m.legal && m.turns == Watch(before).turns && m.open == Watch(before).open
              && m.broken == Watch(before).broken
            && m.last == Watch(before).last && still == !m.ended && (m.closed ==> m.ended)
    ensures still <==> running && verdict.Refused?
    ensures failure.None? <==> running && verdict.Acknowledged?
    ensures failure.None? ==> Over(story, Returned(state))
    ensures failure.Some? ==> failure.value == if running then verdict.error else Other
  {
    var applied := running && !verdict.Refused?;
    WatchGrows(before, Terminal(state, applied));
    story, still := before + [Terminal(state, applied)], running && !applied;
    failure := if !running then Some(Other) else if verdict.Acknowledged? then None else Some(verdict.error);
  }

  /** What the handlers find: an error that left the attempts, or one of a transition asked for before. */
  ghost predicate Raised(story: seq<Event>, turns: nat, e: Error, running: bool) {
    var m := Watch(story);
    && m.legal && m.turns == turns && running == !m.ended && (m.open <==> m.broken)
    && (m.closed && !m.ended ==> e == Unrecorded)
  }

  /** What the handlers make of an error: recovery for a hidden outcome, a cancelled or a failed run for others. */
  ghost predicate Handled(e: Error, timedOut: bool, running: bool, verdict: Verdict, r: RunEnd) {
    && (r == Returned(RunCancelled) <==> e == Cancellation && !timedOut && running && verdict.Acknowledged?)
    && (r == Returned(RunFailed) <==>
          e != Unrecorded && (e != Cancellation || timedOut) && running && verdict.Acknowledged?)
    && r != Returned(RunCompleted)
    && (r.Escaped? ==>
          r.error == if e == Unrecorded then Unrecorded else if running then verdict.error else Other)
  }

  /** The handlers around the loop: `verdict` is what becomes of their own transition. */
  method Handle(before: seq<Event>, e: Error, timedOut: bool, running: bool, verdict: Verdict, ghost turns: nat)
    returns (story: seq<Event>, r: RunEnd)
    requires Raised(before, turns, e, running)
    ensures Over(story, r) && Watch(story).turns == turns && Watch(story).open == Watch(before).open
    ensures Handled(e, timedOut, running, verdict, r) && (e == Unrecorded ==> story == before)
    ensures r.Escaped? && running && Watch(story).ended ==> verdict.Lost?
  {
    match Ladder(e, timedOut) {
      case None => return before, Escaped(e);
      case Some(state) =>
        var failure, still;
        story, failure, still := Apply(before, state, running, verdict);
        r := if failure.None? then Returned(state) else Escaped(failure.value);
    }
  }

  /** What the outside does in every turn of a run. */
  type Schedule = s: seq<TurnFaults> | forall i :: 0 <= i < |s| ==> Runnable(s[i]) witness []

  ghost predicate AllContinue(s: Settings, schedule: seq<TurnFaults>, n: int)
    requires n <= |schedule|
  {
    forall i :: 0 <= i < n ==> Continues(s, schedule[i])
  }

  /** The turns begun so far, and how the last of them ended. */
  ghost predicate Turning(s: Settings, schedule: seq<TurnFaults>, story: seq<Event>, end: TurnEnd, used: nat)
    requires used <= |schedule|
  {
    && LoopAt(story, used, end) && AllContinue(s, schedule, used - 1)
    && (if used == 0 then end == NextTurn && !Watch(story).open else EndsTurn(s, schedule[used - 1], story, end))
  }

  lemma AllContinueOn(s: Settings, schedule: seq<TurnFaults>, used: nat)
    requires used < |schedule| && AllContinue(s, schedule, used - 1) && (used > 0 ==> Continues(s, schedule[used - 1]))
    ensures AllContinue(s, schedule, used)
  {
  }

  lemma TurningOn(s: Settings, schedule: seq<TurnFaults>, before: seq<Event>, used: nat, story: seq<Event>,
                  end: TurnEnd)
    requires used < |schedule| && Turning(s, schedule, before, NextTurn, used) && LoopAt(story, used + 1, end)
    requires EndsTurn(s, schedule[used], story, end)
    ensures Turning(s, schedule, story, end, used + 1)
  {
    AllContinueOn(s, schedule, used);
  }

  lemma TurningStart(s: Settings, schedule: seq<TurnFaults>)
    ensures Turning(s, schedule, [], NextTurn, 0)
  {
  }

  method RunTurns(s: Settings, schedule: Schedule) returns (story: seq<Event>, end: TurnEnd, used: nat)
    requires |schedule| >= s.maxTurns
    ensures used <= s.maxTurns && Turning(s, schedule, story, end, used)
    ensures used < s.maxTurns ==> end != NextTurn
  {
    story, end, used := [], NextTurn, 0;
    TurningStart(s, schedule);
    while used < s.maxTurns && end == NextTurn
      invariant used <= s.maxTurns && Turning(s, schedule, story, end, used)
      decreases s.maxTurns - used
    {
      var turn := schedule[used];
      ghost var before := story;
      story, end := RunTurn(story, s, turn, used);
      TurningOn(s, schedule, before, used, story, end);
      used := used + 1;
    }
  }

  /** The error that leaves the loop after `used` turns: that of the last turn. */
  function LeftWith(s: Settings, schedule: seq<TurnFaults>, used: nat): Option<Error>
    requires used <= |schedule|
  {
    if used == 0 then None else TurnError(s, schedule[used - 1])
  }

  predicate FinishesRun(s: Settings, schedule: seq<TurnFaults>, used: nat)
    requires used <= |schedule|
  {
    used > 0 && CompletesRun(s, schedule[used - 1])
  }

  lemma TurnsMean(s: Settings, schedule: seq<TurnFaults>, story: seq<Event>, end: TurnEnd, used: nat)
    requires used <= |schedule| && used <= s.maxTurns && Turning(s, schedule, story, end, used)
    requires used < s.maxTurns ==> end != NextTurn
    ensures LeftWith(s, schedule, used) == if end.Leave? then Some(end.error) else None
    ensures FinishesRun(s, schedule, used) <==> end == Terminate(RunCompleted)
    ensures !end.Leave? && end != Terminate(RunCompleted) ==>
              || (used > 0 && FailsRun(s, schedule[used - 1]))
              || (used == s.maxTurns && AllContinue(s, schedule, used))
  {
    if end.NextTurn? && used > 0 {
      AllContinueLast(s, schedule, used);
    }
  }

  lemma AllContinueLast(s: Settings, schedule: seq<TurnFaults>, used: nat)
    requires 0 < used <= |schedule| && AllContinue(s, schedule, used - 1) && Continues(s, schedule[used - 1])
    ensures AllContinue(s, schedule, used)
  {
  }

  /**
   A whole run under a schedule. `first` and `second` are what becomes of the loop's own terminal
   transition and of the handlers'; `used` counts the turns begun.
   */
  method Execute(s: Settings, schedule: Schedule, first: Verdict, second: Verdict, timedOut: bool)
    returns (story: seq<Event>, r: RunEnd, used: nat)
    requires |schedule| >= s.maxTurns
    ensures Over(story, r) && Watch(story).turns == used <= s.maxTurns
    ensures Watch(story).open <==> used > 0 && Unfinished(s, schedule[used - 1])
    ensures AllContinue(s, schedule, used - 1)
    ensures used < s.maxTurns ==> used > 0 && !Continues(s, schedule[used - 1])
    ensures Settles(LeftWith(s, schedule, used), FinishesRun(s, schedule, used), first, second, timedOut, r)
    ensures LeftWith(s, schedule, used).None? && !FinishesRun(s, schedule, used) ==>
              || (used > 0 && FailsRun(s, schedule[used - 1]))
              || (used == s.maxTurns && AllContinue(s, schedule, used))
    ensures r.Escaped? && first.Acknowledged? && second.Acknowledged? ==> r.error == Unrecorded
    ensures r.Escaped? && !first.Lost? && !second.Lost? ==> !Watch(story).ended
    ensures ModelCalls(story) <= Reservations(story) <= 2 * s.maxTurns
    ensures Finishes(story) == Reservations(story) - if used > 0 && Unfinished(s, schedule[used - 1]) then 1 else 0
  {
    var end;
    story, end, used := RunTurns(s, schedule);
    TurnsMean(s, schedule, story, end, used);
    story, r := Settle(story, end, first, second, timedOut, used);
    CallsBounded(story);
  }

  /** The error the handlers get: the one that left the loop, or that of the loop's own transition. */
  function InHand(left: Option<Error>, first: Verdict): Option<Error> {
    if left.Some? then left else if first.Acknowledged? then None else Some(first.error)
  }

  /**
   The end of a run, from the error that left the loop or, where none did, from whether it was complete:
   `first` is what became of the loop's own transition, `second` of the handlers'.
   */
  ghost predicate Settles(left: Option<Error>, complete: bool, first: Verdict, second: Verdict, timedOut: bool,
                          r: RunEnd) {
    var e := InHand(left, first);
    var handled := e.Some? && e != Some(Unrecorded) && (left.Some? || first.Refused?) && second.Acknowledged?;
    && (r == Returned(RunCompleted) <==> left.None? && complete && first.Acknowledged?)
    && (r == Returned(RunCancelled) <==> handled && e == Some(Cancellation) && !timedOut)
    && (r == Returned(RunFailed) <==>
          || (left.None? && !complete && first.Acknowledged?)
          || (handled && (e != Some(Cancellation) || timedOut)))
    && (r.Escaped? ==>
          e.Some? && r.error == if e == Some(Unrecorded) then Unrecorded
                                else if left.Some? || first.Refused? then second.error else Other)
  }

  /** What follows the loop: its own terminal transition, or the handlers, or one after the other. */
  method Settle(before: seq<Event>, end: TurnEnd, first: Verdict, second: Verdict, timedOut: bool, ghost used: nat)
    returns (story: seq<Event>, r: RunEnd)
    requires LoopAt(before, used, end)
    ensures Over(story, r) && Watch(story).turns == used && Watch(story).open == Watch(before).open
    ensures Settles(if end.Leave? then Some(end.error) else None, end == Terminate(RunCompleted), first, second,
                    timedOut, r)
    ensures r.Escaped? && !first.Lost? && !second.Lost? ==> !Watch(story).ended
  {
    story := before;
    var e, running := Unrecorded, true;
    if end.Leave? {
      e := end.error;
    } else {
      var state := if end.Terminate? then end.state else RunFailed;
      var failure;
      story, failure, running := Apply(story, state, true, first);
      if failure.None? { return story, Returned(state); }
      e := failure.value;
    }
    story, r := Handle(story, e, timedOut, running, second, used);
  }

  // ------------------------------------------------------------------ what the protocol means

  function Turns(story: seq<Event>): nat {
    if story == [] then 0 else Turns(story[..|story| - 1]) + if story[|story| - 1].Turn? then 1 else 0
  }

  function Reservations(story: seq<Event>): nat {
    if story == [] then 0 else Reservations(story[..|story| - 1]) + if story[|story| - 1].Reserved? then 1 else 0
  }

  function ModelCalls(story: seq<Event>): nat {
    if story == [] then 0 else ModelCalls(story[..|story| - 1]) + if story[|story| - 1].Called? then 1 else 0
  }

  function Finishes(story: seq<Event>): nat {
    if story == [] then 0 else Finishes(story[..|story| - 1]) + if story[|story| - 1].Finished? then 1 else 0
  }

  ghost predicate Bounded(m: Monitor) {
    && m.inTurn <= 2 && m.attempts <= 2 * m.turns && (m.turns > 0 ==> m.attempts <= 2 * m.turns - 2 + m.inTurn)
    && m.calls + (if m.open && !m.called then 1 else 0) <= m.attempts
  }

  lemma BoundedStep(m: Monitor, e: Event)
    requires m.legal ==> Bounded(m)
    ensures Advance(m, e).legal ==> Bounded(Advance(m, e))
  {
    match e {
      case Turn =>
      case Reserved =>
      case Called =>
      case Finished(_, _, _) =>
      case _ =>
    }
  }

  lemma {:induction false} MonitorCounts(story: seq<Event>)
    ensures var m := Watch(story);
            && m.turns == Turns(story) && m.attempts == Reservations(story) && m.calls == ModelCalls(story)
            && (m.legal ==> Finishes(story) + OpenAttempts(m) == Reservations(story))
    decreases |story|
  {
    if story != [] {
      var front, e := story[..|story| - 1], story[|story| - 1];
      MonitorCounts(front);
      CountStep(Watch(front), e);
      if Watch(story).legal {
        ClosedStops(Watch(front), e);
        OpenStep(Watch(front), e);
      }
    }
  }

  lemma CountStep(m: Monitor, e: Event)
    ensures Advance(m, e).turns == m.turns + (if e.Turn? then 1 else 0)
    ensures Advance(m, e).attempts == m.attempts + (if e.Reserved? then 1 else 0)
    ensures Advance(m, e).calls == m.calls + (if e.Called? then 1 else 0)
  {
    match e {
      case Turn =>
      case Reserved =>
      case Called =>
      case _ =>
    }
  }

  function OpenAttempts(m: Monitor): nat {
    if m.open then 1 else 0
  }

  lemma OpenStep(m: Monitor, e: Event)
    requires Advance(m, e).legal
    ensures OpenAttempts(Advance(m, e)) + (if e.Finished? then 1 else 0) ==
            OpenAttempts(m) + (if e.Reserved? then 1 else 0)
  {
    match e {
      case Reserved =>
      case Finished(_, _, _) =>
      case _ =>
    }
  }

  lemma {:induction false} MonitorBounds(story: seq<Event>)
    ensures Watch(story).legal ==> Bounded(Watch(story))
    decreases |story|
  {
    if story != [] {
      MonitorBounds(story[..|story| - 1]);
      BoundedStep(Watch(story[..|story| - 1]), story[|story| - 1]);
    }
  }

  /** Two attempts per turn at most, so twice as many model calls as turns, and every attempt finished once. */
  lemma CallsBounded(story: seq<Event>)
    requires Watch(story).legal
    ensures ModelCalls(story) <= Reservations(story) <= 2 * Turns(story) && Turns(story) == Watch(story).turns
    ensures Finishes(story) == Reservations(story) - OpenAttempts(Watch(story))
  {
    MonitorCounts(story);
    MonitorBounds(story);
  }

  /** Where the attempt under way began: no reservation since, and output exactly when it is visible. */
  ghost predicate Began(story: seq<Event>, visible: bool, r: nat) {
    && r < |story| && story[r] == Reserved
    && (forall j :: r < j < |story| ==> story[j] != Reserved && (story[j] == Output ==> visible))
  }

  lemma BeganStep(front: seq<Event>, e: Event, r: nat)
    requires Watch(front).open ==> Began(front, Watch(front).visible, r)
    requires Advance(Watch(front), e).legal && Advance(Watch(front), e).open
    ensures Began(front + [e], Advance(Watch(front), e).visible, if e == Reserved then |front| else r)
  {
    var story := front + [e];
    assert story[|front|] == e;
    assert forall j :: 0 <= j < |front| ==> story[j] == front[j];
  }

  lemma {:induction false} OpenBegan(story: seq<Event>) returns (r: nat)
    requires Watch(story).legal
    ensures Watch(story).open ==> Began(story, Watch(story).visible, r)
    decreases |story|
  {
    r := 0;
    if story != [] {
      var front, e := story[..|story| - 1], story[|story| - 1];
      ClosedStops(Watch(front), e);
      r := OpenBegan(front);
      assert story == front + [e];
      if Watch(story).open {
        BeganStep(front, e, r);
        if e == Reserved { r := |front|; }
      }
    }
  }

  lemma {:induction false} LegalPrefix(story: seq<Event>, i: nat)
    requires Watch(story).legal && i < |story|
    ensures Watch(story[..i]).legal && Advance(Watch(story[..i]), story[i]).legal
    decreases |story|
  {
    var front, last := story[..|story| - 1], story[|story| - 1];
    ClosedStops(Watch(front), last);
    if i < |front| {
      LegalPrefix(front, i);
      assert front[..i] == story[..i];
    }
  }

  lemma OverflowWasOpen(m: Monitor, e: Event)
    requires Advance(m, e).legal && e.Finished? && e.outcome == ContextOverflow
    ensures m.open && !m.visible
  {
  }

  /** A superseded attempt left no visible output in the journal. */
  lemma SupersededLeftNothing(story: seq<Event>, i: nat) returns (r: nat)
    requires Watch(story).legal && i < |story| && story[i].Finished? && story[i].outcome == ContextOverflow
    ensures r < i && story[r] == Reserved && forall j :: r < j < i ==> story[j] != Output && story[j] != Reserved
  {
    var front := story[..i];
    LegalPrefix(story, i);
    OverflowWasOpen(Watch(front), story[i]);
    r := OpenBegan(front);
    BeganBefore(story, i, r);
  }

  lemma BeganBefore(story: seq<Event>, i: nat, r: nat)
    requires i <= |story| && Began(story[..i], false, r)
    ensures r < i && story[r] == Reserved && forall j :: r < j < i ==> story[j] != Output && story[j] != Reserved
  {
    assert forall j :: 0 <= j < i ==> story[..i][j] == story[j];
  }

  /** No turn has begun since event `i`. */
  predicate SameTurn(story: seq<Event>, i: nat) {
    i < |story| && forall j :: i < j < |story| ==> story[j] != Turn
  }

  lemma FreshStep(m: Monitor, e: Event)
    requires Advance(m, e).legal && (m.inTurn == 0 ==> m.last == None && !m.open)
    ensures var n := Advance(m, e); n.inTurn == 0 ==> n.last == None && !n.open
  {
    match e {
      case Turn =>
      case Reserved =>
      case Finished(_, _, _) =>
      case _ =>
    }
  }

  /** Before its first attempt a turn has no outcome. */
  lemma {:induction false} FreshTurn(story: seq<Event>)
    requires Watch(story).legal
    ensures Watch(story).inTurn == 0 ==> Watch(story).last == None && !Watch(story).open
    decreases |story|
  {
    if story != [] {
      var front, e := story[..|story| - 1], story[|story| - 1];
      ClosedStops(Watch(front), e);
      FreshTurn(front);
      FreshStep(Watch(front), e);
    }
  }

  /** What an event of a legal story changes of the turn under way. */
  ghost predicate Moves(m: Monitor, e: Event, n: Monitor) {
    && n.inTurn == (if e.Turn? then 0 else if e.Reserved? then m.inTurn + 1 else m.inTurn)
    && n.open == (e.Reserved? || (m.open && !e.Finished?))
    && n.last == (if e.Turn? then None else if e.Finished? then Some(e.outcome) else m.last)
    && (if e.Finished? then n.closed == !e.recorded else m.closed ==> n.closed)
  }

  lemma LegalMoves(m: Monitor, e: Event)
    requires Advance(m, e).legal
    ensures Moves(m, e, Advance(m, e))
  {
    match e {
      case Turn =>
      case Reserved =>
      case Finished(_, _, _) =>
      case Terminal(_, _) =>
      case _ =>
    }
  }

  /**
   What is known behind the reservation `i` in its turn, where `before` attempts were made: its outcome
   is on record at `f`, once it has one.
   */
  ghost predicate Behind(story: seq<Event>, m: Monitor, before: nat, i: nat, f: nat) {
    && m.inTurn >= before + 1
    && (m.inTurn == 1 ==>
          && (forall j :: i < j < |story| ==> story[j] != Reserved)
          && (m.last.Some? ==>
                && i < f < |story| && story[f].Finished? && m.last == Some(story[f].outcome)
                && (story[f].recorded || m.closed)))
  }

  lemma BehindStep(front: seq<Event>, e: Event, m: Monitor, n: Monitor, before: nat, i: nat, f: nat)
    requires i < |front| && Behind(front, m, before, i, f) && Moves(m, e, n) && e != Turn
    ensures Behind(front + [e], n, before, i, if e.Finished? then |front| else f)
  {
    var story := front + [e];
    assert story[|front|] == e && forall j :: 0 <= j < |front| ==> story[j] == front[j];
  }

  lemma {:induction false} BehindReservation(story: seq<Event>, i: nat) returns (f: nat)
    requires Watch(story).legal && SameTurn(story, i) && story[i] == Reserved
    ensures Behind(story, Watch(story), Watch(story[..i]).inTurn, i, f)
    decreases |story|
  {
    var front, e := story[..|story| - 1], story[|story| - 1];
    ClosedStops(Watch(front), e);
    LegalMoves(Watch(front), e);
    if i == |front| {
      f := 0;
      FreshTurn(front);
    } else {
      f := BehindReservation(front, i);
      assert story == front + [e] && story[..i] == front[..i];
      BehindStep(front, e, Watch(front), Watch(story), Watch(story[..i]).inTurn, i, f);
      if e.Finished? { f := |front|; }
    }
  }

  lemma SecondStep(m: Monitor)
    requires Advance(m, Reserved).legal && m.inTurn > 0
    ensures m.inTurn == 1 && m.last == Some(ContextOverflow) && !m.closed
  {
  }

  /**
   Two reservations of one turn: the first was finished as an overflow, on record, after no visible
   output, and there is no other attempt between them.
   */
  lemma SecondFollowsOverflow(story: seq<Event>, i: nat, k: nat) returns (f: nat)
    requires Watch(story).legal && i < k < |story| && story[i] == Reserved && story[k] == Reserved
    requires forall j :: i < j < k ==> story[j] != Turn
    ensures i < f < k && story[f].Finished? && story[f].outcome == ContextOverflow && story[f].recorded
    ensures forall j :: i < j < f ==> story[j] != Output
    ensures forall j :: i < j < k ==> story[j] != Reserved
  {
    var front := story[..k];
    LegalPrefix(story, k);
    f := BehindReservation(front, i);
    SecondStep(Watch(front));
    assert forall j :: 0 <= j < k ==> story[j] == front[j];
    var r := SupersededLeftNothing(story, f);
  }

  /** At most one terminal transition is ever applied, and behind it there are refused ones only. */
  lemma OneTerminal(story: seq<Event>, i: nat, j: nat)
    requires Watch(story).legal && i < |story| && j < |story|
    requires story[i].Terminal? && story[i].applied
    ensures i < j ==> story[j].Terminal? && !story[j].applied
    ensures story[j].Terminal? && story[j].applied ==> i == j
    ensures Watch(story).ended
  {
    AppliedCloses(story, i);
    if story[j].Terminal? && story[j].applied {
      AppliedCloses(story, j);
    }
  }

  /** Where the last outcome of the turn was recorded. */
  ghost predicate LastFinish(story: seq<Event>, m: Monitor, f: nat) {
    m.last.Some? ==>
      && f < |story| && story[f].Finished? && m.last == Some(story[f].outcome) && (story[f].recorded || m.closed)
      && (!m.open ==> forall j :: f < j < |story| ==> story[j] != Reserved)
      && forall j :: f < j < |story| ==> story[j] != Turn
  }

  lemma LastFinishStep(front: seq<Event>, e: Event, m: Monitor, n: Monitor, f: nat)
    requires LastFinish(front, m, f) && Moves(m, e, n)
    ensures LastFinish(front + [e], n, if e.Finished? then |front| else f)
  {
    var story := front + [e];
    assert story[|front|] == e && forall j :: 0 <= j < |front| ==> story[j] == front[j];
  }

  lemma {:induction false} FindLastFinish(story: seq<Event>) returns (f: nat)
    requires Watch(story).legal
    ensures LastFinish(story, Watch(story), f)
    decreases |story|
  {
    f := 0;
    if story != [] {
      var front, e := story[..|story| - 1], story[|story| - 1];
      ClosedStops(Watch(front), e);
      LegalMoves(Watch(front), e);
      f := FindLastFinish(front);
      assert story == front + [e];
      LastFinishStep(front, e, Watch(front), Watch(story), f);
      if e.Finished? { f := |front|; }
    }
  }

  lemma CommitStep(m: Monitor, e: Event)
    requires Advance(m, e).legal && e.Committed?
    ensures Matches(e.calls, e.results) && m.last == Some(Completed) && !m.open && !m.closed
  {
  }

  /**
   Every committed tool turn holds one result per call in call order, and follows an attempt of the
   same turn that is on record as completed, with no other attempt since.
   */
  lemma CommitsMatch(story: seq<Event>, i: nat) returns (f: nat)
    requires Watch(story).legal && i < |story| && story[i].Committed?
    ensures Matches(story[i].calls, story[i].results)
    ensures f < i && story[f].Finished? && story[f].outcome == Completed && story[f].recorded
    ensures forall j :: f < j < i ==> story[j] != Reserved && story[j] != Turn
  {
    var front := story[..i];
    LegalPrefix(story, i);
    CommitStep(Watch(front), story[i]);
    f := FindLastFinish(front);
    assert forall j :: 0 <= j < i ==> story[j] == front[j];
  }
}
