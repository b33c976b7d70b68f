/** The A2A task stream: `A2aTaskStream::poll` against a concurrent writer, and the client it feeds. */
module TaskStream {
  import opened Common
  import opened EventLog

  const PAGE := 128

  datatype Response = Snapshot | Artifact(text: string, append: bool, last: bool) | Status(state: RunState, final: bool)

  /** The fields of the stream. */
  datatype Stream = Stream(cursor: int, first: bool, ended: bool, started: bool, suppress: bool, observed: RunState)

  datatype Batch = Batch(responses: seq<Response>, final: bool)

  /** `assistant_text`. */
  function AssistantText(content: Option<string>, refusal: string): string {
    var text := if content.Some? then content.value else "";
    if refusal == "" then text else (if text == "" then "" else text + "\n") + refusal
  }

  /** The text of an answer: its content, its refusal, and a line feed between them when there are both. */
  lemma AnswerText(content: Option<string>, refusal: string)
    ensures var c, t := if content.Some? then content.value else "", AssistantText(content, refusal);
            && c <= t && |t| >= |refusal| && t[|t| - |refusal|..] == refusal
            && |t| == |c| + |refusal| + (if c != "" && refusal != "" then 1 else 0)
            && (c != "" && refusal != "" ==> t[|c|] == '\n')
  {
  }

  // ------------------------------------------------------- events to responses

  function EventResponses(e: Event, started: bool): seq<Response> {
    match e.body
    case Text(t) => if t == "" then [] else [Artifact(t, started, false)]
    case Assistant(c, r) => [Artifact(AssistantText(c, r), false, true)]
    case _ => []
  }

  function StartedAfterEvent(e: Event, started: bool): bool {
    match e.body
    case Text(t) => started || t != ""
    case ToolTurn => false
    case Assistant(_, _) => true
    case Other => started
  }

  /** All responses that a list of events causes, in order. */
  function Responses(events: seq<Event>, started: bool): seq<Response>
    decreases |events|
  {
    if events == [] then []
    else EventResponses(events[0], started) + Responses(events[1..], StartedAfterEvent(events[0], started))
  }

  function StartedAfter(events: seq<Event>, started: bool): bool
    decreases |events|
  {
    if events == [] then started else StartedAfter(events[1..], StartedAfterEvent(events[0], started))
  }

  lemma ResponsesCons(e: Event, rest: seq<Event>, started: bool)
    ensures Responses([e] + rest, started) ==
            EventResponses(e, started) + Responses(rest, StartedAfterEvent(e, started))
    ensures StartedAfter([e] + rest, started) == StartedAfter(rest, StartedAfterEvent(e, started))
  {
    ConsParts(e, rest);
  }

  lemma {:induction false} StartedConcat(a: seq<Event>, b: seq<Event>, started: bool)
    ensures StartedAfter(a + b, started) == StartedAfter(b, StartedAfter(a, started))
    decreases |a|
  {
    if a == [] {
      assert a + b == b;
    } else {
      assert a + b == [a[0]] + (a[1..] + b);
      ResponsesCons(a[0], a[1..] + b, started);
      StartedConcat(a[1..], b, StartedAfterEvent(a[0], started));
    }
  }

  lemma {:induction false} ResponsesConcat(a: seq<Event>, b: seq<Event>, started: bool)
    ensures Responses(a + b, started) == Responses(a, started) + Responses(b, StartedAfter(a, started))
    decreases |a|
  {
    if a == [] {
      assert a + b == b;
    } else {
      var e, rest := a[0], a[1..];
      var next := StartedAfterEvent(e, started);
      ResponsesConcat(rest, b, next);
      ResponsesCons(e, rest + b, started);
      Associate(EventResponses(e, started), Responses(rest, next), Responses(b, StartedAfter(rest, next)));
      assert a + b == [e] + (rest + b);
    }
  }

  lemma ResponsesSnoc(a: seq<Event>, e: Event, started: bool)
    ensures Responses(a + [e], started) == Responses(a, started) + EventResponses(e, StartedAfter(a, started))
    ensures StartedAfter(a + [e], started) == StartedAfterEvent(e, StartedAfter(a, started))
  {
    ResponsesConcat(a, [e], started);
    StartedConcat(a, [e], started);
    var one := [e];
    assert |one[1..]| == 0;
  }

  /** The responses of a prefix and those of one event more. */
  lemma PrefixGrows(events: seq<Event>, i: nat, started: bool)
    requires i < |events|
    ensures var reached := StartedAfter(events[..i], started);
            && Responses(events[..i + 1], started) ==
               Responses(events[..i], started) + EventResponses(events[i], reached)
            && StartedAfter(events[..i + 1], started) == StartedAfterEvent(events[i], reached)
  {
    ResponsesSnoc(events[..i], events[i], started);
    assert events[..i] + [events[i]] == events[..i + 1];
  }

  // ------------------------------------------------------------------- the poll

  predicate Ends(s: RunState) {
    Terminal(s) || s.Paused?
  }

  /** The stream after a poll that read its state in `w` and its events in `v`. */
  function PollNext(s: Stream, w: World, v: World): Stream {
    if s.ended then s
    else if s.first then s.(first := false)
    else
      var events := Page(v.log, s.cursor, PAGE);
      var cursor := if events == [] then s.cursor else events[|events| - 1].sequence;
      var t := s.(cursor := cursor, started := if s.suppress then s.started else StartedAfter(events, s.started));
      if |events| == PAGE then t else t.(observed := w.state, ended := Ends(w.state))
  }

  function PollBatch(s: Stream, w: World, v: World): Batch {
    if s.ended then Batch([], true)
    else if s.first then Batch([Snapshot], false)
    else
      var events := Page(v.log, s.cursor, PAGE);
      var out := if s.suppress then [] else Responses(events, s.started);
      if |events| == PAGE then Batch(out, false)
      else
        var final := Ends(w.state);
        Batch(out + (if w.state != s.observed || final then [Status(w.state, final)] else []), final)
  }

  class TaskStream {
    var cursor: int
    var first: bool
    var ended: bool
    var started: bool
    var suppress: bool
    var observed: RunState

    ghost function View(): Stream
      reads this
    {
      Stream(cursor, first, ended, started, suppress, observed)
    }

    /** Opened on a task snapshot: its state, and whether it already carries the result artifact. */
    constructor (state: RunState, hasArtifact: bool)
      ensures View() == Stream(0, true, false, false, hasArtifact, state)
    {
      cursor, first, ended, started, suppress, observed := 0, true, false, false, hasArtifact, state;
    }

    /** `poll`. The state is read first; any commits may happen before the events are read. */
    method Poll(w: World, v: World) returns (batch: Batch)
      requires Later(w, v)
      modifies this
      ensures View() == PollNext(old(View()), w, v)
      ensures batch == PollBatch(old(View()), w, v)
    {
      if ended {
        return Batch([], true);
      }
      if first {
        first := false;
        return Batch([Snapshot], false);
      }
      var state := w.state;
      var events := Page(v.log, cursor, PAGE);
      var out := TakeEvents(events);
      if |events| == PAGE {
        return Batch(out, false);
      }
      var final := Ends(state);
      if state != observed || final {
        out := out + [Status(state, final)];
        observed := state;
      }
      ended := final;
      batch := Batch(out, final);
    }

    /** The loop over one page. */
    method TakeEvents(events: seq<Event>) returns (out: seq<Response>)
      modifies this`cursor, this`started
      ensures cursor == if events == [] then old(cursor) else events[|events| - 1].sequence
      ensures started == if suppress then old(started) else StartedAfter(events, old(started))
      ensures out == if suppress then [] else Responses(events, old(started))
    {
      out := [];
      var i := 0;
      while i < |events|
        invariant i <= |events|
        invariant cursor == if i == 0 then old(cursor) else events[i - 1].sequence
        invariant started == if suppress then old(started) else StartedAfter(events[..i], old(started))
        invariant out == if suppress then [] else Responses(events[..i], old(started))
      {
        PrefixGrows(events, i, old(started));
        var more := TakeEvent(events[i]);
        out := out + more;
        i := i + 1;
      }
      assert events[..|events|] == events;
    }

    /** One event: the cursor passes it, and the artifact is updated unless it was sent with the snapshot. */
    method TakeEvent(event: Event) returns (out: seq<Response>)
      modifies this`cursor, this`started
      ensures cursor == event.sequence
      ensures started == if suppress then old(started) else StartedAfterEvent(event, old(started))
      ensures out == if suppress then [] else EventResponses(event, old(started))
    {
      cursor := event.sequence;
      out := [];
      if !suppress {
        match event.body {
          case Text(t) =>
            if t != "" {
              out := [Artifact(t, started, false)];
              started := true;
            }
          case ToolTurn => started := false;
          case Assistant(c, r) =>
            out := [Artifact(AssistantText(c, r), false, true)];
            started := true;
          case Other =>
        }
      }
    }
  }

  // --------------------------------------------------------------- whole streams

  /** One poll's two reads. */
  datatype Reads = Reads(state: World, events: World)

  /** The reads of consecutive polls see the run at ever later commits. */
  predicate Schedule(w: World, polls: seq<Reads>)
    decreases |polls|
  {
    polls == [] || (Later(w, polls[0].state) && Later(polls[0].state, polls[0].events)
      && Schedule(polls[0].events, polls[1..]))
  }

  function LastWorld(w: World, polls: seq<Reads>): World {
    if polls == [] then w else polls[|polls| - 1].events
  }

  function StreamAfter(s: Stream, polls: seq<Reads>): Stream
    decreases |polls|
  {
    if polls == [] then s else StreamAfter(PollNext(s, polls[0].state, polls[0].events), polls[1..])
  }

  function Emitted(s: Stream, polls: seq<Reads>): seq<Response>
    decreases |polls|
  {
    if polls == [] then []
    else PollBatch(s, polls[0].state, polls[0].events).responses
         + Emitted(PollNext(s, polls[0].state, polls[0].events), polls[1..])
  }

  /** The artifact updates among the responses. */
  function Artifacts(responses: seq<Response>): seq<Response> {
    if responses == [] then []
    else (if responses[0].Artifact? then [responses[0]] else []) + Artifacts(responses[1..])
  }

  /** The stream has taken exactly the first `k` events of the log. */
  predicate At(s: Stream, w: World, k: nat) {
    && WellFormed(w.log) && k <= |w.log| && s.cursor == CursorAt(w.log, k)
    && (!s.suppress ==> s.started == StartedAfter(w.log[..k], false))
  }

  /** How many events a poll leaves taken. */
  function Taken(s: Stream, v: World, k: nat): nat {
    if s.ended || s.first || k >= |v.log| then k else k + Min(|v.log| - k, PAGE)
  }

  /** How many events a list of polls leaves taken. */
  function Position(s: Stream, polls: seq<Reads>, k: nat): nat
    decreases |polls|
  {
    if polls == [] then k
    else Position(PollNext(s, polls[0].state, polls[0].events), polls[1..], Taken(s, polls[0].events, k))
  }

  lemma ArtifactsCons(x: Response, rest: seq<Response>)
    ensures Artifacts([x] + rest) == (if x.Artifact? then [x] else []) + Artifacts(rest)
  {
    ConsParts(x, rest);
  }

  lemma {:induction false} ArtifactsConcat(a: seq<Response>, b: seq<Response>)
    ensures Artifacts(a + b) == Artifacts(a) + Artifacts(b)
  {
    if a == [] {
      assert a + b == b;
    } else {
      var x, rest := a[0], a[1..];
      ArtifactsConcat(rest, b);
      ArtifactsCons(x, rest + b);
      Associate(if x.Artifact? then [x] else [], Artifacts(rest), Artifacts(b));
      assert a + b == [x] + (rest + b);
    }
  }

  lemma {:induction false} ResponsesAreArtifacts(events: seq<Event>, started: bool)
    ensures Artifacts(Responses(events, started)) == Responses(events, started)
    decreases |events|
  {
    if events != [] {
      var rest := Responses(events[1..], StartedAfterEvent(events[0], started));
      ResponsesAreArtifacts(events[1..], StartedAfterEvent(events[0], started));
      ArtifactsConcat(EventResponses(events[0], started), rest);
      var one := EventResponses(events[0], started);
      assert |one| <= 1;
      if |one| == 1 {
        assert one == [one[0]] && |one[1..]| == 0;
      }
    }
  }

  lemma LogSplits(log: seq<Event>, k: nat, m: nat, j: nat, started: bool)
    requires k <= m <= j <= |log|
    ensures Responses(log[k..j], started) ==
            Responses(log[k..m], started) + Responses(log[m..j], StartedAfter(log[k..m], started))
    ensures StartedAfter(log[k..j], started) == StartedAfter(log[m..j], StartedAfter(log[k..m], started))
  {
    assert log[k..j] == log[k..m] + log[m..j];
    ResponsesConcat(log[k..m], log[m..j], started);
    StartedConcat(log[k..m], log[m..j], started);
  }

  /** What a stream has started after the page that follows position `k`. */
  lemma StartedSplits(log: seq<Event>, k: nat, j: nat)
    requires k <= j <= |log|
    ensures StartedAfter(log[..j], false) == StartedAfter(log[k..j], StartedAfter(log[..k], false))
  {
    assert log[0..k] == log[..k] && log[0..j] == log[..j];
    LogSplits(log, 0, k, j, false);
  }

  /** Where a poll that takes a page leaves the stream. */
  lemma PageTaken(s: Stream, w: World, v: World, events: seq<Event>)
    requires !s.ended && !s.first && Page(v.log, s.cursor, PAGE) == events
    ensures var t := PollNext(s, w, v);
            && t.cursor == (if events == [] then s.cursor else events[|events| - 1].sequence)
            && t.suppress == s.suppress && (!s.suppress ==> t.started == StartedAfter(events, s.started))
  {
  }

  /** A poll that takes a page stands behind it. */
  lemma PageMoves(s: Stream, w: World, v: World, k: nat, j: nat)
    requires At(s, v, k) && !s.ended && !s.first && k <= j <= |v.log| && Page(v.log, s.cursor, PAGE) == v.log[k..j]
    ensures At(PollNext(s, w, v), v, j)
  {
    var events := v.log[k..j];
    PageTaken(s, w, v, events);
    StartedSplits(v.log, k, j);
    assert |events| == j - k;
    if events != [] {
      assert events[|events| - 1] == v.log[j - 1];
    }
  }

  /** One poll moves over the next page of the log. */
  lemma PollMoves(s: Stream, w: World, v: World, k: nat)
    requires At(s, v, k)
    ensures At(PollNext(s, w, v), v, Taken(s, v, k))
    ensures !s.ended && !s.first ==> Page(v.log, s.cursor, PAGE) == v.log[k..Taken(s, v, k)]
  {
    if !s.ended && !s.first {
      PageAt(v.log, k, PAGE);
      PageMoves(s, w, v, k, Taken(s, v, k));
    }
  }

  lemma StatusHasNoArtifact(w: World, s: Stream)
    ensures Artifacts(if w.state != s.observed || Ends(w.state) then [Status(w.state, Ends(w.state))] else []) == []
  {
    var one := [Status(w.state, Ends(w.state))];
    assert |one[1..]| == 0;
  }

  /** It emits exactly the artifact updates of that page. */
  lemma PollEmits(s: Stream, w: World, v: World)
    ensures Artifacts(PollBatch(s, w, v).responses) ==
            (if s.suppress || s.first || s.ended then [] else Responses(Page(v.log, s.cursor, PAGE), s.started))
  {
    if s.ended {
    } else if s.first {
      var one := [Snapshot];
      assert |one[1..]| == 0;
    } else {
      var events := Page(v.log, s.cursor, PAGE);
      var out := if s.suppress then [] else Responses(events, s.started);
      assert Artifacts(out) == out by {
        ResponsesAreArtifacts(events, s.started);
      }
      var status := if w.state != s.observed || Ends(w.state) then [Status(w.state, Ends(w.state))] else [];
      StatusHasNoArtifact(w, s);
      ArtifactsConcat(out, status);
    }
  }

  /**
   Over every interleaving: the artifact updates emitted are those of the log's next events, each
   taken once and in order, and the stream knows how far it is.
   */
  lemma {:induction false} ExactlyOnceInOrder(s: Stream, w: World, polls: seq<Reads>, k: nat)
    requires At(s, w, k) && Schedule(w, polls)
    ensures var v, j := LastWorld(w, polls), Position(s, polls, k);
            && w.log <= v.log && k <= j <= |v.log| && At(StreamAfter(s, polls), v, j)
            && Artifacts(Emitted(s, polls)) == (if s.suppress then [] else Responses(v.log[k..j], s.started))
            && StreamAfter(s, polls).suppress == s.suppress
    decreases |polls|
  {
    if polls == [] {
      assert |w.log[k..k]| == 0;
    } else {
      var u, v := polls[0].state, polls[0].events;
      AtLater(s, w, v, k);
      OnePoll(s, u, v, k);
      var m, t := Taken(s, v, k), PollNext(s, u, v);
      ExactlyOnceInOrder(t, v, polls[1..], m);
      var last := LastWorld(v, polls[1..]);
      assert last == LastWorld(w, polls);
      ArtifactsConcat(PollBatch(s, u, v).responses, Emitted(t, polls[1..]));
      SegmentsJoin(s, v, t, last, k, m, Position(t, polls[1..], m));
    }
  }

  /** One poll: where it leaves the stream, and the artifact updates it emits. */
  lemma OnePoll(s: Stream, u: World, v: World, k: nat)
    requires At(s, v, k)
    ensures var m, t := Taken(s, v, k), PollNext(s, u, v);
            && k <= m <= |v.log| && At(t, v, m) && t.suppress == s.suppress
            && Artifacts(PollBatch(s, u, v).responses) ==
               (if s.suppress || s.first || s.ended then [] else Responses(v.log[k..m], s.started))
            && (!s.suppress && !s.ended && !s.first ==> t.started == StartedAfter(v.log[k..m], s.started))
            && (s.ended || s.first ==> m == k && t.started == s.started)
  {
    PollMoves(s, u, v, k);
    PollEmits(s, u, v);
  }

  lemma AtLater(s: Stream, w: World, v: World, k: nat)
    requires At(s, w, k) && w.log <= v.log && WellFormed(v.log)
    ensures At(s, v, k)
  {
    CursorStable(w.log, v.log, k);
    assert v.log[..k] == w.log[..k];
  }

  /** What one poll emits and what the rest emits is what the two stretches of the log cause together. */
  lemma SegmentsJoin(s: Stream, v: World, t: Stream, last: World, k: nat, m: nat, j: nat)
    requires k <= m <= j <= |last.log| && m <= |v.log| && v.log <= last.log
    requires !s.suppress && !s.ended && !s.first ==> t.started == StartedAfter(v.log[k..m], s.started)
    requires s.ended || s.first ==> m == k && t.started == s.started
    ensures !s.suppress ==>
              (if s.first || s.ended then [] else Responses(v.log[k..m], s.started)) +
                Responses(last.log[m..j], t.started)
              == Responses(last.log[k..j], s.started)
  {
    assert last.log[k..m] == v.log[k..m];
    LogSplits(last.log, k, m, j, s.started);
    if s.first || s.ended {
      assert |last.log[k..m]| == 0;
      assert [] + Responses(last.log[m..j], s.started) == Responses(last.log[m..j], s.started);
    }
  }

  // ------------------------------------------------------------ the final report

  /** A final batch comes only when every event committed before the state was read has been taken. */
  lemma FinalMeansDrained(s: Stream, w: World, v: World, k: nat)
    requires At(s, v, k) && Later(w, v) && !s.ended && PollBatch(s, w, v).final
    ensures Taken(s, v, k) == |v.log| >= |w.log|
    ensures var out := PollBatch(s, w, v).responses; |out| > 0 && out[|out| - 1] == Status(w.state, true)
    ensures Terminal(w.state) ==> forall u :: Later(w, u) ==> u.log == v.log
  {
    PollMoves(s, w, v, k);
  }

  lemma {:induction false} NoSnapshotInResponses(events: seq<Event>, started: bool)
    ensures Snapshot !in Responses(events, started)
    decreases |events|
  {
    if events != [] {
      NoSnapshotInResponses(events[1..], StartedAfterEvent(events[0], started));
    }
  }

  lemma {:induction false} NoLaterSnapshot(s: Stream, polls: seq<Reads>)
    requires s.ended || !s.first
    ensures Snapshot !in Emitted(s, polls)
    decreases |polls|
  {
    if polls != [] {
      var u, v := polls[0].state, polls[0].events;
      NoSnapshotInResponses(Page(v.log, s.cursor, PAGE), s.started);
      NoLaterSnapshot(PollNext(s, u, v), polls[1..]);
    }
  }

  /** The first response of a stream is the snapshot it was opened on, and no other one is. */
  lemma SnapshotFirst(s: Stream, polls: seq<Reads>)
    requires s.first && !s.ended && polls != []
    ensures Emitted(s, polls) != [] && Emitted(s, polls)[0] == Snapshot
    ensures Snapshot !in Emitted(s, polls)[1..]
  {
    var t := PollNext(s, polls[0].state, polls[0].events);
    NoLaterSnapshot(t, polls[1..]);
    ConsParts(Snapshot, Emitted(t, polls[1..]));
  }

  predicate HasStatus(responses: seq<Response>) {
    exists i :: 0 <= i < |responses| && responses[i].Status?
  }

  lemma {:induction false} NoStatusInResponses(events: seq<Event>, started: bool)
    ensures !HasStatus(Responses(events, started))
    decreases |events|
  {
    if events != [] {
      NoStatusInResponses(events[1..], StartedAfterEvent(events[0], started));
    }
  }

  /** The state that a poll makes known: none behind a full page, the one it read behind any other. */
  lemma PollReports(s: Stream, w: World, v: World)
    requires !s.ended && !s.first
    ensures var out, full := PollBatch(s, w, v).responses, |Page(v.log, s.cursor, PAGE)| == PAGE;
            && (full ==> !HasStatus(out) && PollNext(s, w, v).observed == s.observed && !PollNext(s, w, v).ended)
            && (!full ==>
                  && PollNext(s, w, v).observed == w.state && (PollNext(s, w, v).ended <==> Ends(w.state))
                  && (HasStatus(out) <==> w.state != s.observed || Ends(w.state))
                  && (HasStatus(out) ==>
                        out[|out| - 1] == Status(w.state, Ends(w.state)) && !HasStatus(out[..|out| - 1])))
  {
    var events := Page(v.log, s.cursor, PAGE);
    var texts := if s.suppress then [] else Responses(events, s.started);
    NoStatusInResponses(events, s.started);
    var out := PollBatch(s, w, v).responses;
    if |events| != PAGE && (w.state != s.observed || Ends(w.state)) {
      assert out[..|out| - 1] == texts;
      assert out[|out| - 1].Status?;
    }
  }

  /** The last state told, or the one known before. */
  function LastState(known: RunState, responses: seq<Response>): RunState {
    if responses == [] then known
    else
      var last := responses[|responses| - 1];
      if last.Status? then last.state else LastState(known, responses[..|responses| - 1])
  }

  lemma {:induction false} LastStateConcat(known: RunState, a: seq<Response>, b: seq<Response>)
    ensures LastState(known, a + b) == LastState(LastState(known, a), b)
    decreases |b|
  {
    if b == [] {
      assert a + b == a;
    } else {
      assert (a + b)[..|a + b| - 1] == a + b[..|b| - 1];
      LastStateConcat(known, a, b[..|b| - 1]);
    }
  }

  lemma {:induction false} LastStateSilent(known: RunState, responses: seq<Response>)
    requires !HasStatus(responses)
    ensures LastState(known, responses) == known
    decreases |responses|
  {
    if responses != [] {
      assert !responses[|responses| - 1].Status?;
      LastStateSilent(known, responses[..|responses| - 1]);
    }
  }

  lemma PollTells(s: Stream, w: World, v: World)
    ensures LastState(s.observed, PollBatch(s, w, v).responses) == PollNext(s, w, v).observed
  {
    var out := PollBatch(s, w, v).responses;
    if s.ended {
    } else if s.first {
      var one := [Snapshot];
      assert |one[..0]| == 0;
      LastStateSilent(s.observed, one);
    } else {
      PollReports(s, w, v);
      if !HasStatus(out) { LastStateSilent(s.observed, out); }
    }
  }

  /** Over every schedule the client has been told the state that the stream knows. */
  lemma {:induction false} StatesTold(s: Stream, polls: seq<Reads>)
    ensures LastState(s.observed, Emitted(s, polls)) == StreamAfter(s, polls).observed
    decreases |polls|
  {
    if polls != [] {
      var u, v := polls[0].state, polls[0].events;
      PollTells(s, u, v);
      var t := PollNext(s, u, v);
      StatesTold(t, polls[1..]);
      LastStateConcat(s.observed, PollBatch(s, u, v).responses, Emitted(t, polls[1..]));
    }
  }

  /** A stream that reported a terminal state has taken the whole log, and the log will not grow. */
  predicate DrainedIfTerminal(s: Stream, w: World, k: nat) {
    s.ended && Terminal(s.observed) ==> w.state == s.observed && k == |w.log|
  }

  lemma {:induction false} NeverFinalEarly(s: Stream, w: World, polls: seq<Reads>, k: nat)
    requires At(s, w, k) && Schedule(w, polls) && DrainedIfTerminal(s, w, k)
    ensures DrainedIfTerminal(StreamAfter(s, polls), LastWorld(w, polls), Position(s, polls, k))
    decreases |polls|
  {
    if polls != [] {
      var u, v := polls[0].state, polls[0].events;
      AtLater(s, w, v, k);
      PollMoves(s, u, v, k);
      if !s.ended && PollBatch(s, u, v).final {
        FinalMeansDrained(s, u, v, k);
      }
      var t, m := PollNext(s, u, v), Taken(s, v, k);
      assert DrainedIfTerminal(t, v, m);
      assert LastWorld(v, polls[1..]) == LastWorld(w, polls);
      NeverFinalEarly(t, v, polls[1..], m);
    }
  }

  function PollTimes(s: Stream, w: World, n: nat): Stream
    decreases n
  {
    if n == 0 then s else PollTimes(PollNext(s, w, w), w, n - 1)
  }

  /** Once the run has ended with `r` events still to take, exactly r / 128 + 1 polls finish the stream. */
  lemma {:induction false} EndsInTime(s: Stream, w: World, k: nat, n: nat)
    requires At(s, w, k) && !s.first && !s.ended && Ends(w.state)
    ensures PollTimes(s, w, n).ended <==> n >= (|w.log| - k) / PAGE + 1
    decreases n
  {
    if n > 0 {
      PollMoves(s, w, w, k);
      var t, m := PollNext(s, w, w), Taken(s, w, k);
      if |w.log| - k >= PAGE {
        assert (|w.log| - k) / PAGE == (|w.log| - m) / PAGE + 1;
        EndsInTime(t, w, m, n - 1);
      } else {
        assert t.ended;
        StaysEnded(t, w, n - 1);
      }
    }
  }

  lemma {:induction false} StaysEnded(s: Stream, w: World, n: nat)
    requires s.ended
    ensures PollTimes(s, w, n) == s
  {
    if n > 0 {
      StaysEnded(s, w, n - 1);
    }
  }

  // ------------------------------------------------------------- the client side

  /** A client replaces its text on append=false and extends it on append=true. */
  function ClientStep(held: Option<string>, r: Response): Option<string> {
    if !r.Artifact? then held
    else if r.append && held.Some? then Some(held.value + r.text)
    else Some(r.text)
  }

  function Client(held: Option<string>, responses: seq<Response>): Option<string>
    decreases |responses|
  {
    if responses == [] then held else Client(ClientStep(held, responses[0]), responses[1..])
  }

  lemma {:induction false} ClientConcat(held: Option<string>, a: seq<Response>, b: seq<Response>)
    ensures Client(held, a + b) == Client(Client(held, a), b)
    decreases |a|
  {
    if a == [] {
      assert a + b == b;
    } else {
      assert a + b == [a[0]] + (a[1..] + b);
      ConsParts(a[0], a[1..] + b);
      ClientConcat(ClientStep(held, a[0]), a[1..], b);
    }
  }

  lemma {:induction false} ClientSeesArtifacts(held: Option<string>, responses: seq<Response>)
    ensures Client(held, Artifacts(responses)) == Client(held, responses)
    decreases |responses|
  {
    if responses != [] {
      var rest := Artifacts(responses[1..]);
      ClientSeesArtifacts(ClientStep(held, responses[0]), responses[1..]);
      if responses[0].Artifact? {
        ConsParts(responses[0], rest);
      } else {
        assert [] + rest == rest;
      }
    }
  }

  /** The result artifact of the task snapshot: the last assistant event that has content. */
  function SnapshotArtifact(log: seq<Event>): Option<string> {
    if log == [] then None
    else
      var e := log[|log| - 1].body;
      if e.Assistant? && e.content.Some? then Some(AssistantText(e.content, e.refusal))
      else SnapshotArtifact(log[..|log| - 1])
  }

  predicate Silent(e: Event) {
    !e.body.Assistant? && !(e.body.Text? && e.body.text != "")
  }

  /** The text of an answer event, or of a text event. */
  function OwnText(e: Event): string {
    match e.body
    case Text(t) => t
    case Assistant(c, r) => AssistantText(c, r)
    case _ => ""
  }

  function TextOf(e: Event): string {
    if e.body.Text? then e.body.text else ""
  }

  /** What the text events say one after the other. */
  function Concatenated(events: seq<Event>): string {
    if events == [] then ""
    else Concatenated(events[..|events| - 1]) + TextOf(events[|events| - 1])
  }

  /** Nothing that a client can see since the last tool turn, or since the beginning. */
  ghost predicate Quiet(log: seq<Event>) {
    exists t :: QuietFrom(log, t)
  }

  ghost predicate QuietFrom(log: seq<Event>, t: int) {
    0 <= t <= |log| && (t == 0 || log[t - 1].body.ToolTurn?) && forall j :: t <= j < |log| ==> Silent(log[j])
  }

  /** An event that makes the client start over: an answer, or the first visible text of a quiet stretch. */
  ghost predicate Restarts(log: seq<Event>, s: nat)
    requires s < |log|
  {
    log[s].body.Assistant? || (!Silent(log[s]) && Quiet(log[..s]))
  }

  /** The last event that makes the client start over, if there is one. */
  ghost function LastRestart(log: seq<Event>): (r: Option<nat>)
    ensures r.Some? ==> r.value < |log| && Restarts(log, r.value)
  {
    if log == [] then None
    else if Restarts(log, |log| - 1) then Some(|log| - 1)
    else
      var front := log[..|log| - 1];
      assert forall j :: 0 <= j < |front| ==> front[..j] == log[..j];
      LastRestart(front)
  }

  lemma {:induction false} LastRestartIsLast(log: seq<Event>, j: nat)
    requires j < |log| && Restarts(log, j)
    ensures LastRestart(log).Some? && j <= LastRestart(log).value
    decreases |log|
  {
    var front := log[..|log| - 1];
    if j < |front| {
      assert front[..j] == log[..j];
      LastRestartIsLast(front, j);
    }
  }

  /** What a client that held `held` holds after the whole log: the last restart and the text behind it. */
  ghost function HeldText(log: seq<Event>, held: Option<string>): Option<string> {
    var s := LastRestart(log);
    if s.None? then held else Some(Spelled(log, s.value))
  }

  lemma {:induction false} StartedIffNotQuiet(log: seq<Event>)
    ensures StartedAfter(log, false) <==> !Quiet(log)
    decreases |log|
  {
    if log != [] {
      var front, e := log[..|log| - 1], log[|log| - 1];
      StartedIffNotQuiet(front);
      assert log == front + [e];
      ResponsesSnoc(front, e, false);
      QuietStep(front, e);
    } else {
      assert QuietFrom(log, 0);
    }
  }

  lemma QuietStep(front: seq<Event>, e: Event)
    ensures Quiet(front + [e]) <==> e.body.ToolTurn? || (Silent(e) && Quiet(front))
  {
    var log := front + [e];
    assert log[|front|] == e && forall j :: 0 <= j < |front| ==> log[j] == front[j];
    if e.body.ToolTurn? {
      assert QuietFrom(log, |log|);
    } else if Silent(e) && Quiet(front) {
      var t :| QuietFrom(front, t);
      assert QuietFrom(log, t);
    }
    if Quiet(log) && !e.body.ToolTurn? {
      var t :| QuietFrom(log, t);
      assert Silent(log[|front|]);
      assert QuietFrom(front, t);
    }
  }

  lemma LastRestartStep(front: seq<Event>, e: Event)
    ensures LastRestart(front + [e]) ==
            if e.body.Assistant? || (!Silent(e) && Quiet(front)) then Some(|front|) else LastRestart(front)
  {
    var log := front + [e];
    assert log[..|front|] == front && log[|front|] == e;
  }

  /** What a log spells from position `s` on: that event and the text behind it. */
  function Spelled(log: seq<Event>, s: nat): string
    requires s < |log|
  {
    OwnText(log[s]) + Concatenated(log[s + 1..])
  }

  lemma SpelledStep(front: seq<Event>, e: Event, s: nat)
    requires s < |front|
    ensures Spelled(front + [e], s) == Spelled(front, s) + TextOf(e)
  {
    var log := front + [e];
    assert log[s + 1..] == front[s + 1..] + [e];
    ConcatenatedSnoc(front[s + 1..], e);
    assert log[s] == front[s];
    Associate(OwnText(front[s]), Concatenated(front[s + 1..]), TextOf(e));
  }

  lemma SpelledLast(front: seq<Event>, e: Event)
    ensures Spelled(front + [e], |front|) == OwnText(e)
  {
    var log := front + [e];
    assert |log[|front| + 1..]| == 0 && log[|front|] == e;
    assert OwnText(e) + "" == OwnText(e);
  }

  lemma HeldTextStep(front: seq<Event>, e: Event, held: Option<string>)
    ensures HeldText(front + [e], held) ==
            if e.body.Assistant? || (!Silent(e) && Quiet(front)) then Some(OwnText(e))
            else if LastRestart(front).None? then held
            else Some(HeldText(front, held).value + TextOf(e))
  {
    LastRestartStep(front, e);
    var s := LastRestart(front + [e]);
    if s.Some? {
      if s.value == |front| {
        SpelledLast(front, e);
      } else {
        SpelledStep(front, e, s.value);
      }
    }
  }

  lemma ConcatenatedSnoc(front: seq<Event>, e: Event)
    ensures Concatenated(front + [e]) == Concatenated(front) + TextOf(e)
  {
    assert (front + [e])[..|front|] == front;
  }

  /** A restart happened exactly when anything visible did. */
  lemma {:induction false} RestartedIffVisible(log: seq<Event>)
    ensures LastRestart(log).None? <==> forall i :: 0 <= i < |log| ==> Silent(log[i])
    ensures LastRestart(log).None? ==> Quiet(log)
    decreases |log|
  {
    if log == [] {
      assert QuietFrom(log, 0);
    } else {
      var front, e := log[..|log| - 1], log[|log| - 1];
      assert log == front + [e];
      RestartedIffVisible(front);
      LastRestartStep(front, e);
      QuietStep(front, e);
      assert forall i :: 0 <= i < |front| ==> log[i] == front[i];
    }
  }

  /** The client of a whole log holds its last restart followed by all text behind it. */
  lemma {:induction false} ClientHolds(log: seq<Event>, held: Option<string>)
    ensures Client(held, Responses(log, false)) == HeldText(log, held)
    decreases |log|
  {
    if log != [] {
      var front, e := log[..|log| - 1], log[|log| - 1];
      assert log == front + [e];
      ClientHolds(front, held);
      ClientStepHolds(front, e, held);
    }
  }

  lemma ClientStepHolds(front: seq<Event>, e: Event, held: Option<string>)
    requires Client(held, Responses(front, false)) == HeldText(front, held)
    ensures Client(held, Responses(front + [e], false)) == HeldText(front + [e], held)
  {
    StartedIffNotQuiet(front);
    RestartedIffVisible(front);
    ResponsesSnoc(front, e, false);
    HeldTextStep(front, e, held);
    var started := StartedAfter(front, false);
    ClientConcat(held, Responses(front, false), EventResponses(e, started));
    ClientOfEvent(HeldText(front, held), e, started);
    NothingMore(HeldText(front, held));
  }

  lemma NothingMore(held: Option<string>)
    ensures held.Some? ==> held.value + "" == held.value
  {
  }

  lemma ClientOfEvent(held: Option<string>, e: Event, started: bool)
    ensures Client(held, EventResponses(e, started)) ==
            if Silent(e) then held
            else if e.body.Text? && started && held.Some? then Some(held.value + e.body.text)
            else Some(OwnText(e))
  {
    if !Silent(e) {
      var one := EventResponses(e, started);
      assert |one[1..]| == 0;
    }
  }

  /** The last answer with content, if there is one. */
  ghost predicate LastAnswer(log: seq<Event>, a: nat) {
    && a < |log| && log[a].body.Assistant? && log[a].body.content.Some?
    && forall i :: a < i < |log| && log[i].body.Assistant? ==> log[i].body.content.None?
  }

  lemma {:induction false} SnapshotIsLastAnswer(log: seq<Event>)
    ensures SnapshotArtifact(log).None? <==> forall a: nat :: !LastAnswer(log, a)
    ensures forall a: nat :: LastAnswer(log, a) ==> SnapshotArtifact(log) == Some(OwnText(log[a]))
    decreases |log|
  {
    if log != [] {
      var front, e := log[..|log| - 1], log[|log| - 1];
      SnapshotIsLastAnswer(front);
      if e.body.Assistant? && e.body.content.Some? {
        assert LastAnswer(log, |log| - 1);
      } else {
        forall a: nat ensures LastAnswer(log, a) <==> LastAnswer(front, a) {
          SameLastAnswer(front, e, a);
          assert log == front + [e];
        }
      }
    }
  }

  lemma SameLastAnswer(front: seq<Event>, e: Event, a: nat)
    requires !(e.body.Assistant? && e.body.content.Some?)
    ensures LastAnswer(front + [e], a) <==> LastAnswer(front, a)
  {
    var log := front + [e];
    assert log[|front|] == e && forall j :: 0 <= j < |front| ==> log[j] == front[j];
  }

  /**
   For every log: streamed and snapshot text agree exactly when nothing visible happened to a client
   that held nothing, or the last restart and the text behind it spell the last answer with content.
   */
  ghost predicate StreamMatches(log: seq<Event>, held: Option<string>) {
    if LastRestart(log).None? then held.None?
    else
      var s := LastRestart(log).value;
      exists a: nat :: LastAnswer(log, a) && Spelled(log, s) == OwnText(log[a])
  }

  lemma StreamEqualsSnapshotIff(log: seq<Event>, held: Option<string>)
    ensures Client(held, Responses(log, false)) == SnapshotArtifact(log) <==> StreamMatches(log, held)
  {
    ClientHolds(log, held);
    SnapshotIsLastAnswer(log);
    RestartedIffVisible(log);
  }

  lemma {:induction false} ConcatenatedEmpty(events: seq<Event>)
    ensures Concatenated(events) == "" <==> forall i :: 0 <= i < |events| ==>
              !events[i].body.Text? || events[i].body.text == ""
    decreases |events|
  {
    if events != [] {
      ConcatenatedEmpty(events[..|events| - 1]);
    }
  }

  ghost predicate LastAssistant(log: seq<Event>, p: nat) {
    p < |log| && log[p].body.Assistant? && forall i :: p < i < |log| ==> !log[i].body.Assistant?
  }

  /** Some tool turn behind `p` is followed by visible text. */
  ghost predicate TextBehindTurn(log: seq<Event>, p: nat) {
    exists t, i :: p < t < i < |log| && log[t].body.ToolTurn? && !Silent(log[i])
  }

  /** The first visible event behind a tool turn restarts the client. */
  lemma {:induction false} VisibleBehindTurn(log: seq<Event>, t: nat, i: nat) returns (j: nat)
    requires t < i < |log| && log[t].body.ToolTurn? && !Silent(log[i])
    ensures t < j <= i && Restarts(log, j)
    decreases i
  {
    if k :| t < k < i && !Silent(log[k]) {
      j := VisibleBehindTurn(log, t, k);
    } else {
      j := i;
      assert QuietFrom(log[..i], t + 1);
    }
  }

  /** The client starts over behind the last answer exactly when text follows a tool turn there. */
  lemma RestartPlace(log: seq<Event>, p: nat)
    requires LastAssistant(log, p)
    ensures LastRestart(log) == Some(p) <==> !TextBehindTurn(log, p)
  {
    LastRestartIsLast(log, p);
    var s := LastRestart(log).value;
    if s > p {
      var t :| QuietFrom(log[..s], t);
      assert !Silent(log[..s][p]);
      assert log[..s][t - 1] == log[t - 1];
    } else if TextBehindTurn(log, p) {
      var t, i :| p < t < i < |log| && log[t].body.ToolTurn? && !Silent(log[i]);
      var j := VisibleBehindTurn(log, t, i);
      LastRestartIsLast(log, j);
    }
  }

  /** Where that does not happen and the last answer has content, the two agree exactly when no text follows it. */
  lemma AnswerRestart(log: seq<Event>, held: Option<string>, p: nat)
    requires LastAssistant(log, p) && log[p].body.content.Some? && !TextBehindTurn(log, p)
    ensures StreamMatches(log, held) <==> forall i :: p < i < |log| ==> Silent(log[i])
  {
    RestartPlace(log, p);
    var behind := log[p + 1..];
    ConcatenatedEmpty(behind);
    assert forall i :: 0 <= i < |behind| ==> behind[i] == log[p + 1 + i];
    assert forall i :: p < i < |log| ==> log[i] == behind[i - p - 1];
    assert LastAnswer(log, p);
    assert OwnText(log[p]) + Concatenated(behind) == OwnText(log[p]) <==> Concatenated(behind) == "";
  }

  /** `p` is the last assistant event and no visible text follows it. */
  ghost predicate EndsWithAnswer(log: seq<Event>, p: nat) {
    LastAssistant(log, p) && forall i :: p < i < |log| ==> Silent(log[i])
  }

  /**
   A log that ends with an answer leaves its text with the client. The snapshot shows it exactly when
   the answer has content, or an earlier one with content has the same text.
   */
  lemma ClientEndsWithAnswer(log: seq<Event>, p: nat, held: Option<string>)
    requires EndsWithAnswer(log, p)
    ensures Client(held, Responses(log, false)) == Some(OwnText(log[p]))
    ensures StreamMatches(log, held) <==>
              log[p].body.content.Some? || SnapshotArtifact(log[..p]) == Some(OwnText(log[p]))
  {
    RestartPlace(log, p);
    var behind := log[p + 1..];
    assert forall i :: 0 <= i < |behind| ==> behind[i] == log[p + 1 + i];
    ConcatenatedEmpty(behind);
    ClientHolds(log, held);
    assert OwnText(log[p]) + "" == OwnText(log[p]);
    StreamEqualsSnapshotIff(log, held);
    SnapshotBehind(log, p);
  }

  /** Behind the last assistant event nothing changes the snapshot. */
  lemma {:induction false} SnapshotBehind(log: seq<Event>, p: nat)
    requires EndsWithAnswer(log, p)
    ensures SnapshotArtifact(log) ==
            if log[p].body.content.Some? then Some(OwnText(log[p])) else SnapshotArtifact(log[..p])
    decreases |log|
  {
    var front := log[..|log| - 1];
    if p < |front| {
      SnapshotBehind(front, p);
      assert front[..p] == log[..p];
    } else {
      assert front == log[..p];
    }
  }

  /** Text behind a tool turn replaces the answer, and agrees with it when it says the same. */
  lemma TextBehindToolTurn(first: Event, turn: Event, text: Event)
    requires first.body == Assistant(Some("x"), "") && turn.body == ToolTurn && text.body == Text("x")
    ensures StreamMatches([first, turn, text], None)
  {
    var log := [first, turn, text];
    assert log[..2] == [first, turn];
    assert QuietFrom(log[..2], 2);
    assert Restarts(log, 2);
    assert LastAnswer(log, 0);
    assert |log[3..]| == 0;
  }

  /** An answer without content empties the client's text and not the snapshot's. */
  lemma AnswerWithoutContent(first: Event, second: Event)
    requires first.body == Assistant(Some("x"), "") && second.body == Assistant(None, "")
    ensures !StreamMatches([first, second], None)
    ensures Client(None, Responses([first, second], false)) == Some("")
    ensures SnapshotArtifact([first, second]) == Some("x")
  {
    var log := [first, second];
    ClientEndsWithAnswer(log, 1, None);
    assert log[..1] == [first];
    SnapshotIsLastAnswer(log);
    assert LastAnswer(log, 0);
    StreamEqualsSnapshotIff(log, None);
  }

  /** The stream that a client opens on the snapshot of a run. */
  function Open(w: World): Stream {
    Stream(0, true, false, false, w.state.Completed? && SnapshotArtifact(w.log).Some?, w.state)
  }

  /** What the opening snapshot already shows. */
  function Shown(w: World): Option<string> {
    if w.state.Completed? then SnapshotArtifact(w.log) else None
  }

  /**
   Whether it joined before, during or after the run: a client whose stream ended on `completed`
   holds what a fresh snapshot of the task would show exactly when its first snapshot showed it
   already, or streamed and snapshot text agree on the whole log.
   */
  lemma JoinedClientConverges(w: World, polls: seq<Reads>)
    requires WellFormed(w.log) && Schedule(w, polls)
    requires StreamAfter(Open(w), polls).ended && StreamAfter(Open(w), polls).observed.Completed?
    ensures var v := LastWorld(w, polls);
            && v.state.Completed?
            && (Client(Shown(w), Emitted(Open(w), polls)) == SnapshotArtifact(v.log) <==>
                  Shown(w).Some? || StreamMatches(v.log, None))
  {
    var s, v := Open(w), LastWorld(w, polls);
    assert At(s, w, 0) by {
      assert |w.log[..0]| == 0;
    }
    ExactlyOnceInOrder(s, w, polls, 0);
    NeverFinalEarly(s, w, polls, 0);
    ClientSeesArtifacts(Shown(w), Emitted(s, polls));
    if s.suppress {
      ScheduleFrozen(w, polls);
    } else {
      assert v.log[0..|v.log|] == v.log;
      StreamEqualsSnapshotIff(v.log, None);
    }
  }

  /** What the writers of a completed run leave: one answer, committed with the end of the run. */
  ghost predicate OneAnswer(log: seq<Event>, p: nat) {
    EndsWithAnswer(log, p) && forall i :: 0 <= i < p ==> !log[i].body.Assistant?
  }

  lemma {:induction false} NoAnswerNoArtifact(log: seq<Event>)
    requires forall i :: 0 <= i < |log| ==> !log[i].body.Assistant?
    ensures SnapshotArtifact(log) == None
    decreases |log|
  {
    if log != [] {
      NoAnswerNoArtifact(log[..|log| - 1]);
    }
  }

  /** The snapshot of such a run shows its answer exactly when it has content. */
  lemma OneAnswerSnapshot(log: seq<Event>, p: nat)
    requires OneAnswer(log, p)
    ensures SnapshotArtifact(log) == if log[p].body.content.Some? then Some(OwnText(log[p])) else None
  {
    SnapshotBehind(log, p);
    NoAnswerNoArtifact(log[..p]);
  }

  /** On the logs those writers leave every client converges, exactly when the answer has content. */
  lemma EveryClientConverges(w: World, polls: seq<Reads>, p: nat)
    requires WellFormed(w.log) && Schedule(w, polls)
    requires StreamAfter(Open(w), polls).ended && StreamAfter(Open(w), polls).observed.Completed?
    requires OneAnswer(LastWorld(w, polls).log, p)
    ensures var log := LastWorld(w, polls).log;
            Client(Shown(w), Emitted(Open(w), polls)) == SnapshotArtifact(log) <==> log[p].body.content.Some?
  {
    var log := LastWorld(w, polls).log;
    JoinedClientConverges(w, polls);
    ClientEndsWithAnswer(log, p, None);
    OneAnswerSnapshot(log, p);
    NoAnswerNoArtifact(log[..p]);
    if Shown(w).Some? {
      ScheduleFrozen(w, polls);
    }
  }

  lemma {:induction false} ScheduleFrozen(w: World, polls: seq<Reads>)
    requires Terminal(w.state) && Schedule(w, polls)
    ensures LastWorld(w, polls) == w
    decreases |polls|
  {
    if polls != [] {
      ScheduleFrozen(polls[0].events, polls[1..]);
      assert LastWorld(w, polls) == LastWorld(polls[0].events, polls[1..]);
    }
  }
}
