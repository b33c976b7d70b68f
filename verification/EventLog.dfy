/**
 The part of the store that observers read: a run's state and its ordered event log. A writer
 commits a state change together with its events, so an observer sees one commit or the next.
 */
module EventLog {
  import opened Common

  datatype RunState = Queued | Running | Paused | Completed | Failed | Cancelled

  predicate Terminal(s: RunState) {
    s.Completed? || s.Failed? || s.Cancelled?
  }

  /** The event kinds that an observer tells apart. */
  datatype Body = Text(text: string) | ToolTurn | Assistant(content: Option<string>, refusal: string) | Other

  datatype Event = Event(sequence: int, body: Body)

  datatype World = World(log: seq<Event>, state: RunState)

  /** Sequence numbers are positive and strictly increasing. */
  predicate WellFormed(log: seq<Event>) {
    && (forall i :: 0 <= i < |log| ==> log[i].sequence >= 1)
    && (forall i, j :: 0 <= i < j < |log| ==> log[i].sequence < log[j].sequence)
  }

  /** What any number of commits may do to a single run: extend the log, and nothing after a terminal commit. */
  predicate Later(w: World, v: World) {
    && WellFormed(w.log) && WellFormed(v.log)
    && w.log <= v.log
    && (Terminal(w.state) ==> v == w)
  }

  // ---------------------------------------------------------------- event pages

  /** The events after a cursor, as the query selects them. */
  function Newer(log: seq<Event>, cursor: int): seq<Event> {
    if log == [] then []
    else (if log[0].sequence > cursor then [log[0]] else []) + Newer(log[1..], cursor)
  }

  /** `event_batch`: the first `count` events after the cursor. */
  function Page(log: seq<Event>, cursor: int, count: nat): seq<Event> {
    var n := Newer(log, cursor);
    n[..Min(|n|, count)]
  }

  /** The cursor of an observer that has taken the first `k` events. */
  function CursorAt(log: seq<Event>, k: nat): int
    requires k <= |log|
  {
    if k == 0 then 0 else log[k - 1].sequence
  }

  lemma {:induction false} NewerAll(log: seq<Event>, cursor: int)
    requires forall i :: 0 <= i < |log| ==> log[i].sequence > cursor
    ensures Newer(log, cursor) == log
  {
    if log != [] {
      NewerAll(log[1..], cursor);
    }
  }

  lemma {:induction false} NewerSkips(log: seq<Event>, k: nat, cursor: int)
    requires k <= |log|
    requires forall i :: 0 <= i < k ==> log[i].sequence <= cursor
    requires forall i :: k <= i < |log| ==> log[i].sequence > cursor
    ensures Newer(log, cursor) == log[k..]
    decreases |log|
  {
    if k == 0 {
      NewerAll(log, cursor);
      assert log[0..] == log;
    } else {
      NewerSkips(log[1..], k - 1, cursor);
      assert log[1..][k - 1..] == log[k..];
    }
  }

  /** A cursor at position `k` selects exactly the events from `k` on, even in a log that has grown. */
  lemma PageAt(log: seq<Event>, k: nat, count: nat)
    requires WellFormed(log) && k <= |log|
    ensures Page(log, CursorAt(log, k), count) == log[k..k + Min(|log| - k, count)]
  {
    NewerSkips(log, k, CursorAt(log, k));
  }

  lemma CursorStable(a: seq<Event>, b: seq<Event>, k: nat)
    requires a <= b && k <= |a|
    ensures CursorAt(a, k) == CursorAt(b, k)
  {
  }
}
