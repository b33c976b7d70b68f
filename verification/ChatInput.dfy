/**
 The chat client's input queue: a reader thread fills it, `read_line` drains it between turns and
 `control_line` looks at it while a run is active. All three hold the same lock, so a run of the
 program is a sequence of the steps below.
 */
module ChatInput {
  import opened Common

  const MAX_BYTES := 1024 * 1024
  const MAX_LINES := 256
  const CANCEL: Bytes := [47, 99, 97, 110, 99, 101, 108]
  const EXIT: Bytes := [47, 101, 120, 105, 116]

  datatype Queue = Queue(ready: seq<Bytes>, deferred: seq<Bytes>, bytes: nat, lines: nat,
                         eof: bool, closed: bool, stopped: bool, failed: bool)

  const EMPTY := Queue([], [], 0, 0, false, false, false, false)

  function Total(lines: seq<Bytes>): nat {
    if lines == [] then 0 else |lines[0]| + Total(lines[1..])
  }

  /** What a caller gets: nothing, a line, the end of the input, or the reader's exception. */
  datatype Reply = Nothing | Line(text: Bytes) | EndOfInput | Raised

  datatype Step = Arrive(raw: Bytes) | Read | Control | CloseSource | EndInput | Stop

  function StripCr(raw: Bytes): Bytes {
    if raw != [] && raw[|raw| - 1] == CR then raw[..|raw| - 1] else raw
  }

  predicate Room(q: Queue, line: Bytes) {
    q.lines < MAX_LINES && q.bytes + |line| <= MAX_BYTES
  }

  /** The conditions on which the condition variable lets a step through. */
  predicate Enabled(q: Queue, s: Step) {
    match s
    case Arrive(raw) => !q.eof && (|StripCr(raw)| > MAX_BYTES || q.stopped || Room(q, StripCr(raw)))
    case Read => q.stopped || q.failed || q.deferred != [] || q.ready != [] || q.eof
    case _ => true
  }

  predicate Command(line: Bytes) {
    line != [] && line[0] == SLASH && !(|line| >= 2 && line[1] == SLASH)
  }

  /** A doubled slash stands for a leading slash in a prompt. */
  function Unescape(line: Bytes): Bytes {
    if |line| >= 2 && line[0] == SLASH && line[1] == SLASH then line[1..] else line
  }

  /** The queue without one line of `size` bytes. */
  function Uncount(q: Queue, size: nat): Queue {
    q.(bytes := if q.bytes >= size then q.bytes - size else 0, lines := if q.lines >= 1 then q.lines - 1 else 0)
  }

  function Next(q: Queue, s: Step): Queue {
    match s
    case Arrive(raw) =>
      var line := StripCr(raw);
      if |line| > MAX_BYTES then q.(failed := true, eof := true)
      else if q.stopped then q
      else q.(bytes := q.bytes + |line|, lines := q.lines + 1, ready := q.ready + [line])
    case Read =>
      if q.failed then q
      else if q.deferred != [] then Uncount(q.(deferred := q.deferred[1..]), |q.deferred[0]|)
      else if q.ready != [] then Uncount(q.(ready := q.ready[1..]), |q.ready[0]|)
      else q
    case Control =>
      if q.failed || q.closed || q.eof || q.ready == [] then q
      else
        var line, rest := q.ready[0], q.(ready := q.ready[1..]);
        if line == CANCEL || line == EXIT then Uncount(rest, |line|)
        else if Command(line) then rest.(deferred := q.deferred + [line])
        else Uncount(rest, |line|)
    case CloseSource => q.(closed := true)
    case EndInput => q.(eof := true)
    case Stop => q.(stopped := true)
  }

  function ReplyOf(q: Queue, s: Step): Reply {
    match s
    case Read =>
      if q.failed then Raised
      else if q.deferred != [] then Line(q.deferred[0])
      else if q.ready != [] then Line(q.ready[0])
      else EndOfInput
    case Control =>
      if q.failed then Raised
      else if q.closed || q.eof || q.ready == [] then Nothing
      else
        var line := q.ready[0];
        if line == CANCEL || line == EXIT then Line(line)
        else if Command(line) then Nothing
        else Line(Unescape(line))
    case _ => Nothing
  }

  /** One carriage return at the end of an arriving line is not part of it. */
  lemma StripMeans(line: Bytes)
    ensures StripCr(line + [CR]) == line
    ensures (line == [] || line[|line| - 1] != CR) ==> StripCr(line) == line
  {
    assert (line + [CR])[..|line|] == line;
  }

  /**
   What a look at the queue during a turn does with its first line: `/cancel` and `/exit` are handed
   over, a text with two slashes in front is handed over with one, any other text with one is put
   off, and all else is handed over as it is.
   */
  lemma ControlMeans(q: Queue, line: Bytes, rest: seq<Bytes>, tail: Bytes)
    requires !q.failed && !q.closed && !q.eof && q.ready == [line] + rest
    ensures Next(q, Control).ready == rest
    ensures line == CANCEL || line == EXIT ==> ReplyOf(q, Control) == Line(line)
    ensures line == [SLASH, SLASH] + tail ==> ReplyOf(q, Control) == Line([SLASH] + tail)
    ensures line == [SLASH] + tail && (tail == [] || tail[0] != SLASH) && line != CANCEL && line != EXIT ==>
              ReplyOf(q, Control) == Nothing && Next(q, Control).deferred == q.deferred + [line]
    ensures line == [] || line[0] != SLASH ==> ReplyOf(q, Control) == Line(line)
    ensures ReplyOf(q, Control).Line? ==> Next(q, Control).deferred == q.deferred
  {
    ConsParts(line, rest);
    if line == [SLASH, SLASH] + tail {
      assert line[0] == SLASH && line[1] == SLASH && line[1..] == [SLASH] + tail;
      assert CANCEL[1] != SLASH && EXIT[1] != SLASH;
    } else if line == [SLASH] + tail {
      ConsParts(SLASH, tail);
    }
  }

  // --------------------------------------------------------------- the monitor

  class Monitor {
    var ready: seq<Bytes>
    var deferred: seq<Bytes>
    var queuedBytes: nat
    var queuedLines: nat
    var eof: bool
    var closed: bool
    var stopped: bool
    var failed: bool

    ghost function View(): Queue
      reads this
    {
      Queue(ready, deferred, queuedBytes, queuedLines, eof, closed, stopped, failed)
    }

    /** The counters never fall below what they must still give back. */
    ghost predicate Valid()
      reads this
    {
      queuedBytes == Total(deferred) + Total(ready) && queuedLines == |deferred| + |ready|
    }

    constructor ()
      ensures Valid() && View() == EMPTY
    {
      ready, deferred, queuedBytes, queuedLines := [], [], 0, 0;
      eof, closed, stopped, failed := false, false, false, false;
    }

    /** `enqueue`, once its wait is over. */
    method Enqueue(raw: Bytes)
      requires Valid() && Enabled(View(), Arrive(raw))
      modifies this
      ensures Valid() && View() == Next(old(View()), Arrive(raw))
    {
      var line := raw;
      if line != [] && line[|line| - 1] == CR {
        line := line[..|line| - 1];
      }
      if |line| > MAX_BYTES {
        failed, eof := true, true;
        return;
      }
      if stopped {
        return;
      }
      TotalAppend(ready, line);
      queuedBytes := queuedBytes + |line|;
      queuedLines := queuedLines + 1;
      ready := ready + [line];
    }

    /** `read_line`, once its wait is over. */
    method ReadLine() returns (r: Reply)
      requires Valid() && Enabled(View(), Read)
      modifies this
      ensures Valid() && View() == Next(old(View()), Read) && r == ReplyOf(old(View()), Read)
    {
      if failed {
        return Raised;
      }
      var line: Bytes;
      if deferred != [] {
        line, deferred := deferred[0], deferred[1..];
      } else if ready != [] {
        line, ready := ready[0], ready[1..];
      } else {
        return EndOfInput;
      }
      queuedBytes := queuedBytes - |line|;
      queuedLines := queuedLines - 1;
      r := Line(line);
    }

    /** `control_line`. */
    method ControlLine() returns (r: Reply)
      requires Valid()
      modifies this
      ensures Valid() && View() == Next(old(View()), Control) && r == ReplyOf(old(View()), Control)
    {
      if failed {
        return Raised;
      }
      if closed || eof || ready == [] {
        return Nothing;
      }
      var line := ready[0];
      ready := ready[1..];
      if line == CANCEL || line == EXIT {
        queuedBytes, queuedLines := queuedBytes - |line|, queuedLines - 1;
        return Line(line);
      }
      if Command(line) {
        TotalAppend(deferred, line);
        deferred := deferred + [line];
        return Nothing;
      }
      queuedBytes, queuedLines := queuedBytes - |line|, queuedLines - 1;
      r := Line(Unescape(line));
    }
  }

  lemma {:induction false} TotalAppend(lines: seq<Bytes>, line: Bytes)
    ensures Total(lines + [line]) == Total(lines) + |line|
    decreases |lines|
  {
    if lines == [] {
      assert lines + [line] == [line];
      assert |[line][1..]| == 0;
    } else {
      TotalAppend(lines[1..], line);
      assert (lines + [line])[1..] == lines[1..] + [line];
    }
  }

  // ------------------------------------------------------------- whole histories

  /**
   The history of a run: every line that arrived, which of them wait as deferred commands, how many
   have left the ready list, and which arrival each delivered text came from.
   */
  datatype Ledger = Ledger(arrived: seq<Bytes>, deferredAt: seq<nat>, taken: nat, delivered: map<nat, Bytes>)

  function Advance(l: Ledger, q: Queue, s: Step): Ledger {
    match s
    case Arrive(raw) =>
      if |StripCr(raw)| > MAX_BYTES || q.stopped then l else l.(arrived := l.arrived + [StripCr(raw)])
    case Read =>
      var reply := ReplyOf(q, s);
      if !reply.Line? then l
      else if q.deferred != [] && l.deferredAt != []
      then l.(deferredAt := l.deferredAt[1..], delivered := l.delivered[l.deferredAt[0] := reply.text])
      else l.(taken := l.taken + 1, delivered := l.delivered[l.taken := reply.text])
    case Control =>
      var reply := ReplyOf(q, s);
      if q.failed || q.closed || q.eof || q.ready == [] then l
      else if reply.Line? then l.(taken := l.taken + 1, delivered := l.delivered[l.taken := reply.text])
      else l.(taken := l.taken + 1, deferredAt := l.deferredAt + [l.taken])
    case _ => l
  }

  predicate Increasing(s: seq<nat>) {
    forall i, j :: 0 <= i < j < |s| ==> s[i] < s[j]
  }

  /** The counters are exact and within their limits. */
  predicate Counted(q: Queue) {
    && q.bytes == Total(q.deferred) + Total(q.ready) && q.lines == |q.deferred| + |q.ready|
    && q.bytes <= MAX_BYTES && q.lines <= MAX_LINES
  }

  /** The ready list is the untaken end of the arrivals; the deferred list is earlier, in arrival order. */
  predicate Ordered(q: Queue, l: Ledger) {
    && l.taken <= |l.arrived| && q.ready == l.arrived[l.taken..]
    && |l.deferredAt| == |q.deferred| && Increasing(l.deferredAt)
    && (forall i :: 0 <= i < |l.deferredAt| ==>
      l.deferredAt[i] < l.taken && q.deferred[i] == l.arrived[l.deferredAt[i]])
  }

  /** Every taken arrival is delivered or deferred, and never both. */
  predicate Conserved(l: Ledger) {
    && (forall i :: 0 <= i < l.taken ==> (i in l.delivered <==> i !in l.deferredAt))
    && (forall i :: i in l.delivered ==> i < l.taken && i < |l.arrived|)
  }

  /** A delivered text is its arrival, up to the escape of a leading slash. */
  predicate Truthful(l: Ledger) {
    forall i :: i in l.delivered && i < |l.arrived| ==>
      l.delivered[i] == l.arrived[i] || l.delivered[i] == Unescape(l.arrived[i])
  }

  predicate Invariant(q: Queue, l: Ledger) {
    Counted(q) && Ordered(q, l) && Conserved(l) && Truthful(l)
  }

  lemma CountedStep(q: Queue, s: Step)
    requires Counted(q) && Enabled(q, s)
    ensures Counted(Next(q, s))
  {
    match s
    case Arrive(raw) => TotalAppend(q.ready, StripCr(raw));
    case Control => if q.ready != [] { TotalAppend(q.deferred, q.ready[0]); }
    case _ =>
  }

  lemma OrderedRead(q: Queue, l: Ledger)
    requires Ordered(q, l)
    ensures Ordered(Next(q, Read), Advance(l, q, Read))
  {
    if q.deferred != [] {
      var rest := l.deferredAt[1..];
      assert forall i :: 0 <= i < |rest| ==> rest[i] == l.deferredAt[i + 1];
    } else if q.ready != [] {
      assert q.ready[1..] == l.arrived[l.taken + 1..];
    }
  }

  lemma OrderedControl(q: Queue, l: Ledger)
    requires Ordered(q, l)
    ensures Ordered(Next(q, Control), Advance(l, q, Control))
  {
    if !(q.failed || q.closed || q.eof || q.ready == []) {
      assert q.ready[0] == l.arrived[l.taken];
      assert q.ready[1..] == l.arrived[l.taken + 1..];
    }
  }

  lemma OrderedStep(q: Queue, l: Ledger, s: Step)
    requires Ordered(q, l)
    ensures Ordered(Next(q, s), Advance(l, q, s))
  {
    match s
    case Arrive(raw) =>
      assert (l.arrived + [StripCr(raw)])[l.taken..] == l.arrived[l.taken..] + [StripCr(raw)];
    case Read => OrderedRead(q, l);
    case Control => OrderedControl(q, l);
    case _ =>
  }

  lemma ConservedStep(q: Queue, l: Ledger, s: Step)
    requires Ordered(q, l) && Conserved(l)
    ensures Conserved(Advance(l, q, s))
  {
    if s.Read? && !q.failed && q.deferred != [] {
      var head, rest := l.deferredAt[0], l.deferredAt[1..];
      assert l.deferredAt == [head] + rest;
      assert forall i :: i in l.deferredAt <==> i == head || i in rest;
      assert head !in rest by {
        assert forall i :: 0 <= i < |rest| ==> rest[i] == l.deferredAt[i + 1];
      }
    } else if s.Control? {
      assert forall i :: i in l.deferredAt + [l.taken] <==> i == l.taken || i in l.deferredAt;
      assert l.taken !in l.deferredAt;
    } else if s.Read? {
      assert l.taken !in l.deferredAt;
    }
  }

  lemma TruthfulStep(q: Queue, l: Ledger, s: Step)
    requires Ordered(q, l) && Conserved(l) && Truthful(l)
    ensures Truthful(Advance(l, q, s))
  {
    var m := Advance(l, q, s);
    assert l.arrived <= m.arrived;
    if q.ready != [] {
      assert q.ready[0] == l.arrived[l.taken];
    }
    forall i | i in m.delivered && i < |m.arrived|
      ensures m.delivered[i] == m.arrived[i] || m.delivered[i] == Unescape(m.arrived[i])
    {
      if i in l.delivered {
        assert m.arrived[i] == l.arrived[i];
      }
    }
  }

  /** A run: the queue and its history after a list of steps, each taken when it was enabled. */
  predicate Runs(q: Queue, steps: seq<Step>)
    decreases |steps|
  {
    steps == [] || (Enabled(q, steps[0]) && Runs(Next(q, steps[0]), steps[1..]))
  }

  datatype Snapshot = Snapshot(queue: Queue, ledger: Ledger)

  function After(p: Snapshot, steps: seq<Step>): Snapshot
    decreases |steps|
  {
    if steps == [] then p
    else After(Snapshot(Next(p.queue, steps[0]), Advance(p.ledger, p.queue, steps[0])), steps[1..])
  }

  lemma {:induction false} InvariantAlways(p: Snapshot, steps: seq<Step>)
    requires Invariant(p.queue, p.ledger) && Runs(p.queue, steps)
    ensures Invariant(After(p, steps).queue, After(p, steps).ledger)
    decreases |steps|
  {
    if steps != [] {
      var s := steps[0];
      CountedStep(p.queue, s);
      OrderedStep(p.queue, p.ledger, s);
      ConservedStep(p.queue, p.ledger, s);
      TruthfulStep(p.queue, p.ledger, s);
      InvariantAlways(Snapshot(Next(p.queue, s), Advance(p.ledger, p.queue, s)), steps[1..]);
    }
  }

  predicate Initial(q: Queue, l: Ledger) {
    && q.ready == q.deferred == [] && q.bytes == q.lines == 0
    && l.arrived == [] && l.deferredAt == [] && l.taken == 0 && l.delivered == map[]
  }

  /** In every interleaving the counters, the order and the contents are right. */
  lemma EveryRun(start: Snapshot, steps: seq<Step>)
    requires Initial(start.queue, start.ledger) && Runs(start.queue, steps)
    ensures var p := After(start, steps); Invariant(p.queue, p.ledger)
  {
    InvariantAtStart(start.queue, start.ledger);
    InvariantAlways(start, steps);
  }

  lemma InvariantAtStart(q: Queue, l: Ledger)
    requires Initial(q, l)
    ensures Invariant(q, l)
  {
  }

  /**
   `read_line` delivers the oldest line still in the queue, whatever was deferred meanwhile: every
   earlier arrival has already been delivered, and this one has not.
   */
  lemma ReadDeliversOldest(q: Queue, l: Ledger)
    requires Invariant(q, l) && ReplyOf(q, Read).Line?
    ensures var at := if q.deferred != [] then l.deferredAt[0] else l.taken;
            && at < |l.arrived| && ReplyOf(q, Read).text == l.arrived[at]
            && at !in l.delivered
            && (forall i :: 0 <= i < at ==> i in l.delivered)
            && Advance(l, q, Read).delivered == l.delivered[at := l.arrived[at]]
  {
    if q.deferred != [] {
      var at := l.deferredAt[0];
      assert at in l.deferredAt;
      forall i | 0 <= i < at
        ensures i in l.delivered
      {
        assert i !in l.deferredAt;
      }
    }
  }

  /** An empty queue admits the next legal line, so the reader cannot be stuck behind the limits. */
  lemma EmptyQueueAdmits(q: Queue, l: Ledger, raw: Bytes)
    requires Invariant(q, l) && q.ready == [] && q.deferred == [] && !q.eof
    ensures Enabled(q, Arrive(raw))
  {
  }

  /** Whenever a line is refused for want of room, `read_line` is able to make room. */
  lemma FullQueueDrains(q: Queue, l: Ledger, raw: Bytes)
    requires Invariant(q, l) && !q.eof && !Enabled(q, Arrive(raw))
    ensures Enabled(q, Read) && q.lines > 0
    ensures !q.failed ==> ReplyOf(q, Read).Line? && Next(q, Read).lines == q.lines - 1
  {
    if q.ready == [] && q.deferred == [] {
      EmptyQueueAdmits(q, l, raw);
    }
  }
}
