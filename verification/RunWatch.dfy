/** The command line observer: `watch_run` reads events, then the state, and drains once more at the end. */
module RunWatch {
  import opened Common
  import opened EventLog

  const TREE_PAGE := 256

  /** The observed run never leaves a terminal state; in a tree its children may still append. */
  predicate Grows(w: World, v: World) {
    && WellFormed(w.log) && WellFormed(v.log)
    && w.log <= v.log
    && (Terminal(w.state) ==> v.state == w.state)
  }

  /** Successive requests reach the server at ever later commits. */
  type Requests = s: seq<World> | Timeline(s) witness []

  predicate Timeline(requests: seq<World>) {
    && (forall i {:trigger WellFormed(requests[i].log)} :: 0 <= i < |requests| ==> WellFormed(requests[i].log))
    && forall i, j {:trigger Grows(requests[i], requests[j])} :: 0 <= i < j < |requests| ==>
      Grows(requests[i], requests[j])
  }

  /** Why the observer stopped: a terminal state, an invalid reply, or no more requests to make. */
  datatype Outcome = Finished(state: RunState) | Invalid | Watching

  /** What a reply to the event request holds: one page of a tree, or everything after the cursor. */
  function EventReply(w: World, cursor: int, tree: bool): seq<Event> {
    if tree then Page(w.log, cursor, TREE_PAGE) else Newer(w.log, cursor)
  }

  // ----------------------------------------------------------------- behind the first cursor

  /** The observer may start from any cursor: what it is to see is what lies behind. */
  function Behind(w: World, base: int): World {
    World(Newer(w.log, base), w.state)
  }

  function AllBehind(requests: seq<World>, base: int): (r: seq<World>)
    ensures |r| == |requests| && forall i :: 0 <= i < |r| ==> r[i] == Behind(requests[i], base)
  {
    seq(|requests|, i requires 0 <= i < |requests| => Behind(requests[i], base))
  }

  lemma {:induction false} NewerConcat(a: seq<Event>, b: seq<Event>, cursor: int)
    ensures Newer(a + b, cursor) == Newer(a, cursor) + Newer(b, cursor)
    decreases |a|
  {
    if a == [] {
      assert a + b == b;
    } else {
      assert a + b == [a[0]] + (a[1..] + b);
      ConsParts(a[0], a[1..] + b);
      NewerConcat(a[1..], b, cursor);
    }
  }

  lemma {:induction false} NewerMembers(log: seq<Event>, cursor: int, e: Event)
    ensures e in Newer(log, cursor) <==> e in log && e.sequence > cursor
    decreases |log|
  {
    if log != [] {
      NewerMembers(log[1..], cursor, e);
      assert e in log <==> e == log[0] || e in log[1..];
    }
  }

  /** A well-formed log splits at any cursor. */
  lemma {:induction false} SplitAtCursor(log: seq<Event>, cursor: int, n: nat) returns (k: nat)
    requires WellFormed(log) && n <= |log|
    ensures k <= n
    ensures forall i :: 0 <= i < k ==> log[i].sequence <= cursor
    ensures forall i :: k <= i < n ==> log[i].sequence > cursor
    decreases n
  {
    if n == 0 || log[n - 1].sequence <= cursor {
      k := n;
    } else {
      k := SplitAtCursor(log, cursor, n - 1);
    }
  }

  /** Behind a cursor lies the end of the log, and behind a later one the end of that. */
  lemma NewerTwice(log: seq<Event>, base: int, cursor: int)
    requires WellFormed(log) && base <= cursor
    ensures WellFormed(Newer(log, base)) && Newer(Newer(log, base), cursor) == Newer(log, cursor)
  {
    var k := SplitAtCursor(log, base, |log|);
    NewerSkips(log, k, base);
    TailWellFormed(log, k);
    var m := SplitAtCursor(log[k..], cursor, |log| - k);
    SkipTwice(log, k, m, cursor);
  }

  lemma TailWellFormed(log: seq<Event>, k: nat)
    requires WellFormed(log) && k <= |log|
    ensures WellFormed(log[k..])
  {
  }

  lemma SkipTwice(log: seq<Event>, k: nat, m: nat, cursor: int)
    requires k + m <= |log| && forall i :: 0 <= i < k ==> log[i].sequence <= cursor
    requires forall i :: 0 <= i < m ==> log[k..][i].sequence <= cursor
    requires forall i :: m <= i < |log| - k ==> log[k..][i].sequence > cursor
    ensures Newer(log[k..], cursor) == Newer(log, cursor)
  {
    var rest := log[k..];
    NewerSkips(rest, m, cursor);
    forall i | k <= i < |log| ensures log[i] == rest[i - k] {
    }
    NewerSkips(log, k + m, cursor);
    assert rest[m..] == log[k + m..];
  }

  lemma BehindGrows(w: World, v: World, base: int)
    requires Grows(w, v)
    ensures Grows(Behind(w, base), Behind(v, base))
  {
    NewerTwice(w.log, base, base);
    NewerTwice(v.log, base, base);
    assert v.log == w.log + v.log[|w.log|..];
    NewerConcat(w.log, v.log[|w.log|..], base);
  }

  lemma TimelineBehind(requests: Requests, base: int)
    ensures Timeline(AllBehind(requests, base))
  {
    var seen := AllBehind(requests, base);
    forall i | 0 <= i < |seen| ensures WellFormed(seen[i].log) {
      NewerTwice(requests[i].log, base, base);
    }
    forall i, j | 0 <= i < j < |seen| ensures Grows(seen[i], seen[j]) {
      BehindGrows(requests[i], requests[j], base);
    }
  }

  // ----------------------------------------------------------------------------- replies

  /** The cursor after `k` of the events behind `base`. */
  function Mark(log: seq<Event>, k: nat, base: int): int
    requires k <= |log|
  {
    if k == 0 then base else log[k - 1].sequence
  }

  function PageEnd(n: nat, k: nat, tree: bool): nat {
    if k >= n then k else if tree then k + Min(n - k, TREE_PAGE) else n
  }

  lemma AllAbove(log: seq<Event>, base: int, i: nat)
    requires i < |Newer(log, base)|
    ensures Newer(log, base)[i].sequence > base
  {
    NewerMembers(log, base, Newer(log, base)[i]);
  }

  lemma MarkSplits(log: seq<Event>, k: nat, base: int, mark: int)
    requires WellFormed(log) && k <= |log| && mark == Mark(log, k, base)
    requires forall i :: 0 <= i < |log| ==> log[i].sequence > base
    ensures forall i :: 0 <= i < k ==> log[i].sequence <= mark
    ensures forall i :: k <= i < |log| ==> log[i].sequence > mark
  {
  }

  /** Behind the mark of `k` events lies the rest of them. */
  lemma NewerAtMark(log: seq<Event>, k: nat, base: int)
    requires WellFormed(log) && k <= |log| && forall i :: 0 <= i < |log| ==> log[i].sequence > base
    ensures Newer(log, Mark(log, k, base)) == log[k..]
  {
    MarkSplits(log, k, base, Mark(log, k, base));
    NewerSkips(log, k, Mark(log, k, base));
  }

  lemma NewerBehind(log: seq<Event>, rest: seq<Event>, base: int, k: nat)
    requires WellFormed(log) && rest == Newer(log, base) && k <= |rest|
    ensures Newer(log, Mark(rest, k, base)) == rest[k..]
  {
    NewerTwice(log, base, base);
    forall i | 0 <= i < |rest| ensures rest[i].sequence > base {
      AllAbove(log, base, i);
    }
    NewerTwice(log, base, Mark(rest, k, base));
    NewerAtMark(rest, k, base);
  }

  lemma ReplyAt(w: World, rest: seq<Event>, base: int, k: nat, tree: bool)
    requires WellFormed(w.log) && rest == Newer(w.log, base) && k <= |rest|
    ensures EventReply(w, Mark(rest, k, base), tree) == rest[k..PageEnd(|rest|, k, tree)]
  {
    NewerBehind(w.log, rest, base, k);
    ReplyShape(w, Mark(rest, k, base), rest, k, tree);
  }

  lemma ReplyShape(w: World, cursor: int, rest: seq<Event>, k: nat, tree: bool)
    requires k <= |rest| && Newer(w.log, cursor) == rest[k..]
    ensures EventReply(w, cursor, tree) == rest[k..PageEnd(|rest|, k, tree)]
  {
  }

  function Prior(events: seq<Event>, from: int, i: nat): int
    requires i <= |events|
  {
    if i == 0 then from else events[i - 1].sequence
  }

  /** Every event of a reply lies beyond the one before it, the first beyond the cursor. */
  predicate Ascends(events: seq<Event>, from: int) {
    forall i: nat :: i < |events| ==> Prior(events, from, i) < events[i].sequence
  }

  lemma ReplyAscends(w: World, rest: seq<Event>, base: int, k: nat, next: nat)
    requires WellFormed(w.log) && rest == Newer(w.log, base) && k <= next <= |rest|
    ensures Ascends(rest[k..next], Mark(rest, k, base))
  {
    NewerTwice(w.log, base, base);
    forall i: nat | i < next - k ensures Prior(rest[k..next], Mark(rest, k, base), i) < rest[k..next][i].sequence {
      AllAbove(w.log, base, k + i);
      StepAscends(rest, base, k, next, i);
    }
  }

  lemma StepAscends(rest: seq<Event>, base: int, k: nat, next: nat, i: nat)
    requires WellFormed(rest) && k + i < next <= |rest| && rest[k + i].sequence > base
    ensures Prior(rest[k..next], Mark(rest, k, base), i) < rest[k..next][i].sequence
  {
    var events := rest[k..next];
    assert events[i] == rest[k + i];
    if i > 0 {
      assert events[i - 1] == rest[k + i - 1];
    }
  }

  /**
   The loop over one reply. An event at or before the cursor makes it invalid, and so does one that is
   malformed or of a run that is not owned, for which `accepts` stands; what came before it is printed.
   */
  method EmitReply(events: seq<Event>, from: int, accepts: Event -> bool)
    returns (ok: bool, out: seq<Event>, cursor: int)
    ensures ok <==> Ascends(events, from) && forall i :: 0 <= i < |events| ==> accepts(events[i])
    ensures out <= events && cursor == Prior(events, from, |out|) && forall e :: e in out ==> accepts(e)
    ensures if ok then out == events else |out| < |events| && (Ascends(events, from) ==> !accepts(events[|out|]))
  {
    out, cursor := [], from;
    var i := 0;
    while i < |events|
      invariant i <= |events| && out == events[..i]
      invariant cursor == Prior(events, from, i) && forall e :: e in out ==> accepts(e)
      invariant forall k: nat :: k < i ==> Prior(events, from, k) < events[k].sequence && accepts(events[k])
    {
      if events[i].sequence <= cursor || !accepts(events[i]) {
        assert !(Prior(events, from, i) < events[i].sequence && accepts(events[i]));
        return false, out, cursor;
      }
      out := out + [events[i]];
      cursor := events[i].sequence;
      i := i + 1;
    }
    ok := true;
  }

  /** One request of `emit`: a valid reply prints the next stretch, an invalid one a part of it. */
  method EmitPage(w: World, base: int, taken: nat, cursor: int, tree: bool, accepts: Event -> bool,
                  ghost rest: seq<Event>)
    returns (ok: bool, short: bool, next: nat, after: int, out: seq<Event>)
    requires WellFormed(w.log) && rest == Newer(w.log, base) && taken <= |rest| && cursor == Mark(rest, taken, base)
    ensures taken <= next <= |rest| && after == Mark(rest, next, base) && out == rest[taken..next]
    ensures ok && short ==> next == |rest|
    ensures ok ==> (short <==> !tree || next - taken < TREE_PAGE)
    ensures ok && !short ==> next == taken + TREE_PAGE
    ensures !ok ==> next < |rest| && !accepts(rest[next])
    ensures forall e :: e in out ==> accepts(e)
  {
    ReplyAt(w, rest, base, taken, tree);
    ReplyAscends(w, rest, base, taken, PageEnd(|rest|, taken, tree));
    var events := EventReply(w, cursor, tree);
    ok, next, after, out := EmitEvents(events, taken, cursor, accepts, rest, PageEnd(|rest|, taken, tree), base);
    short := !tree || |events| < TREE_PAGE;
  }

  /** The events of a page, as a stretch of what lies behind the first cursor. */
  method EmitEvents(events: seq<Event>, taken: nat, cursor: int, accepts: Event -> bool, ghost rest: seq<Event>,
                    ghost end: nat, ghost base: int)
    returns (ok: bool, next: nat, after: int, out: seq<Event>)
    requires taken <= end <= |rest| && events == rest[taken..end] && cursor == Mark(rest, taken, base)
    requires Ascends(events, cursor)
    ensures taken <= next <= end && after == Mark(rest, next, base) && out == rest[taken..next]
    ensures if ok then next == end else next < end && !accepts(rest[next])
    ensures forall e :: e in out ==> accepts(e)
  {
    ok, out, after := EmitReply(events, cursor, accepts);
    next := taken + |out|;
    PageParts(rest, taken, end, events, out, base);
  }

  lemma PageParts(log: seq<Event>, taken: nat, end: nat, events: seq<Event>, out: seq<Event>, base: int)
    requires taken <= end <= |log| && events == log[taken..end] && out <= events
    ensures out == log[taken..taken + |out|]
    ensures Prior(events, Mark(log, taken, base), |out|) == Mark(log, taken + |out|, base)
    ensures |out| < |events| ==> events[|out|] == log[taken + |out|]
  {
    assert out == events[..|out|];
    if |out| > 0 {
      assert events[|out| - 1] == log[taken + |out| - 1];
    }
  }

  // ------------------------------------------------------------------------------- draining

  /** The events printed since the request `start`, of a timeline behind the first cursor. */
  ghost predicate Stretch(seen: seq<World>, start: nat, t: nat, from: nat, taken: nat, out: seq<Event>)
    requires start <= t <= |seen|
  {
    && (t == start ==> taken == from && out == [])
    && (t > start ==> from <= taken <= |seen[t - 1].log| && out == seen[t - 1].log[from..taken])
  }

  lemma StretchGrows(seen: Requests, start: nat, t: nat, from: nat, taken: nat, next: nat,
                     out: seq<Event>, more: seq<Event>)
    requires start <= t < |seen|
    requires Stretch(seen, start, t, from, taken, out)
    requires taken <= next <= |seen[t].log| && more == seen[t].log[taken..next]
    ensures Stretch(seen, start, t + 1, from, next, out + more)
  {
    var log := seen[t].log;
    if t > start {
      assert Grows(seen[t - 1], seen[t]);
    }
    assert out == log[from..taken];
    assert log[from..taken] + log[taken..next] == log[from..next];
  }

  /** Where an observer stands before request `t`: its cursor marks what it has taken, in every log to come. */
  ghost predicate Stands(seen: seq<World>, t: nat, taken: nat, cursor: int, base: int) {
    forall i :: t <= i < |seen| ==> taken <= |seen[i].log| && cursor == Mark(seen[i].log, taken, base)
  }

  lemma StandsOn(seen: Requests, t: nat, taken: nat, cursor: int, base: int)
    requires t < |seen| && taken <= |seen[t].log| && cursor == Mark(seen[t].log, taken, base)
    ensures Stands(seen, t + 1, taken, cursor, base)
  {
    forall i | t + 1 <= i < |seen| ensures taken <= |seen[i].log| && cursor == Mark(seen[i].log, taken, base) {
      assert Grows(seen[t], seen[i]);
    }
  }

  /** The first event not printed was shown by the last request and is not accepted. */
  ghost predicate Refuses(seen: seq<World>, t: nat, taken: nat, accepts: Event -> bool) {
    0 < t <= |seen| && taken < |seen[t - 1].log| && !accepts(seen[t - 1].log[taken])
  }

  /** The requests from `start` on were all answered by full pages, which only a tree has. */
  predicate FullPages(start: nat, t: nat, from: nat, taken: nat, tree: bool) {
    start <= t && taken == from + TREE_PAGE * (t - start) && (t > start ==> tree)
  }

  /** The last request was answered by a short page: everything committed when it was made is printed. */
  ghost predicate Drained(seen: seq<World>, start: nat, t: nat, taken: nat) {
    start < t <= |seen| && taken == |seen[t - 1].log|
  }

  /** How an `emit` from the request `start` on ends. */
  ghost predicate Emitted(seen: seq<World>, start: nat, from: nat, valid: bool, drained: bool, t: nat, taken: nat,
                          tree: bool, accepts: Event -> bool) {
    if !valid then start < t && Refuses(seen, t, taken, accepts)
    else if drained then Drained(seen, start, t, taken)
    else t == |seen| && FullPages(start, t, from, taken, tree)
  }

  /**
   `emit`: pages until one is short. `t` counts the requests made, `taken` the events printed, and
   `drained` tells a short page from a timeline that has no further request.
   */
  method Emit(requests: Requests, base: int, start: nat, taken0: nat, cursor0: int, tree: bool, accepts: Event -> bool,
              ghost seen: Requests)
    returns (valid: bool, drained: bool, t: nat, taken: nat, cursor: int, out: seq<Event>)
    requires seen == AllBehind(requests, base) && start <= |requests| && Stands(seen, start, taken0, cursor0, base)
    ensures start <= t <= |seen| && Stretch(seen, start, t, taken0, taken, out) && Stands(seen, t, taken, cursor, base)
    ensures Emitted(seen, start, taken0, valid, drained, t, taken, tree, accepts)
    ensures forall e :: e in out ==> accepts(e)
  {
    valid, drained, t, taken, cursor, out := true, false, start, taken0, cursor0, [];
    while t < |requests| && valid && !drained
      invariant start <= t <= |requests| && forall e :: e in out ==> accepts(e)
      invariant Stretch(seen, start, t, taken0, taken, out) && Stands(seen, t, taken, cursor, base)
      invariant !valid ==> start < t && Refuses(seen, t, taken, accepts)
      invariant valid && drained ==> Drained(seen, start, t, taken)
      invariant valid && !drained ==> FullPages(start, t, taken0, taken, tree)
      decreases |requests| - t
    {
      var more, next;
      ghost var rest := seen[t].log;
      valid, drained, next, cursor, more := EmitPage(requests[t], base, taken, cursor, tree, accepts, rest);
      StretchGrows(seen, start, t, taken0, taken, next, out, more);
      StandsOn(seen, t, next, cursor, base);
      out, taken, t := out + more, next, t + 1;
    }
  }

  // ------------------------------------------------------------------------------- watching

  /** The observer's position: how many requests were made, what was taken and what was printed. */
  ghost predicate Printed(seen: seq<World>, t: nat, taken: nat, out: seq<Event>) {
    && t <= |seen|
    && (t == 0 ==> taken == 0 && out == [])
    && (t > 0 ==> taken <= |seen[t - 1].log| && out == seen[t - 1].log[..taken])
  }

  /** An observer before request `t`; `asked` are its requests for the state. */
  datatype Position = Position(t: nat, taken: nat, cursor: int, out: seq<Event>, asked: seq<nat>)

  ghost predicate Observes(seen: seq<World>, base: int, p: Position, accepts: Event -> bool) {
    && Printed(seen, p.t, p.taken, p.out) && Stands(seen, p.t, p.taken, p.cursor, base)
    && forall e :: e in p.out ==> accepts(e)
  }

  /** The first request behind the last one for the state. */
  function Start(asked: seq<nat>): nat {
    if asked == [] then 0 else asked[|asked| - 1] + 1
  }

  /** What was printed before the last request for the state: everything committed at the request before it. */
  ghost function From(seen: seq<World>, asked: seq<nat>): nat {
    if asked != [] && 0 < asked[|asked| - 1] <= |seen| then |seen[asked[|asked| - 1] - 1].log| else 0
  }

  /** The state was asked for after events, and found not to be terminal. */
  ghost predicate Going(seen: seq<World>, asked: seq<nat>) {
    forall k :: 0 <= k < |asked| ==> 0 < asked[k] < |seen| && !Terminal(seen[asked[k]].state)
  }

  /** It was so until the last time, when it was found to be this. */
  ghost predicate Ended(seen: seq<World>, asked: seq<nat>, state: RunState) {
    && asked != [] && Going(seen, asked[..|asked| - 1])
    && 0 < asked[|asked| - 1] < |seen| && seen[asked[|asked| - 1]].state == state && Terminal(state)
  }

  /**
   The observer has stopped. It still watches only when its requests are used up, and then it lacks
   nothing that was committed at its last short page but for the full pages since; an invalid reply
   shows an event it does not accept; and it finishes at the first terminal state it reads, with
   everything printed that was committed when a later request found nothing more.
   */
  ghost predicate Stopped(seen: seq<World>, outcome: Outcome, p: Position, tree: bool, accepts: Event -> bool) {
    && Printed(seen, |seen|, p.taken, p.out) && (forall e :: e in p.out ==> accepts(e))
    && match outcome
       case Watching =>
         && p.t == |seen|
         && (|| (Going(seen, p.asked) && Drained(seen, Start(p.asked), p.t, p.taken))
             || ((Going(seen, p.asked) || exists state :: Ended(seen, p.asked, state))
                 && FullPages(Start(p.asked), p.t, From(seen, p.asked), p.taken, tree)))
       case Invalid => Refuses(seen, p.t, p.taken, accepts)
       case Finished(state) =>
         && Ended(seen, p.asked, state) && Drained(seen, Start(p.asked), p.t, p.taken)
         && |seen[p.asked[|p.asked| - 1]].log| <= p.taken
  }

  /** One `emit` of an observer, with what it adds to the output. */
  method Drain(requests: Requests, base: int, p: Position, tree: bool, accepts: Event -> bool, ghost seen: Requests)
    returns (valid: bool, drained: bool, n: Position)
    requires seen == AllBehind(requests, base) && p.t < |seen| && Observes(seen, base, p, accepts)
    ensures p.t <= n.t <= |seen| && n.t > 0 && Observes(seen, base, n, accepts) && n.asked == p.asked
    ensures Emitted(seen, p.t, p.taken, valid, drained, n.t, n.taken, tree, accepts)
    ensures Printed(seen, |seen|, n.taken, n.out)
  {
    var t, taken, cursor, more;
    valid, drained, t, taken, cursor, more := Emit(requests, base, p.t, p.taken, p.cursor, tree, accepts, seen);
    OutputExtends(seen, p.t, t, p.taken, taken, p.out, more);
    n := Position(t, taken, cursor, p.out + more, p.asked);
    ToTheEnd(seen, t, taken, n.out);
  }

  /** A request for the state leaves the observer where it is. */
  lemma StateRead(seen: Requests, base: int, p: Position, accepts: Event -> bool)
    requires 0 < p.t < |seen| && Observes(seen, base, p, accepts)
    ensures Observes(seen, base, p.(t := p.t + 1, asked := p.asked + [p.t]), accepts)
    ensures Printed(seen, |seen|, p.taken, p.out)
  {
    OneMore(seen, p.t, p.taken, p.out);
    ToTheEnd(seen, p.t, p.taken, p.out);
  }

  lemma Asks(seen: Requests, p: Position)
    requires 0 < p.t < |seen| && Going(seen, p.asked) && p.taken == |seen[p.t - 1].log|
    ensures var asked := p.asked + [p.t];
            && Start(asked) == p.t + 1 && From(seen, asked) == p.taken
            && if Terminal(seen[p.t].state) then Ended(seen, asked, seen[p.t].state) else Going(seen, asked)
  {
    var asked := p.asked + [p.t];
    assert asked[..|asked| - 1] == p.asked;
  }

  /** The events that a terminal state came with are drained before the observer finishes. */
  lemma Finishes(seen: Requests, n: Position, state: RunState)
    requires Ended(seen, n.asked, state) && Drained(seen, Start(n.asked), n.t, n.taken)
    ensures |seen[n.asked[|n.asked| - 1]].log| <= n.taken
  {
    assert Grows(seen[n.asked[|n.asked| - 1]], seen[n.t - 1]);
  }

  /** An observer about to ask for events again. */
  ghost predicate Resumes(seen: seq<World>, base: int, p: Position, accepts: Event -> bool) {
    && p.t <= |seen| && Observes(seen, base, p, accepts) && (p.t > 0 ==> Printed(seen, |seen|, p.taken, p.out))
    && Going(seen, p.asked) && p.t == Start(p.asked) && p.taken == From(seen, p.asked)
  }

  /** What an observer that has read no terminal state has to show at its last request, or at an invalid reply. */
  lemma StopsHere(seen: Requests, p: Position, valid: bool, drained: bool, tree: bool, accepts: Event -> bool)
    requires Printed(seen, |seen|, p.taken, p.out) && (forall e :: e in p.out ==> accepts(e)) && Going(seen, p.asked)
    requires Emitted(seen, Start(p.asked), From(seen, p.asked), valid, drained, p.t, p.taken, tree, accepts)
    requires valid ==> p.t == |seen|
    ensures Stopped(seen, if valid then Watching else Invalid, p, tree, accepts)
  {
  }

  lemma BeforeAll(seen: Requests, base: int, p: Position, accepts: Event -> bool)
    requires p == Position(0, 0, base, [], [])
    ensures Resumes(seen, base, p, accepts)
  {
  }

  lemma StopsBetween(seen: Requests, base: int, p: Position, tree: bool, accepts: Event -> bool)
    requires Resumes(seen, base, p, accepts) && p.t == |seen|
    ensures Stopped(seen, Watching, p, tree, accepts)
  {
  }

  /** The state after the events: when it is terminal, events are drained once more. */
  method ReadState(requests: Requests, base: int, p: Position, tree: bool, accepts: Event -> bool, ghost seen: Requests)
    returns (stop: bool, outcome: Outcome, n: Position)
    requires seen == AllBehind(requests, base) && 0 < p.t < |seen| && Observes(seen, base, p, accepts)
    requires Going(seen, p.asked) && p.taken == |seen[p.t - 1].log|
    ensures stop ==> Stopped(seen, outcome, n, tree, accepts)
    ensures !stop ==> p.t < n.t && Resumes(seen, base, n, accepts)
  {
    StateRead(seen, base, p, accepts);
    Asks(seen, p);
    stop, outcome, n := Terminal(requests[p.t].state), Watching, p.(t := p.t + 1, asked := p.asked + [p.t]);
    if stop && n.t < |requests| {
      var valid, drained;
      valid, drained, n := Drain(requests, base, n, tree, accepts, seen);
      outcome := if !valid then Invalid else if drained then Finished(requests[p.t].state) else Watching;
      if valid && drained { Finishes(seen, n, requests[p.t].state); }
    }
  }

  /** One round: the events, then the state. */
  method Round(requests: Requests, base: int, p: Position, tree: bool, accepts: Event -> bool, ghost seen: Requests)
    returns (stop: bool, outcome: Outcome, n: Position)
    requires seen == AllBehind(requests, base) && p.t < |seen| && Resumes(seen, base, p, accepts)
    ensures stop ==> Stopped(seen, outcome, n, tree, accepts)
    ensures !stop ==> p.t < n.t && Resumes(seen, base, n, accepts)
  {
    var valid, drained;
    valid, drained, n := Drain(requests, base, p, tree, accepts, seen);
    if !valid || n.t == |requests| {
      StopsHere(seen, n, valid, drained, tree, accepts);
      return true, if valid then Watching else Invalid, n;
    }
    stop, outcome, n := ReadState(requests, base, n, tree, accepts, seen);
  }

  /** The loop of `watch_run`, against the timeline behind the first cursor. */
  method WatchBehind(requests: Requests, base: int, tree: bool, accepts: Event -> bool, ghost seen: Requests)
    returns (outcome: Outcome, p: Position)
    requires seen == AllBehind(requests, base)
    ensures Stopped(seen, outcome, p, tree, accepts)
  {
    p := Position(0, 0, base, [], []);
    BeforeAll(seen, base, p, accepts);
    while p.t < |requests|
      invariant Resumes(seen, base, p, accepts)
      decreases |requests| - p.t
    {
      var stop;
      stop, outcome, p := Round(requests, base, p, tree, accepts, seen);
      if stop { return; }
    }
    outcome := Watching;
    StopsBetween(seen, base, p, tree, accepts);
  }

  /**
   `watch_run` from any cursor on. Whatever commits between its requests: it prints what lies behind
   the cursor without gap, repetition or change of order, finds a reply invalid only for an event it
   does not accept, and finishes with the run's terminal state only after every event committed
   before that state was read.
   */
  method Watch(requests: Requests, base: int, tree: bool, accepts: Event -> bool)
    returns (outcome: Outcome, p: Position)
    ensures Stopped(AllBehind(requests, base), outcome, p, tree, accepts)
  {
    TimelineBehind(requests, base);
    outcome, p := WatchBehind(requests, base, tree, accepts, AllBehind(requests, base));
  }

  /** What has been printed is the same stretch of any later log. */
  lemma OneMore(seen: Requests, t: nat, taken: nat, out: seq<Event>)
    requires 0 < t < |seen| && Printed(seen, t, taken, out)
    ensures Printed(seen, t + 1, taken, out)
  {
    assert Grows(seen[t - 1], seen[t]);
  }

  lemma {:induction false} ToTheEnd(seen: Requests, t: nat, taken: nat, out: seq<Event>)
    requires 0 < t && Printed(seen, t, taken, out)
    ensures Printed(seen, |seen|, taken, out)
    decreases |seen| - t
  {
    if t < |seen| {
      OneMore(seen, t, taken, out);
      ToTheEnd(seen, t + 1, taken, out);
    }
  }

  /** A further stretch follows without a gap. */
  lemma OutputExtends(seen: Requests, start: nat, t: nat, from: nat, taken: nat, out: seq<Event>, more: seq<Event>)
    requires start <= t <= |seen| && Printed(seen, start, from, out)
    requires Stretch(seen, start, t, from, taken, more)
    ensures Printed(seen, t, taken, out + more)
  {
    if t > start {
      var log := seen[t - 1].log;
      if start > 0 {
        assert Grows(seen[start - 1], seen[t - 1]);
      }
      assert out == log[..from];
      assert log[..from] + log[from..taken] == log[..taken];
    } else {
      assert out + more == out;
    }
  }

  /** What is printed strictly increases in sequence, so nothing is repeated, and all of it lies behind the cursor. */
  lemma PrintedIncreasing(requests: Requests, base: int, taken: nat, out: seq<Event>)
    requires Printed(AllBehind(requests, base), |requests|, taken, out)
    ensures forall i, j :: 0 <= i < j < |out| ==> out[i].sequence < out[j].sequence
    ensures forall i :: 0 <= i < |out| ==> out[i].sequence > base
  {
    if |requests| > 0 {
      var log := requests[|requests| - 1].log;
      TimelineBehind(requests, base);
      assert WellFormed(AllBehind(requests, base)[|requests| - 1].log);
      forall i | 0 <= i < |out| ensures out[i].sequence > base {
        AllAbove(log, base, i);
      }
    }
  }
}
