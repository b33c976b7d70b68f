/**
 Model messages and their stored form. A completion is formatted into the stored conversation and read
 back on reload; the request window is extended in place after a tool turn instead of being reloaded.
 `normal` is parsing a JSON text and writing it again, undefined on what is not JSON; `size` is the
 length of a stored document; the wording around attached files is a parameter.
 */
module ModelValues {
  import opened Common

  const MAX_FILES := 32
  const MAX_STORED := 8 * 1024 * 1024
  const NO_ITEMS := "[]"
  const NO_USAGE := "null"

  datatype Role = System | Developer | User | Assistant | Tool

  datatype ToolCall = ToolCall(id: string, name: string, arguments: string)

  datatype Message = Message(role: Role, content: string, calls: seq<ToolCall>, toolCallId: string, refusal: string,
                             items: string)

  datatype Completion = Completion(content: string, refusal: string, usage: string, calls: seq<ToolCall>, items: string)

  datatype File = File(path: string, content: string)

  /** The members of a stored message; a member that was not written is None. */
  datatype Stored = Stored(content: Option<string>, model: Option<string>, elapsed: Option<int>, usage: Option<string>,
                           firstToken: Option<int>,
                           refusal: Option<string>, items: Option<string>, calls: Option<seq<ToolCall>>,
                           context: Option<string>,
                           files: Option<seq<File>>, toolCallId: Option<string>)

  datatype Failure = Malformed | TooLong

  // ------------------------------------------------------------------------- formatting

  /** A JSON text stored as a value: parsed when written, serialized again when read. */
  function Embedded(text: string, absent: string, normal: string -> Option<string>): Result<Option<string>, Failure> {
    if text == absent then Ok(None)
    else if normal(text).Some? then Ok(normal(text))
    else Err(Malformed)
  }

  predicate Timed(elapsed: int, first: Option<int>) {
    elapsed >= 0 && (first.Some? ==> 0 <= first.value <= elapsed)
  }

  function Format(r: Completion, model: string, elapsed: int, first: Option<int>, context: string,
                  normal: string -> Option<string>, size: Stored -> nat): Result<Stored, Failure> {
    if !Timed(elapsed, first) then Err(Malformed)
    else
      var usage, items, extra := Embedded(r.usage, NO_USAGE, normal), Embedded(r.items, NO_ITEMS, normal),
        Embedded(context, "", normal);
      if usage.Err? || items.Err? || extra.Err? then Err(Malformed)
      else
        var s := Stored(Some(r.content), Some(model), Some(elapsed), usage.value, first,
                        if r.refusal == "" then None else Some(r.refusal),
                        items.value, if r.calls == [] then None else Some(r.calls), extra.value, None, None);
        if size(s) > MAX_STORED then Err(TooLong) else Ok(s)
  }

  /** Nothing, or a JSON text. */
  predicate Embeds(text: string, absent: string, normal: string -> Option<string>) {
    text == absent || normal(text).Some?
  }

  /** When a completion is refused and as what, and that what is stored tells all of it. */
  lemma FormatMeans(r: Completion, model: string, elapsed: int, first: Option<int>, context: string,
                    normal: string -> Option<string>, size: Stored -> nat)
    ensures var s := Format(r, model, elapsed, first, context, normal, size);
            && (s == Err(Malformed) <==>
                  || elapsed < 0 || (first.Some? && !(0 <= first.value <= elapsed))
                  || !Embeds(r.usage, NO_USAGE, normal) || !Embeds(r.items, NO_ITEMS, normal)
                  || !Embeds(context, "", normal))
            && (s.Ok? ==>
                  && size(s.value) <= MAX_STORED
                  && s.value.content == Some(r.content) && s.value.model == Some(model)
                  && s.value.elapsed == Some(elapsed) && s.value.firstToken == first
                  && s.value.files == None && s.value.toolCallId == None
                  && s.value.usage == (if r.usage == NO_USAGE then None else normal(r.usage))
                  && s.value.context == if context == "" then None else normal(context))
  {
  }

  // ---------------------------------------------------------------------------- reading

  /** The wording put around an attached file: before its path, before its content, behind it. */
  datatype Marks = Marks(header: string, begin: string, end: string)

  /** One attachment behind the text so far; the closing mark stands on a line of its own. */
  function Attach(content: string, f: File, marks: Marks): string {
    var open := content + marks.header + f.path + marks.begin + f.content;
    (if open != "" && open[|open| - 1] == '\n' then open else open + "\n") + marks.end
  }

  function AttachAll(content: string, files: seq<File>, marks: Marks): string {
    if files == [] then content else Attach(AttachAll(content, files[..|files| - 1], marks), files[|files| - 1], marks)
  }

  method AttachFiles(content: string, files: seq<File>, marks: Marks) returns (r: string)
    ensures r == AttachAll(content, files, marks)
    ensures content <= r
  {
    r := content;
    for i := 0 to |files|
      invariant r == AttachAll(content, files[..i], marks) && content <= r
    {
      assert files[..i + 1][..i] == files[..i];
      r := Attach(r, files[i], marks);
    }
    assert files[..|files|] == files;
  }

  function FromHistory(role: Role, s: Stored, marks: Marks): Result<Message, Failure> {
    if s.content.None? || (s.files.Some? && |s.files.value| > MAX_FILES) then Err(Malformed)
    else
      Ok(Message(role, if s.files.Some? then AttachAll(s.content.value, s.files.value, marks) else s.content.value,
                 if s.calls.Some? then s.calls.value else [], if s.toolCallId.Some? then s.toolCallId.value else "",
                 if s.refusal.Some? then s.refusal.value else "", if s.items.Some? then s.items.value else NO_ITEMS))
  }

  /** The message the loop appends to its window for a completion. */
  function Live(r: Completion): Message {
    Message(Assistant, r.content, r.calls, "", r.refusal, r.items)
  }

  /** Formatting a completion and reading it back gives the live message exactly when its items are in normal form. */
  lemma FormattedReadsBack(r: Completion, model: string, elapsed: int, first: Option<int>, context: string,
                           normal: string -> Option<string>, size: Stored -> nat, marks: Marks)
    ensures var s := Format(r, model, elapsed, first, context, normal, size);
            s.Ok? ==> (FromHistory(Assistant, s.value, marks) == Ok(Live(r)) <==>
              r.items == NO_ITEMS || normal(r.items) == Some(r.items))
  {
  }

  // ----------------------------------------------------------------------------- windows

  datatype Entry = Entry(role: Role, stored: Stored)

  /** One result per call, in call order. */
  function ResultEntry(call: ToolCall, content: string): Entry {
    Entry(Tool, Stored(Some(content), None, None, None, None, None, None, None, None, None, Some(call.id)))
  }

  function ResultMessage(call: ToolCall, content: string): Message {
    Message(Tool, content, [], call.id, "", NO_ITEMS)
  }

  function ResultEntries(calls: seq<ToolCall>, results: seq<string>): (r: seq<Entry>)
    requires |calls| == |results|
    ensures |r| == |calls| && forall i :: 0 <= i < |calls| ==> r[i] == ResultEntry(calls[i], results[i])
  {
    seq(|calls|, i requires 0 <= i < |calls| => ResultEntry(calls[i], results[i]))
  }

  function ResultMessages(calls: seq<ToolCall>, results: seq<string>): (r: seq<Message>)
    requires |calls| == |results|
    ensures |r| == |calls| && forall i :: 0 <= i < |calls| ==> r[i] == ResultMessage(calls[i], results[i])
  {
    seq(|calls|, i requires 0 <= i < |calls| => ResultMessage(calls[i], results[i]))
  }

  /** The window rebuilt from history, if every entry can be read. */
  function Replay(history: seq<Entry>, marks: Marks): Option<seq<Message>> {
    if history == [] then Some([])
    else
      var front, last := Replay(history[..|history| - 1], marks),
        FromHistory(history[|history| - 1].role, history[|history| - 1].stored, marks);
      if front.Some? && last.Ok? then Some(front.value + [last.value]) else None
  }

  lemma ReplayGrows(history: seq<Entry>, e: Entry, marks: Marks)
    requires Replay(history, marks).Some? && FromHistory(e.role, e.stored, marks).Ok?
    ensures Replay(history + [e], marks) ==
            Some(Replay(history, marks).value + [FromHistory(e.role, e.stored, marks).value])
  {
    assert (history + [e])[..|history|] == history;
  }

  lemma ResultReadsBack(call: ToolCall, content: string, marks: Marks)
    ensures FromHistory(Tool, ResultEntry(call, content).stored, marks) == Ok(ResultMessage(call, content))
  {
  }

  datatype Turn = Turn(reply: Completion, model: string, elapsed: int, first: Option<int>, context: string,
                       results: seq<string>)

  /** The stored assistant message of a turn that can be formatted. */
  function TurnEntry(t: Turn, normal: string -> Option<string>, size: Stored -> nat): Entry
    requires Format(t.reply, t.model, t.elapsed, t.first, t.context, normal, size).Ok?
  {
    Entry(Assistant, Format(t.reply, t.model, t.elapsed, t.first, t.context, normal, size).value)
  }

  ghost predicate InNormalForm(r: Completion, normal: string -> Option<string>) {
    r.items == NO_ITEMS || normal(r.items) == Some(r.items)
  }

  /**
   A run without context manager, budgeted provider identity, worker workspace or joined-process
   notes: the stored conversation and the request window built from it.
   */
  class Window {
    const instructions: seq<Message>
    const marks: Marks
    var messages: seq<Message>
    var history: seq<Entry>

    ghost predicate InStep()
      reads this
    {
      Replay(history, marks).Some? && messages == instructions + Replay(history, marks).value
    }

    constructor (instructions: seq<Message>, history: seq<Entry>, marks: Marks)
      ensures this.instructions == instructions && this.history == history && this.marks == marks
      ensures messages == instructions && (history == [] ==> InStep())
    {
      this.instructions, this.history, this.marks := instructions, history, marks;
      this.messages := instructions;
    }

    /** Rebuilds the window by reading every stored message. */
    method Reload() returns (ok: bool)
      modifies this`messages
      ensures ok <==> Replay(history, marks).Some?
      ensures ok ==> InStep()
    {
      messages := instructions;
      for i := 0 to |history|
        invariant Replay(history[..i], marks).Some? && messages == instructions + Replay(history[..i], marks).value
      {
        assert history[..i + 1][..i] == history[..i];
        var m := FromHistory(history[i].role, history[i].stored, marks);
        if m.Err? {
          Unreadable(history, i, marks);
          return false;
        }
        messages := messages + [m.value];
      }
      assert history[..|history|] == history;
      ok := true;
    }

    /**
     A committed tool turn: the assistant message and its results go to the store together and to the
     window in memory, which stays what a reload would build exactly when the reply is in normal form.
     */
    method CommitTurn(t: Turn, normal: string -> Option<string>, size: Stored -> nat) returns (ok: bool)
      requires InStep() && |t.results| == |t.reply.calls|
      modifies this`messages, this`history
      ensures InStep() <==> !ok || InNormalForm(t.reply, normal)
      ensures ok == Format(t.reply, t.model, t.elapsed, t.first, t.context, normal, size).Ok?
      ensures !ok ==> messages == old(messages) && history == old(history)
      ensures ok ==> messages == old(messages) + [Live(t.reply)] + ResultMessages(t.reply.calls, t.results)
      ensures ok ==> history == old(history) + [TurnEntry(t, normal, size)] + ResultEntries(t.reply.calls, t.results)
    {
      var reply := Format(t.reply, t.model, t.elapsed, t.first, t.context, normal, size);
      if reply.Err? { return false; }
      var stored, continuation := AnswerCalls(t.reply.calls, t.results);
      StepAgrees(instructions, history, messages, t, normal, size, marks);
      history := history + [Entry(Assistant, reply.value)] + stored;
      messages := messages + [Live(t.reply)] + continuation;
      ok := true;
    }
  }

  /** The loop over the calls: one stored result and one message for each. */
  method AnswerCalls(calls: seq<ToolCall>, results: seq<string>)
    returns (stored: seq<Entry>, continuation: seq<Message>)
    requires |calls| == |results|
    ensures stored == ResultEntries(calls, results) && continuation == ResultMessages(calls, results)
  {
    stored, continuation := [], [];
    for i := 0 to |calls|
      invariant stored == ResultEntries(calls, results)[..i] && continuation == ResultMessages(calls, results)[..i]
    {
      stored := stored + [ResultEntry(calls[i], results[i])];
      continuation := continuation + [ResultMessage(calls[i], results[i])];
    }
  }

  lemma TakeNext<T>(front: seq<T>, s: seq<T>, n: nat)
    requires 0 < n <= |s|
    ensures front + s[..n - 1] + [s[n - 1]] == front + s[..n]
  {
  }

  lemma {:induction false} ResultsReplay(history: seq<Entry>, calls: seq<ToolCall>, results: seq<string>, n: nat,
                                         marks: Marks)
    requires |calls| == |results| && n <= |calls| && Replay(history, marks).Some?
    ensures Replay(history + ResultEntries(calls, results)[..n], marks) ==
            Some(Replay(history, marks).value + ResultMessages(calls, results)[..n])
    decreases n
  {
    var entries, answers, window := ResultEntries(calls, results), ResultMessages(calls, results),
      Replay(history, marks).value;
    if n == 0 {
      assert history + entries[..0] == history;
      assert window + answers[..0] == window;
    } else {
      ResultsReplay(history, calls, results, n - 1, marks);
      ResultReadsBack(calls[n - 1], results[n - 1], marks);
      ReplayGrows(history + entries[..n - 1], entries[n - 1], marks);
      TakeNext(history, entries, n);
      TakeNext(window, answers, n);
    }
  }

  /** Reading a committed turn back extends the window by the live messages. */
  lemma TurnReplays(history: seq<Entry>, e: Entry, m: Message, calls: seq<ToolCall>, results: seq<string>, marks: Marks)
    requires Replay(history, marks).Some? && FromHistory(e.role, e.stored, marks) == Ok(m) && |results| == |calls|
    ensures Replay(history + [e] + ResultEntries(calls, results), marks)
         == Some(Replay(history, marks).value + [m] + ResultMessages(calls, results))
  {
    ReplayGrows(history, e, marks);
    var entries, answers := ResultEntries(calls, results), ResultMessages(calls, results);
    ResultsReplay(history + [e], calls, results, |results|, marks);
    assert entries[..|results|] == entries && answers[..|results|] == answers;
  }

  lemma SameInside(a: seq<Message>, x: Message, y: Message, b: seq<Message>)
    ensures a + [x] + b == a + [y] + b <==> x == y
  {
    assert (a + [x] + b)[|a|] == x && (a + [y] + b)[|a|] == y;
  }

  /** The window extended in memory against the one read back, after one turn. */
  lemma StepAgrees(instructions: seq<Message>, history: seq<Entry>, messages: seq<Message>, t: Turn,
                   normal: string -> Option<string>, size: Stored -> nat, marks: Marks)
    requires Replay(history, marks).Some? && messages == instructions + Replay(history, marks).value
    requires |t.results| == |t.reply.calls|
    requires Format(t.reply, t.model, t.elapsed, t.first, t.context, normal, size).Ok?
    ensures var read := Replay(history + [TurnEntry(t, normal, size)] + ResultEntries(t.reply.calls, t.results), marks);
            && read.Some?
            && (messages + [Live(t.reply)] + ResultMessages(t.reply.calls, t.results) == instructions + read.value <==>
                  InNormalForm(t.reply, normal))
  {
    FormattedReadsBack(t.reply, t.model, t.elapsed, t.first, t.context, normal, size, marks);
    var e := TurnEntry(t, normal, size);
    var m := FromHistory(Assistant, e.stored, marks).value;
    TurnReplays(history, e, m, t.reply.calls, t.results, marks);
    Behind(instructions, Replay(history, marks).value, m, Live(t.reply), ResultMessages(t.reply.calls, t.results));
  }

  lemma Behind(front: seq<Message>, a: seq<Message>, x: Message, y: Message, b: seq<Message>)
    ensures front + a + [y] + b == front + (a + [x] + b) <==> x == y
  {
    assert front + (a + [x] + b) == front + a + [x] + b;
    SameInside(front + a, x, y, b);
  }

  // ------------------------------------------------------------------------ whole runs

  ghost predicate Formats(turns: seq<Turn>, normal: string -> Option<string>, size: Stored -> nat) {
    forall i :: 0 <= i < |turns| ==>
      && |turns[i].results| == |turns[i].reply.calls|
      && Format(turns[i].reply, turns[i].model, turns[i].elapsed, turns[i].first, turns[i].context, normal, size).Ok?
  }

  /** The history after some tool turns, and the window extended in memory by the same turns. */
  ghost function Stretch(turns: seq<Turn>, normal: string -> Option<string>, size: Stored -> nat): seq<Entry>
    requires Formats(turns, normal, size)
  {
    if turns == [] then []
    else
      var t := turns[|turns| - 1];
      Stretch(turns[..|turns| - 1], normal, size) + [TurnEntry(t, normal, size)] +
        ResultEntries(t.reply.calls, t.results)
  }

  ghost function Extension(turns: seq<Turn>): seq<Message>
    requires forall i :: 0 <= i < |turns| ==> |turns[i].results| == |turns[i].reply.calls|
  {
    if turns == [] then []
    else
      var t := turns[|turns| - 1];
      Extension(turns[..|turns| - 1]) + [Live(t.reply)] + ResultMessages(t.reply.calls, t.results)
  }

  lemma SameParts(a: seq<Message>, x: Message, b: seq<Message>, y: Message, c: seq<Message>)
    requires |a| == |b|
    ensures a + [x] + c == b + [y] + c <==> a == b && x == y
  {
    var p, q := a + [x] + c, b + [y] + c;
    assert p[..|a|] == a && q[..|b|] == b && p[|a|] == x && q[|b|] == y;
  }

  /** Over any number of turns, the window in memory is the reloaded one exactly when every reply is in normal form. */
  lemma {:induction false} WindowsAgree(turns: seq<Turn>, normal: string -> Option<string>, size: Stored -> nat,
                                        marks: Marks)
    requires Formats(turns, normal, size)
    ensures var read := Replay(Stretch(turns, normal, size), marks);
            && read.Some? && |read.value| == |Extension(turns)|
            && (read.value == Extension(turns) <==>
              forall i :: 0 <= i < |turns| ==> InNormalForm(turns[i].reply, normal))
    decreases |turns|
  {
    if turns != [] {
      var front, t := turns[..|turns| - 1], turns[|turns| - 1];
      assert turns == front + [t];
      WindowsAgree(front, normal, size, marks);
      FormattedReadsBack(t.reply, t.model, t.elapsed, t.first, t.context, normal, size, marks);
      var e := TurnEntry(t, normal, size);
      var m := FromHistory(Assistant, e.stored, marks).value;
      TurnReplays(Stretch(front, normal, size), e, m, t.reply.calls, t.results, marks);
      SameParts(Replay(Stretch(front, normal, size), marks).value, m, Extension(front), Live(t.reply),
                ResultMessages(t.reply.calls, t.results));
    }
  }

  lemma {:induction false} Unreadable(history: seq<Entry>, i: nat, marks: Marks)
    requires i < |history| && FromHistory(history[i].role, history[i].stored, marks).Err?
    ensures Replay(history, marks).None?
    decreases |history|
  {
    if i < |history| - 1 {
      Unreadable(history[..|history| - 1], i, marks);
    }
  }
}
