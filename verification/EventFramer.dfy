/**
 The incremental event-stream framer of the A2A client: bytes become lines, lines become
 fields, and a blank line delivers the frame collected so far.
 */
module EventFramer {
  import opened Common

  const COLON: Byte := 58
  const SPACE: Byte := 32
  const DATA: Bytes := [100, 97, 116, 97]
  const ID: Bytes := [105, 100]
  const MAX_LINE := 1024 * 1024
  const MAX_DATA := 1024 * 1024
  const MAX_ID := 1024
  const MAX_EVENTS := 8192

  datatype Error = LineTooLong | DataTooLong | InvalidId | TooManyEvents | InvalidEnvelope | Truncated | EmptyStream

  datatype Frame = Frame(id: Bytes, data: Bytes)

  /** The framer's variables. The event counter of the source is the number of delivered frames. */
  datatype State = State(line: Bytes, data: Bytes, id: Bytes, hasData: bool, frames: seq<Frame>)

  const INITIAL := State([], [], [], false, [])

  /** A run still reading, or stopped by an error after delivering some frames. */
  datatype Run = Going(state: State) | Failed(frames: seq<Frame>, error: Error)

  // ---------------------------------------------------------------------- fields

  datatype Field = Ignored | DataField(value: Bytes) | IdField(value: Bytes) | BadId

  function FindColon(line: Bytes, from: nat): (k: nat)
    requires from <= |line|
    ensures from <= k <= |line|
    ensures (forall i :: from <= i < k ==> line[i] != COLON) && (k < |line| ==> line[k] == COLON)
    decreases |line| - from
  {
    if from == |line| || line[from] == COLON then from else FindColon(line, from + 1)
  }

  function StripSpace(value: Bytes): Bytes {
    if value != [] && value[0] == SPACE then value[1..] else value
  }

  predicate ControlFree(value: Bytes) {
    forall i :: 0 <= i < |value| ==> value[i] >= 32 && value[i] != 127
  }

  /** What a non-blank line contributes. */
  function FieldOf(line: Bytes): (f: Field)
    requires line != []
    ensures f.DataField? ==> |f.value| <= |line|
  {
    if line[0] == COLON then Ignored
    else
      var colon := FindColon(line, 0);
      var name := line[..colon];
      if name != DATA && name != ID then Ignored
      else
        var value := if colon == |line| then [] else StripSpace(line[colon + 1..]);
        if name == DATA then DataField(value)
        else if 0 in value then Ignored
        else if |value| > MAX_ID || !ControlFree(value) then BadId
        else IdField(value)
  }

  // ------------------------------------------------------------- what lines mean

  /** A line with a colon: its name is what stands before the first one. */
  lemma Named(name: Bytes, rest: Bytes)
    requires COLON !in name
    ensures var line := name + [COLON] + rest;
            FindColon(line, 0) == |name| && line[..|name|] == name && line[|name| + 1..] == rest
  {
    var line := name + [COLON] + rest;
    assert line[|name|] == COLON;
    forall i | 0 <= i < |name| ensures line[i] != COLON {
      assert line[i] == name[i] && name[i] in name;
    }
  }

  lemma Unnamed(line: Bytes)
    requires COLON !in line
    ensures FindColon(line, 0) == |line| && line[..|line|] == line
  {
    forall i | 0 <= i < |line| ensures line[i] != COLON {
      assert line[i] in line;
    }
  }

  /** A value may have one space in front, which is not part of it. */
  ghost predicate Carries(rest: Bytes, value: Bytes) {
    if rest != [] && rest[0] == SPACE then rest == [SPACE] + value else rest == value
  }

  /** A data line contributes its value. */
  lemma DataLineMeans(rest: Bytes, value: Bytes)
    requires Carries(rest, value)
    ensures FieldOf(DATA + [COLON] + rest) == DataField(value)
  {
    Named(DATA, rest);
    if rest != [] && rest[0] == SPACE {
      assert ([SPACE] + value)[1..] == value;
    }
  }

  /** An identifier line contributes its value, unless that holds a zero octet or is no legal identifier. */
  lemma IdLineMeans(rest: Bytes, value: Bytes)
    requires Carries(rest, value)
    ensures FieldOf(ID + [COLON] + rest) ==
            if 0 in value then Ignored
            else if |value| > MAX_ID || exists b :: b in value && (b < 32 || b == 127) then BadId
            else IdField(value)
  {
    Named(ID, rest);
    if rest != [] && rest[0] == SPACE {
      assert ([SPACE] + value)[1..] == value;
    }
    assert DATA[0] != ID[0];
    ControlMeans(value);
  }

  lemma ControlMeans(value: Bytes)
    ensures ControlFree(value) <==> !exists b :: b in value && (b < 32 || b == 127)
  {
    assert forall i :: 0 <= i < |value| ==> value[i] in value;
  }

  /** A line that is only a name has the empty value. */
  lemma BareLineMeans()
    ensures FieldOf(DATA) == DataField([]) && FieldOf(ID) == IdField([])
  {
    Unnamed(DATA);
    Unnamed(ID);
    assert DATA[0] != ID[0];
  }

  /** A comment, and a line of any other name, contributes nothing. */
  lemma OtherLineMeans(name: Bytes, rest: Bytes)
    requires COLON !in name && name != DATA && name != ID
    ensures FieldOf(name + [COLON] + rest) == Ignored
    ensures name != [] ==> FieldOf(name) == Ignored
  {
    Named(name, rest);
    Unnamed(name);
    if name != [] {
      assert name[0] in name;
      assert (name + [COLON] + rest)[0] == name[0];
    }
  }

  /** Every line is of one of these forms. */
  lemma EveryLine(line: Bytes) returns (name: Bytes, rest: Bytes)
    requires line != []
    ensures COLON !in name && (line == name || line == name + [COLON] + rest)
  {
    var k := FindColon(line, 0);
    name, rest := line[..k], if k < |line| then line[k + 1..] else [];
    if k < |line| {
      assert line == line[..k] + [line[k]] + line[k + 1..];
    } else {
      assert line[..k] == line;
    }
  }

  // ----------------------------------------------------------------- the machine

  /** A blank line: deliver what has been collected. `accepts` stands for the JSON-RPC envelope check. */
  function Dispatch(s: State, accepts: Bytes -> bool): Run {
    if !s.hasData then Going(s)
    else if |s.frames| >= MAX_EVENTS then Failed(s.frames, TooManyEvents)
    else if !accepts(s.data) then Failed(s.frames, InvalidEnvelope)
    else Going(State(s.line, [], [], false, s.frames + [Frame(s.id, s.data)]))
  }

  function AppendData(s: State, value: Bytes): Run {
    var extra := |value| + (if s.hasData then 1 else 0);
    if extra > MAX_DATA || |s.data| > MAX_DATA - extra then Failed(s.frames, DataTooLong)
    else Going(s.(data := s.data + (if s.hasData then [LF] else []) + value, hasData := true))
  }

  /** `field` applied to a complete line. */
  function TakeLine(s: State, line: Bytes, accepts: Bytes -> bool): Run {
    if line == [] then Dispatch(s, accepts)
    else match FieldOf(line)
      case Ignored => Going(s)
      case BadId => Failed(s.frames, InvalidId)
      case IdField(v) => Going(s.(id := v))
      case DataField(v) => AppendData(s, v)
  }

  predicate LineEnd(b: Byte) {
    b == LF || b == CR
  }

  function TakeByte(s: State, b: Byte, accepts: Bytes -> bool): Run {
    if LineEnd(b) then TakeLine(s.(line := []), s.line, accepts)
    else if |s.line| >= MAX_LINE then Failed(s.frames, LineTooLong)
    else Going(s.(line := s.line + [b]))
  }

  function Feed(r: Run, bytes: Bytes, accepts: Bytes -> bool): Run
    decreases |bytes|
  {
    if bytes == [] || r.Failed? then r
    else Feed(TakeByte(r.state, bytes[0], accepts), bytes[1..], accepts)
  }

  /** The end of the stream takes what is left as a last line. */
  function LastLine(r: Run, accepts: Bytes -> bool): Run {
    if r.Failed? || r.state.line == [] then r else TakeLine(r.state.(line := []), r.state.line, accepts)
  }

  /** The frames delivered so far. */
  function RunFrames(r: Run): seq<Frame> {
    if r.Failed? then r.frames else r.state.frames
  }

  function Finish(r: Run, accepts: Bytes -> bool): Result<seq<Frame>, Error> {
    match LastLine(r, accepts)
    case Failed(_, e) => Err(e)
    case Going(t) =>
      if t.hasData then Err(Truncated) else if t.frames == [] then Err(EmptyStream) else Ok(t.frames)
  }

  /** The variables of `stream_call` with the callback that the transport feeds. */
  class Framer {
    const accepts: Bytes -> bool
    var line: Bytes
    var data: Bytes
    var id: Bytes
    var hasData: bool
    var frames: seq<Frame>
    var error: Option<Error>

    ghost predicate Valid()
      reads this
    {
      |line| <= MAX_LINE && |data| <= MAX_DATA && |frames| <= MAX_EVENTS
    }

    ghost function View(): Run
      reads this
    {
      if error.Some? then Failed(frames, error.value) else Going(State(line, data, id, hasData, frames))
    }

    constructor (accepts: Bytes -> bool)
      ensures Valid() && View() == Going(INITIAL) && this.accepts == accepts
    {
      this.accepts := accepts;
      line, data, id, hasData, frames, error := [], [], [], false, [], None;
    }

    /** `dispatch`. */
    method Deliver()
      requires Valid() && error.None?
      modifies this
      ensures Valid() && line == old(line) && View() == Dispatch(old(View().state), accepts)
    {
      if !hasData {
        return;
      }
      if |frames| >= MAX_EVENTS {
        error := Some(TooManyEvents);
        return;
      }
      if !accepts(data) {
        error := Some(InvalidEnvelope);
        return;
      }
      frames := frames + [Frame(id, data)];
      data, id, hasData := [], [], false;
    }

    /** A data field: the size test subtracts only what fits, so it never wraps. */
    method AddData(v: Bytes)
      requires Valid() && error.None?
      modifies this
      ensures Valid() && line == old(line) && View() == AppendData(old(View().state), v)
    {
      var extra := |v| + (if hasData then 1 else 0);
      if extra > MAX_DATA || |data| > MAX_DATA - extra {
        error := Some(DataTooLong);
        return;
      }
      data := data + (if hasData then [LF] else []) + v;
      hasData := true;
    }

    /** `field`. */
    method TakeField()
      requires Valid() && error.None?
      modifies this
      ensures Valid() && line == old(line) && View() == TakeLine(old(View().state), old(line), accepts)
    {
      if line == [] {
        Deliver();
        return;
      }
      match FieldOf(line)
      case Ignored =>
      case BadId => error := Some(InvalidId);
      case IdField(v) => id := v;
      case DataField(v) => AddData(v);
    }

    /** One transport callback: any chunk of the stream. */
    method Receive(chunk: Bytes)
      requires Valid()
      modifies this
      ensures Valid()
      ensures View() == Feed(old(View()), chunk, accepts)
    {
      var i := 0;
      assert chunk[0..] == chunk;
      while i < |chunk| && error.None?
        invariant i <= |chunk| && Valid()
        invariant Feed(old(View()), chunk, accepts) == Feed(View(), chunk[i..], accepts)
      {
        FeedOne(View(), chunk, i, accepts);
        ReceiveByte(chunk[i]);
        i := i + 1;
      }
    }

    method ReceiveByte(ch: Byte)
      requires Valid() && error.None?
      modifies this
      ensures Valid() && View() == TakeByte(old(View().state), ch, accepts)
    {
      if LineEnd(ch) {
        LineApart(View().state, accepts);
        TakeField();
        line := [];
      } else if |line| >= MAX_LINE {
        error := Some(LineTooLong);
      } else {
        line := line + [ch];
      }
    }
  }

  lemma FeedOne(r: Run, chunk: Bytes, i: nat, accepts: Bytes -> bool)
    requires r.Going? && i < |chunk|
    ensures Feed(r, chunk[i..], accepts) == Feed(TakeByte(r.state, chunk[i], accepts), chunk[i + 1..], accepts)
  {
    assert chunk[i..][0] == chunk[i] && chunk[i..][1..] == chunk[i + 1..];
  }

  /** Taking a line neither reads nor changes the line under construction. */
  lemma LineApart(s: State, accepts: Bytes -> bool)
    ensures match TakeLine(s, s.line, accepts)
            case Failed(fs, e) => TakeLine(s.(line := []), s.line, accepts) == Failed(fs, e)
            case Going(t) => TakeLine(s.(line := []), s.line, accepts) == Going(t.(line := []))
  {
  }

  /** The whole of `stream_call` after the request: every chunk, then the end of the stream. */
  method ReadStream(chunks: seq<Bytes>, accepts: Bytes -> bool)
    returns (r: Result<seq<Frame>, Error>, delivered: seq<Frame>)
    ensures var run := Feed(Going(INITIAL), Concat(chunks), accepts);
            r == Finish(run, accepts) && delivered == RunFrames(LastLine(run, accepts))
  {
    var framer := new Framer(accepts);
    var i := 0;
    assert chunks[0..] == chunks;
    while i < |chunks|
      invariant i <= |chunks| && framer.Valid() && framer.accepts == accepts
      invariant FeedChunks(Going(INITIAL), chunks, accepts) == FeedChunks(framer.View(), chunks[i..], accepts)
    {
      assert chunks[i..][0] == chunks[i] && chunks[i..][1..] == chunks[i + 1..];
      framer.Receive(chunks[i]);
      i := i + 1;
    }
    ChunkingIrrelevant(Going(INITIAL), chunks, accepts);
    if framer.error.Some? {
      return Err(framer.error.value), framer.frames;
    }
    if framer.line != [] {
      framer.TakeField();
      if framer.error.Some? {
        return Err(framer.error.value), framer.frames;
      }
    }
    delivered := framer.frames;
    if framer.hasData {
      return Err(Truncated), delivered;
    }
    if delivered == [] {
      return Err(EmptyStream), delivered;
    }
    r := Ok(delivered);
  }

  // -------------------------------------------------------------------- chunking

  lemma {:induction false} FeedConcat(r: Run, a: Bytes, b: Bytes, accepts: Bytes -> bool)
    ensures Feed(r, a + b, accepts) == Feed(Feed(r, a, accepts), b, accepts)
    decreases |a|
  {
    if a == [] {
      assert a + b == b;
    } else if r.Going? {
      ConsParts(a[0], a[1..] + b);
      assert a + b == [a[0]] + (a[1..] + b);
      FeedConcat(TakeByte(r.state, a[0], accepts), a[1..], b, accepts);
    }
  }

  function Concat(chunks: seq<Bytes>): Bytes {
    if chunks == [] then [] else chunks[0] + Concat(chunks[1..])
  }

  function FeedChunks(r: Run, chunks: seq<Bytes>, accepts: Bytes -> bool): Run
    decreases |chunks|
  {
    if chunks == [] then r else FeedChunks(Feed(r, chunks[0], accepts), chunks[1..], accepts)
  }

  /** How the stream is cut into chunks does not matter. */
  lemma {:induction false} ChunkingIrrelevant(r: Run, chunks: seq<Bytes>, accepts: Bytes -> bool)
    ensures FeedChunks(r, chunks, accepts) == Feed(r, Concat(chunks), accepts)
    decreases |chunks|
  {
    if chunks != [] {
      ChunkingIrrelevant(Feed(r, chunks[0], accepts), chunks[1..], accepts);
      FeedConcat(r, chunks[0], Concat(chunks[1..]), accepts);
    }
  }

  // -------------------------------------------------------- from bytes to lines

  /** The complete lines of a stream and the unfinished rest, every CR and every LF ending a line. */
  datatype Cut = Cut(lines: seq<Bytes>, rest: Bytes)

  function CutLines(stream: Bytes, pending: Bytes): Cut
    decreases |stream|
  {
    if stream == [] then Cut([], pending)
    else if LineEnd(stream[0]) then
      var c := CutLines(stream[1..], []);
      Cut([pending] + c.lines, c.rest)
    else CutLines(stream[1..], pending + [stream[0]])
  }

  function TakeLines(r: Run, lines: seq<Bytes>, accepts: Bytes -> bool): Run
    decreases |lines|
  {
    if lines == [] || r.Failed? then r
    else if |lines[0]| > MAX_LINE then Failed(r.state.frames, LineTooLong)
    else TakeLines(TakeLine(r.state, lines[0], accepts), lines[1..], accepts)
  }

  function Pend(r: Run, rest: Bytes): Run {
    if r.Failed? then r
    else if |rest| > MAX_LINE then Failed(r.state.frames, LineTooLong)
    else Going(r.state.(line := rest))
  }

  /** A pending line that is already too long stays so. */
  lemma {:induction false} CutTooLong(stream: Bytes, pending: Bytes, s: State, accepts: Bytes -> bool)
    requires |pending| > MAX_LINE
    ensures var c := CutLines(stream, pending);
            Pend(TakeLines(Going(s), c.lines, accepts), c.rest) == Failed(s.frames, LineTooLong)
    decreases |stream|
  {
    if stream != [] && !LineEnd(stream[0]) {
      CutTooLong(stream[1..], pending + [stream[0]], s, accepts);
    }
  }

  lemma TakeLineKeepsLine(s: State, line: Bytes, accepts: Bytes -> bool)
    requires s.line == []
    ensures var r := TakeLine(s, line, accepts); r.Going? ==> r.state.line == []
  {
  }

  lemma TakeLinesCons(r: Run, line: Bytes, lines: seq<Bytes>, accepts: Bytes -> bool)
    requires r.Going?
    ensures TakeLines(r, [line] + lines, accepts) ==
            if |line| > MAX_LINE then Failed(r.state.frames, LineTooLong)
            else TakeLines(TakeLine(r.state, line, accepts), lines, accepts)
  {
    ConsParts(line, lines);
  }

  /** Byte by byte or line by line: the same run, with the same errors. */
  lemma {:induction false} BytesAreLines(stream: Bytes, s: State, accepts: Bytes -> bool)
    requires |s.line| <= MAX_LINE
    ensures var c := CutLines(stream, s.line);
            Feed(Going(s), stream, accepts) == Pend(TakeLines(Going(s.(line := [])), c.lines, accepts), c.rest)
    decreases |stream|
  {
    if stream != [] {
      var b, rest := stream[0], stream[1..];
      if LineEnd(b) {
        var r := TakeLine(s.(line := []), s.line, accepts);
        var c := CutLines(rest, []);
        TakeLineKeepsLine(s.(line := []), s.line, accepts);
        TakeLinesCons(Going(s.(line := [])), s.line, c.lines, accepts);
        if r.Going? {
          BytesAreLines(rest, r.state, accepts);
          assert r.state.(line := []) == r.state;
        }
      } else if |s.line| >= MAX_LINE {
        CutTooLong(rest, s.line + [b], s.(line := []), accepts);
      } else {
        BytesAreLines(rest, s.(line := s.line + [b]), accepts);
        assert s.(line := s.line + [b]).(line := []) == s.(line := []);
      }
    }
  }

  // ------------------------------------------------------- from lines to blocks

  function FirstBlank(lines: seq<Bytes>): (k: nat)
    ensures k <= |lines|
    ensures forall i :: 0 <= i < k ==> lines[i] != []
    ensures k < |lines| ==> lines[k] == []
  {
    if lines == [] || lines[0] == [] then 0 else 1 + FirstBlank(lines[1..])
  }

  predicate NonBlank(block: seq<Bytes>) {
    forall i :: 0 <= i < |block| ==> block[i] != []
  }

  /** The values of the data fields of a block, in order. */
  function BlockData(block: seq<Bytes>): seq<Bytes>
    requires NonBlank(block)
  {
    if block == [] then []
    else (match FieldOf(block[0]) case DataField(v) => [v] case _ => []) + BlockData(block[1..])
  }

  /** The last identifier of a block, or the one carried into it. */
  function BlockId(block: seq<Bytes>, carry: Bytes): Bytes
    requires NonBlank(block)
  {
    if block == [] then carry
    else BlockId(block[1..], match FieldOf(block[0]) case IdField(v) => v case _ => carry)
  }

  /** Values joined by line feeds. */
  function Join(values: seq<Bytes>): Bytes {
    if values == [] then [] else if |values| == 1 then values[0] else values[0] + [LF] + Join(values[1..])
  }

  /**
   The reference: cut the lines into blocks at blank lines; a block with data is one frame. An
   identifier in a block without data is carried to the next block.
   */
  function BlockFrames(lines: seq<Bytes>, carry: Bytes): seq<Frame>
    decreases |lines|
  {
    var k := FirstBlank(lines);
    if k == |lines| then []
    else
      var values, id := BlockData(lines[..k]), BlockId(lines[..k], carry);
      if values == [] then BlockFrames(lines[k + 1..], id)
      else [Frame(id, Join(values))] + BlockFrames(lines[k + 1..], [])
  }

  /** The data that follows the last blank line. */
  function OpenData(lines: seq<Bytes>): seq<Bytes>
    decreases |lines|
  {
    var k := FirstBlank(lines);
    if k == |lines| then BlockData(lines) else OpenData(lines[k + 1..])
  }

  predicate BlockAdmitted(block: seq<Bytes>)
    requires NonBlank(block)
  {
    && LinesAdmitted(block)
    && |Join(BlockData(block))| <= MAX_DATA
  }

  /** The streams that meet every limit, after `count` frames. */
  predicate Admitted(lines: seq<Bytes>, count: nat, accepts: Bytes -> bool)
    decreases |lines|
  {
    var k := FirstBlank(lines);
    var block := lines[..k];
    && BlockAdmitted(block)
    && (k < |lines| ==>
          var values := BlockData(block);
          if values == [] then Admitted(lines[k + 1..], count, accepts)
          else count < MAX_EVENTS && accepts(Join(values)) && Admitted(lines[k + 1..], count + 1, accepts))
  }

  /** What the accumulator becomes when more values arrive. */
  function Onto(data: Bytes, hasData: bool, values: seq<Bytes>): Bytes {
    if values == [] then data else if hasData then data + [LF] + Join(values) else data + Join(values)
  }

  lemma OntoStep(data: Bytes, hasData: bool, v: Bytes, values: seq<Bytes>)
    ensures Onto(data, hasData, [v] + values) == Onto(data + (if hasData then [LF] else []) + v, true, values)
  {
    ConsParts(v, values);
    var d := data + (if hasData then [LF] else []);
    if values == [] {
      assert [v] + values == [v];
      assert Join([v]) == v;
    } else {
      assert Join([v] + values) == v + [LF] + Join(values);
      assert d + (v + [LF] + Join(values)) == d + v + [LF] + Join(values);
    }
    assert data + [] == data;
  }

  predicate LineAdmitted(line: Bytes)
    requires line != []
  {
    |line| <= MAX_LINE && !FieldOf(line).BadId?
  }

  predicate LinesAdmitted(block: seq<Bytes>)
    requires NonBlank(block)
  {
    forall i :: 0 <= i < |block| ==> LineAdmitted(block[i])
  }

  lemma LinesAdmittedCons(block: seq<Bytes>)
    requires block != [] && NonBlank(block)
    ensures LinesAdmitted(block) <==>
            LineAdmitted(block[0]) && LinesAdmitted(block[1..])
  {
    var rest := block[1..];
    assert forall i :: 0 <= i < |rest| ==> rest[i] == block[i + 1];
    assert forall i :: 1 <= i < |block| ==> block[i] == rest[i - 1];
  }

  /** What a run of non-blank lines must lead to. */
  ghost predicate Accumulated(r: Run, block: seq<Bytes>, s: State)
    requires NonBlank(block)
  {
    var all := Onto(s.data, s.hasData, BlockData(block));
    if LinesAdmitted(block) && |all| <= MAX_DATA
    then r == Going(State(s.line, all, BlockId(block, s.id), s.hasData || BlockData(block) != [], s.frames))
    else r.Failed? && r.frames == s.frames
  }

  lemma AccumulatedCons(r: Run, line: Bytes, rest: seq<Bytes>, s: State)
    requires line != [] && NonBlank([line] + rest) && NonBlank(rest) && LineAdmitted(line)
    requires match FieldOf(line)
             case Ignored => Accumulated(r, rest, s)
             case IdField(v) => Accumulated(r, rest, s.(id := v))
             case DataField(v) =>
               var d := s.data + (if s.hasData then [LF] else []) + v;
               if |d| <= MAX_DATA then Accumulated(r, rest, s.(data := d, hasData := true))
               else r.Failed? && r.frames == s.frames
             case BadId => true
    ensures Accumulated(r, [line] + rest, s)
  {
    var block := [line] + rest;
    ConsParts(line, rest);
    LinesAdmittedCons(block);
    assert [] + BlockData(rest) == BlockData(rest);
    if FieldOf(line).DataField? {
      var v := FieldOf(line).value;
      OntoStep(s.data, s.hasData, v, BlockData(rest));
      OntoGrows(s.data + (if s.hasData then [LF] else []) + v, BlockData(rest));
    }
  }

  /** A run of non-blank lines accumulates exactly their data and last identifier. */
  lemma {:induction false} BlockRun(block: seq<Bytes>, s: State, accepts: Bytes -> bool)
    requires NonBlank(block) && |s.data| <= MAX_DATA
    ensures Accumulated(TakeLines(Going(s), block, accepts), block, s)
    decreases |block|
  {
    if block != [] {
      var line, rest := block[0], block[1..];
      assert block == [line] + rest;
      TakeLinesCons(Going(s), line, rest, accepts);
      if !LineAdmitted(line) {
        LinesAdmittedCons(block);
      } else {
        match FieldOf(line) {
          case Ignored => BlockRun(rest, s, accepts);
          case IdField(v) => BlockRun(rest, s.(id := v), accepts);
          case DataField(v) =>
            var d := s.data + (if s.hasData then [LF] else []) + v;
            if |d| <= MAX_DATA {
              BlockRun(rest, s.(data := d, hasData := true), accepts);
            }
        }
        AccumulatedCons(TakeLines(Going(s), block, accepts), line, rest, s);
      }
    }
  }

  lemma OntoGrows(data: Bytes, values: seq<Bytes>)
    ensures |data| <= |Onto(data, true, values)|
  {
  }

  lemma {:induction false} TakeLinesConcat(r: Run, a: seq<Bytes>, b: seq<Bytes>, accepts: Bytes -> bool)
    ensures TakeLines(r, a + b, accepts) == TakeLines(TakeLines(r, a, accepts), b, accepts)
    decreases |a|
  {
    if a == [] {
      assert a + b == b;
    } else if r.Going? {
      assert a + b == [a[0]] + (a[1..] + b);
      TakeLinesCons(r, a[0], a[1..] + b, accepts);
      if |a[0]| <= MAX_LINE {
        TakeLinesConcat(TakeLine(r.state, a[0], accepts), a[1..], b, accepts);
      }
    }
  }

  lemma {:induction false} BlockKeepsFrames(block: seq<Bytes>, r: Run, accepts: Bytes -> bool)
    requires NonBlank(block)
    ensures RunFrames(TakeLines(r, block, accepts)) == RunFrames(r)
    decreases |block|
  {
    if block != [] && r.Going? && |block[0]| <= MAX_LINE {
      BlockKeepsFrames(block[1..], TakeLine(r.state, block[0], accepts), accepts);
    }
  }

  /** A block, the blank line that closes it, and what follows. */
  lemma BlockCloses(block: seq<Bytes>, rest: seq<Bytes>, s: State, accepts: Bytes -> bool)
    requires NonBlank(block) && s.data == [] && !s.hasData
    ensures var values, id := BlockData(block), BlockId(block, s.id);
            var r := TakeLines(Going(s), block + ([[]] + rest), accepts);
            if !BlockAdmitted(block) then r.Failed? && r.frames == s.frames
            else if values == [] then r == TakeLines(Going(s.(id := id)), rest, accepts)
            else if |s.frames| < MAX_EVENTS && accepts(Join(values)) then
              r == TakeLines(Going(State(s.line, [], [], false, s.frames + [Frame(id, Join(values))])), rest, accepts)
            else r.Failed? && r.frames == s.frames
  {
    var values := BlockData(block);
    BlockKeepsFrames(block, Going(s), accepts);
    BlockRun(block, s, accepts);
    assert [] + Join(values) == Join(values);
    assert Onto([], false, values) == Join(values);
    TakeLinesConcat(Going(s), block, [[]] + rest, accepts);
    var r := TakeLines(Going(s), block, accepts);
    if r.Going? {
      TakeLinesCons(r, [], rest, accepts);
    }
  }

  lemma AdmittedCloses(block: seq<Bytes>, rest: seq<Bytes>, count: nat, accepts: Bytes -> bool)
    requires NonBlank(block)
    ensures Admitted(block + ([[]] + rest), count, accepts) <==>
            && BlockAdmitted(block)
            && if BlockData(block) == [] then Admitted(rest, count, accepts)
               else count < MAX_EVENTS && accepts(Join(BlockData(block))) && Admitted(rest, count + 1, accepts)
  {
    var lines := block + ([[]] + rest);
    FirstBlankIs(lines, |block|);
    assert lines[..|block|] == block && lines[|block| + 1..] == rest;
  }

  lemma {:induction false} FirstBlankIs(lines: seq<Bytes>, k: nat)
    requires k < |lines| && lines[k] == []
    requires forall i :: 0 <= i < k ==> lines[i] != []
    ensures FirstBlank(lines) == k
  {
  }

  /** The state after a block with data was delivered. */
  function Delivered(block: seq<Bytes>, s: State): State
    requires NonBlank(block)
  {
    State(s.line, [], [], false, s.frames + [Frame(BlockId(block, s.id), Join(BlockData(block)))])
  }

  /** What the run says about the lines behind a block, in both states the block can leave. */
  ghost predicate GoesOnBehind(block: seq<Bytes>, rest: seq<Bytes>, s: State, accepts: Bytes -> bool)
    requires NonBlank(block)
  {
    && (TakeLines(Going(s.(id := BlockId(block, s.id))), rest, accepts).Going? <==> Admitted(rest, |s.frames|, accepts))
    && (TakeLines(Going(Delivered(block, s)), rest, accepts).Going? <==> Admitted(rest, |s.frames| + 1, accepts))
  }

  /** A block is passed exactly when it is admitted and what follows it is passed. */
  lemma BlockPassed(block: seq<Bytes>, rest: seq<Bytes>, s: State, accepts: Bytes -> bool)
    requires NonBlank(block) && s.data == [] && !s.hasData
    ensures TakeLines(Going(s), block + ([[]] + rest), accepts).Going? <==>
              && BlockAdmitted(block)
              && if BlockData(block) == [] then TakeLines(Going(s.(id := BlockId(block, s.id))), rest, accepts).Going?
                 else
                   && |s.frames| < MAX_EVENTS && accepts(Join(BlockData(block)))
                   && TakeLines(Going(Delivered(block, s)), rest, accepts).Going?
  {
    BlockCloses(block, rest, s, accepts);
  }

  lemma GoesOnStep(block: seq<Bytes>, rest: seq<Bytes>, s: State, accepts: Bytes -> bool)
    requires NonBlank(block) && s.data == [] && !s.hasData && GoesOnBehind(block, rest, s, accepts)
    ensures TakeLines(Going(s), block + ([[]] + rest), accepts).Going? <==>
              Admitted(block + ([[]] + rest), |s.frames|, accepts)
  {
    AdmittedCloses(block, rest, |s.frames|, accepts);
    BlockPassed(block, rest, s, accepts);
  }

  /** The lines before and behind the first blank one. */
  lemma CutAtBlank(lines: seq<Bytes>) returns (block: seq<Bytes>, rest: seq<Bytes>)
    requires FirstBlank(lines) < |lines|
    ensures NonBlank(block) && |rest| < |lines| && lines == block + ([[]] + rest)
  {
    var k := FirstBlank(lines);
    block, rest := lines[..k], lines[k + 1..];
  }

  /** A run goes on exactly while every limit is met. */
  lemma {:induction false} RunGoesOn(lines: seq<Bytes>, s: State, accepts: Bytes -> bool)
    requires s.data == [] && !s.hasData
    ensures TakeLines(Going(s), lines, accepts).Going? <==> Admitted(lines, |s.frames|, accepts)
    decreases |lines|
  {
    if FirstBlank(lines) == |lines| {
      OpenBlock(lines, s, accepts);
    } else {
      var block, rest := CutAtBlank(lines);
      RunGoesOn(rest, s.(id := BlockId(block, s.id)), accepts);
      RunGoesOn(rest, Delivered(block, s), accepts);
      assert GoesOnBehind(block, rest, s, accepts);
      GoesOnStep(block, rest, s, accepts);
    }
  }

  /** While it goes on it has delivered exactly the frames of the closed blocks. */
  lemma {:induction false} RunDelivers(lines: seq<Bytes>, s: State, accepts: Bytes -> bool)
    requires s.data == [] && !s.hasData
    ensures var r := TakeLines(Going(s), lines, accepts);
            r.Going? ==>
              && r.state.frames == s.frames + BlockFrames(lines, s.id)
              && (r.state.hasData <==> OpenData(lines) != [])
              && r.state.line == s.line
    decreases |lines|
  {
    var k := FirstBlank(lines);
    if k == |lines| {
      OpenBlock(lines, s, accepts);
    } else {
      var block, rest := lines[..k], lines[k + 1..];
      assert lines == block + ([[]] + rest);
      BlockCloses(block, rest, s, accepts);
      var values, id := BlockData(block), BlockId(block, s.id);
      if values == [] {
        RunDelivers(rest, s.(id := id), accepts);
      } else {
        var f := Frame(id, Join(values));
        var t := State(s.line, [], [], false, s.frames + [f]);
        RunDelivers(rest, t, accepts);
        assert t.frames + BlockFrames(rest, []) == s.frames + ([f] + BlockFrames(rest, []));
      }
    }
  }

  lemma OpenBlock(block: seq<Bytes>, s: State, accepts: Bytes -> bool)
    requires NonBlank(block) && s.data == [] && !s.hasData
    ensures var r := TakeLines(Going(s), block, accepts);
            && FirstBlank(block) == |block|
            && (r.Going? <==> Admitted(block, |s.frames|, accepts))
            && (r.Going? ==> r.state.frames == s.frames + BlockFrames(block, s.id))
            && (r.Going? ==> (r.state.hasData <==> OpenData(block) != []) && r.state.line == s.line)
  {
    var values := BlockData(block);
    BlockRun(block, s, accepts);
    assert [] + Join(values) == Join(values);
    assert block[..|block|] == block;
    assert s.frames + [] == s.frames;
  }

  /** The lines of a whole stream: an unfinished last line counts when it is not empty. */
  function StreamLines(stream: Bytes): seq<Bytes> {
    var c := CutLines(stream, []);
    if c.rest == [] then c.lines else c.lines + [c.rest]
  }

  /**
   The framer's promise for every stream and every chunking: it succeeds exactly when all limits
   are met, at least one block closes and no data is left open, and then it has delivered the
   frames of the blocks. A truncated last event is an error.
   */
  lemma FramerIsReference(stream: Bytes, accepts: Bytes -> bool)
    ensures var lines := StreamLines(stream);
            var r := Finish(Feed(Going(INITIAL), stream, accepts), accepts);
            && (r.Ok? <==> Admitted(lines, 0, accepts) && OpenData(lines) == [] && BlockFrames(lines, []) != [])
            && (r.Ok? ==> r.value == BlockFrames(lines, []))
            && (Admitted(lines, 0, accepts) && OpenData(lines) != [] ==> r == Err(Truncated))
  {
    var c := CutLines(stream, []);
    var lines := StreamLines(stream);
    BytesAreLines(stream, INITIAL, accepts);
    assert INITIAL.(line := []) == INITIAL;
    RunGoesOn(lines, INITIAL, accepts);
    RunDelivers(lines, INITIAL, accepts);
    assert [] + BlockFrames(lines, []) == BlockFrames(lines, []);
    var r := TakeLines(Going(INITIAL), c.lines, accepts);
    RunDelivers(c.lines, INITIAL, accepts);
    if c.rest != [] {
      TakeLinesConcat(Going(INITIAL), c.lines, [c.rest], accepts);
      if r.Going? {
        assert [c.rest] == [c.rest] + [];
        TakeLinesCons(r, c.rest, [], accepts);
        assert r.state.(line := c.rest).(line := []) == r.state;
      }
    } else if r.Going? {
      assert r.state.(line := []) == r.state;
    }
  }

  /** The reference frames of a closed block and of what follows it. */
  lemma FramesClose(block: seq<Bytes>, rest: seq<Bytes>, carry: Bytes)
    requires NonBlank(block)
    ensures var values, id := BlockData(block), BlockId(block, carry);
            BlockFrames(block + ([[]] + rest), carry) ==
            if values == [] then BlockFrames(rest, id) else [Frame(id, Join(values))] + BlockFrames(rest, [])
  {
    var lines := block + ([[]] + rest);
    FirstBlankIs(lines, |block|);
    assert lines[..|block|] == block && lines[|block| + 1..] == rest;
  }

  /** Delivered frames were accepted, are within the data limit, and are no more than the events allowed. */
  ghost predicate WithinLimit(frames: seq<Frame>, accepts: Bytes -> bool) {
    |frames| <= MAX_EVENTS && forall i :: 0 <= i < |frames| ==> |frames[i].data| <= MAX_DATA && accepts(frames[i].data)
  }

  ghost predicate RunWithinLimit(r: Run, accepts: Bytes -> bool) {
    WithinLimit(RunFrames(r), accepts) && (r.Going? ==> |r.state.data| <= MAX_DATA)
  }

  lemma LineWithinLimit(s: State, line: Bytes, accepts: Bytes -> bool)
    requires RunWithinLimit(Going(s), accepts)
    ensures RunWithinLimit(TakeLine(s, line, accepts), accepts)
  {
  }

  lemma {:induction false} FeedWithinLimit(r: Run, bytes: Bytes, accepts: Bytes -> bool)
    requires RunWithinLimit(r, accepts)
    ensures RunWithinLimit(Feed(r, bytes, accepts), accepts)
    decreases |bytes|
  {
    if bytes != [] && r.Going? {
      LineWithinLimit(r.state.(line := []), r.state.line, accepts);
      FeedWithinLimit(TakeByte(r.state, bytes[0], accepts), bytes[1..], accepts);
    }
  }

  /** Whatever a stream delivers, before a failure or to its end. */
  lemma DeliveredWithinLimit(stream: Bytes, accepts: Bytes -> bool)
    ensures WithinLimit(RunFrames(LastLine(Feed(Going(INITIAL), stream, accepts), accepts)), accepts)
  {
    FeedWithinLimit(Going(INITIAL), stream, accepts);
    var r := Feed(Going(INITIAL), stream, accepts);
    if r.Going? {
      LineWithinLimit(r.state.(line := []), r.state.line, accepts);
    }
  }

  lemma PrefixGrows(frames: seq<Frame>, f: Frame, more: seq<Frame>, r: seq<Frame>)
    requires r <= frames + [f] + more
    ensures r <= frames + ([f] + more)
  {
    assert frames + [f] + more == frames + ([f] + more);
  }

  lemma PrefixStep(block: seq<Bytes>, rest: seq<Bytes>, s: State, accepts: Bytes -> bool)
    requires NonBlank(block) && s.data == [] && !s.hasData
    requires RunFrames(TakeLines(Going(s.(id := BlockId(block, s.id))), rest, accepts)) <= s.frames +
      BlockFrames(rest, BlockId(block, s.id))
    requires RunFrames(TakeLines(Going(Delivered(block, s)), rest, accepts)) <= Delivered(block, s).frames +
      BlockFrames(rest, [])
    ensures RunFrames(TakeLines(Going(s), block + ([[]] + rest), accepts)) <= s.frames +
      BlockFrames(block + ([[]] + rest), s.id)
  {
    BlockCloses(block, rest, s, accepts);
    FramesClose(block, rest, s.id);
    if BlockData(block) != [] {
      PrefixGrows(s.frames, Frame(BlockId(block, s.id), Join(BlockData(block))), BlockFrames(rest, []),
                  RunFrames(TakeLines(Going(Delivered(block, s)), rest, accepts)));
    }
  }

  /** A run delivers the reference frames in order, all of them unless it fails. */
  lemma {:induction false} RunIsPrefix(lines: seq<Bytes>, s: State, accepts: Bytes -> bool)
    requires s.data == [] && !s.hasData
    ensures RunFrames(TakeLines(Going(s), lines, accepts)) <= s.frames + BlockFrames(lines, s.id)
    decreases |lines|
  {
    if FirstBlank(lines) == |lines| {
      BlockKeepsFrames(lines, Going(s), accepts);
    } else {
      var block, rest := CutAtBlank(lines);
      RunIsPrefix(rest, s.(id := BlockId(block, s.id)), accepts);
      RunIsPrefix(rest, Delivered(block, s), accepts);
      PrefixStep(block, rest, s, accepts);
    }
  }

  lemma StreamFrames(stream: Bytes, accepts: Bytes -> bool)
    ensures RunFrames(LastLine(Feed(Going(INITIAL), stream, accepts), accepts)) ==
            RunFrames(TakeLines(Going(INITIAL), StreamLines(stream), accepts))
  {
    var c := CutLines(stream, []);
    BytesAreLines(stream, INITIAL, accepts);
    assert INITIAL.(line := []) == INITIAL;
    var r := TakeLines(Going(INITIAL), c.lines, accepts);
    if c.rest != [] {
      TakeLinesConcat(Going(INITIAL), c.lines, [c.rest], accepts);
      if r.Going? {
        assert [c.rest] == [c.rest] + [];
        TakeLinesCons(r, c.rest, [], accepts);
        LineFramesOnly(r.state, c.rest, accepts);
      }
    }
  }

  /** What a line delivers does not depend on the line under construction. */
  lemma LineFramesOnly(s: State, line: Bytes, accepts: Bytes -> bool)
    ensures RunFrames(TakeLine(s.(line := []), line, accepts)) == RunFrames(TakeLine(s, line, accepts))
    ensures s.(line := line).(line := []) == s.(line := [])
  {
  }

  /** Every stream, failed or not, has delivered the reference frames in order up to some point. */
  lemma DeliversPrefix(stream: Bytes, accepts: Bytes -> bool)
    ensures RunFrames(LastLine(Feed(Going(INITIAL), stream, accepts), accepts)) <= BlockFrames(StreamLines(stream), [])
  {
    StreamFrames(stream, accepts);
    RunIsPrefix(StreamLines(stream), INITIAL, accepts);
    assert [] + BlockFrames(StreamLines(stream), []) == BlockFrames(StreamLines(stream), []);
  }
}
