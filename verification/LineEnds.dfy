/**
 Line ends of an event stream: the framer ends a line at every CR and every LF, where the event-stream
 format takes CR LF as one end.
 */
module LineEnds {
  import opened Common
  import opened EventFramer

  // ------------------------------------------------------------------- CR LF throughout

  /** Line splitting in which CRLF is one line end, as the event-stream format defines it. */
  function CutStandard(stream: Bytes, pending: Bytes): Cut
    decreases |stream|
  {
    if stream == [] then Cut([], pending)
    else if LineEnd(stream[0]) then
      var pair := |stream| >= 2 && stream[0] == CR && stream[1] == LF;
      var c := CutStandard(if pair then stream[2..] else stream[1..], []);
      Cut([pending] + c.lines, c.rest)
    else CutStandard(stream[1..], pending + [stream[0]])
  }

  predicate NoCrLf(stream: Bytes) {
    forall i :: 0 <= i < |stream| - 1 && stream[i] == CR ==> stream[i + 1] != LF
  }

  /** Without a CRLF pair the two ways to split a stream agree. */
  lemma {:induction false} SplitsAgree(stream: Bytes, pending: Bytes)
    requires NoCrLf(stream)
    ensures CutLines(stream, pending) == CutStandard(stream, pending)
    decreases |stream|
  {
    if stream != [] {
      var rest := stream[1..];
      assert forall i :: 0 <= i < |rest| ==> rest[i] == stream[i + 1];
      SplitsAgree(rest, if LineEnd(stream[0]) then [] else pending + [stream[0]]);
    }
  }

  function CrLfText(lines: seq<Bytes>): Bytes {
    if lines == [] then [] else lines[0] + ([CR, LF] + CrLfText(lines[1..]))
  }

  /** Every line followed by a blank one. */
  function Doubled(lines: seq<Bytes>): seq<Bytes> {
    if lines == [] then [] else [lines[0]] + ([[]] + Doubled(lines[1..]))
  }

  predicate Plain(line: Bytes) {
    forall i :: 0 <= i < |line| ==> !LineEnd(line[i])
  }

  lemma {:induction false} CutPlain(line: Bytes, rest: Bytes, pending: Bytes)
    requires Plain(line)
    ensures CutLines(line + rest, pending) == CutLines(rest, pending + line)
    ensures CutStandard(line + rest, pending) == CutStandard(rest, pending + line)
    decreases |line|
  {
    if line == [] {
      assert line + rest == rest && pending + line == pending;
    } else {
      var tail := line[1..];
      ConsParts(line[0], tail + rest);
      assert line + rest == [line[0]] + (tail + rest);
      assert pending + [line[0]] + tail == pending + line;
      CutPlain(tail, rest, pending + [line[0]]);
    }
  }

  /** On a stream with CRLF line ends this framer sees a blank line after every line. */
  lemma {:induction false} CrLfDoublesLines(lines: seq<Bytes>)
    requires forall i :: 0 <= i < |lines| ==> Plain(lines[i])
    ensures CutLines(CrLfText(lines), []) == Cut(Doubled(lines), [])
    ensures CutStandard(CrLfText(lines), []) == Cut(lines, [])
    decreases |lines|
  {
    if lines != [] {
      var line, rest := lines[0], lines[1..];
      var text := CrLfText(rest);
      CrLfDoublesLines(rest);
      CutPlain(line, [CR, LF] + text, []);
      assert [] + line == line;
      assert ([CR, LF] + text)[1..] == [LF] + text;
      assert ([LF] + text)[1..] == text;
      assert ([CR, LF] + text)[2..] == text;
      assert lines == [line] + rest;
    }
  }

  function DataLine(line: Bytes): nat {
    if line != [] && FieldOf(line).DataField? then 1 else 0
  }

  function DataLines(lines: seq<Bytes>): nat {
    if lines == [] then 0 else DataLine(lines[0]) + DataLines(lines[1..])
  }

  lemma BlankFirst(rest: seq<Bytes>, carry: Bytes)
    ensures BlockFrames([[]] + rest, carry) == BlockFrames(rest, carry)
  {
    var d := [[]] + rest;
    assert FirstBlank(d) == 0 && d[..0] == [] && d[1..] == rest;
  }

  /** The identifier in force after a line that is a block of its own. */
  function CarryAfter(line: Bytes, carry: Bytes): Bytes {
    if line == [] then carry
    else
      match FieldOf(line)
      case DataField(_) => []
      case IdField(v) => v
      case _ => carry
  }

  function FrameOf(line: Bytes, carry: Bytes): seq<Frame> {
    if line != [] && FieldOf(line).DataField? then [Frame(carry, FieldOf(line).value)] else []
  }

  /** The frames of lines that each end their block: one for every data line, under the identifier in force. */
  function LineFrames(lines: seq<Bytes>, carry: Bytes): seq<Frame>
    decreases |lines|
  {
    if lines == [] then [] else FrameOf(lines[0], carry) + LineFrames(lines[1..], CarryAfter(lines[0], carry))
  }

  function LineCarry(lines: seq<Bytes>, carry: Bytes): Bytes
    decreases |lines|
  {
    if lines == [] then carry else LineCarry(lines[1..], CarryAfter(lines[0], carry))
  }

  lemma OneLineBlock(line: Bytes, rest: seq<Bytes>, carry: Bytes)
    ensures BlockFrames([line] + ([[]] + rest), carry) ==
            FrameOf(line, carry) + BlockFrames(rest, CarryAfter(line, carry))
  {
    if line == [] {
      BlankFirst([[]] + rest, carry);
      BlankFirst(rest, carry);
    } else {
      LoneLine(line, carry);
      FramesClose([line], rest, carry);
      if FieldOf(line).DataField? {
        JoinOne(FieldOf(line).value);
      }
    }
  }

  lemma JoinOne(v: Bytes)
    ensures Join([v]) == v
  {
  }

  lemma LoneLine(line: Bytes, carry: Bytes)
    requires line != []
    ensures var block: seq<Bytes> := [line];
            && BlockData(block) == (if FieldOf(line).DataField? then [FieldOf(line).value] else [])
            && BlockId(block, carry) == (if FieldOf(line).IdField? then FieldOf(line).value else carry)
  {
    var block: seq<Bytes> := [line];
    assert |block[1..]| == 0;
  }

  /** Doubled lines give the frames of lines that each end their block. */
  lemma {:induction false} DoubledFrames(lines: seq<Bytes>, carry: Bytes)
    ensures BlockFrames(Doubled(lines), carry) == LineFrames(lines, carry)
    decreases |lines|
  {
    if lines != [] {
      DoubledFrames(lines[1..], CarryAfter(lines[0], carry));
      OneLineBlock(lines[0], Doubled(lines[1..]), carry);
    }
  }

  lemma {:induction false} LineFramesCount(lines: seq<Bytes>, carry: Bytes)
    ensures |LineFrames(lines, carry)| == DataLines(lines)
    decreases |lines|
  {
    if lines != [] {
      LineFramesCount(lines[1..], CarryAfter(lines[0], carry));
    }
  }

  /** There the framer delivers one frame for every data line. */
  lemma CrLfFramePerDataLine(lines: seq<Bytes>, carry: Bytes)
    ensures |BlockFrames(Doubled(lines), carry)| == DataLines(lines)
  {
    DoubledFrames(lines, carry);
    LineFramesCount(lines, carry);
  }

  lemma {:induction false} LineFramesConcat(a: seq<Bytes>, b: seq<Bytes>, carry: Bytes)
    ensures LineFrames(a + b, carry) == LineFrames(a, carry) + LineFrames(b, LineCarry(a, carry))
    decreases |a|
  {
    if a == [] {
      assert a + b == b;
    } else {
      assert a + b == [a[0]] + (a[1..] + b);
      ConsParts(a[0], a[1..] + b);
      LineFramesConcat(a[1..], b, CarryAfter(a[0], carry));
    }
  }

  /** Every closed block has at most one data line and the open block has none. */
  predicate SingleDataBlocks(lines: seq<Bytes>)
    decreases |lines|
  {
    var k := FirstBlank(lines);
    if k == |lines| then BlockData(lines) == []
    else |BlockData(lines[..k])| <= 1 && SingleDataBlocks(lines[k + 1..])
  }

  lemma {:induction false} DataLinesConcat(a: seq<Bytes>, b: seq<Bytes>)
    ensures DataLines(a + b) == DataLines(a) + DataLines(b)
    decreases |a|
  {
    if a == [] {
      assert a + b == b;
    } else {
      assert a + b == [a[0]] + (a[1..] + b);
      ConsParts(a[0], a[1..] + b);
      DataLinesConcat(a[1..], b);
    }
  }

  lemma {:induction false} BlockDataCounts(block: seq<Bytes>)
    requires NonBlank(block)
    ensures |BlockData(block)| == DataLines(block)
    decreases |block|
  {
    if block != [] {
      BlockDataCounts(block[1..]);
    }
  }

  lemma SingleCloses(block: seq<Bytes>, rest: seq<Bytes>)
    requires NonBlank(block)
    ensures SingleDataBlocks(block + ([[]] + rest)) <==> |BlockData(block)| <= 1 && SingleDataBlocks(rest)
    ensures DataLines(block + ([[]] + rest)) == |BlockData(block)| + DataLines(rest)
  {
    var lines := block + ([[]] + rest);
    FirstBlankIs(lines, |block|);
    assert lines[..|block|] == block && lines[|block| + 1..] == rest;
    BlockDataCounts(block);
    DataLinesConcat(block, [[]] + rest);
    ConsParts([], rest);
  }

  /** No block gives more frames than it has data lines, and as many only without a joined or open one. */
  lemma {:induction false} FramesAgainstData(lines: seq<Bytes>, carry: Bytes)
    ensures |BlockFrames(lines, carry)| <= DataLines(lines)
    ensures |BlockFrames(lines, carry)| == DataLines(lines) <==> SingleDataBlocks(lines)
    decreases |lines|
  {
    if FirstBlank(lines) == |lines| {
      BlockDataCounts(lines);
    } else {
      var block, rest := CutAtBlank(lines);
      SingleCloses(block, rest);
      FramesClose(block, rest, carry);
      FramesAgainstData(rest, if BlockData(block) == [] then BlockId(block, carry) else []);
    }
  }

  /**
   So a CRLF stream keeps its number of frames exactly when every block has at most one data
   line and no data is left open; a block of several data lines is torn into several frames.
   */
  lemma CrLfKeepsFrameCount(lines: seq<Bytes>, carry: Bytes)
    ensures |BlockFrames(lines, carry)| <= DataLines(lines)
    ensures |BlockFrames(Doubled(lines), carry)| == |BlockFrames(lines, carry)| <==> SingleDataBlocks(lines)
  {
    CrLfFramePerDataLine(lines, carry);
    FramesAgainstData(lines, carry);
  }

  /** The frames of a torn stream from one block on. */
  lemma TornCloses(block: seq<Bytes>, rest: seq<Bytes>, torn: Bytes)
    requires NonBlank(block)
    ensures LineFrames(block + ([[]] + rest), torn) ==
            LineFrames(block, torn) + LineFrames(rest, LineCarry(block, torn))
  {
    LineFramesConcat(block, [[]] + rest, torn);
    ConsParts([], rest);
  }

  lemma ConsEqual<T>(x: T, a: seq<T>, y: T, b: seq<T>)
    ensures [x] + a == [y] + b <==> x == y && a == b
  {
    ConsParts(x, a);
    ConsParts(y, b);
  }

  // ----------------------------------------------------------- any mixture of line ends

  /** A line of the standard split, with whether CR LF ended it. */
  datatype Line = Line(text: Bytes, pair: bool)

  datatype Marked = Marked(lines: seq<Line>, rest: Bytes)

  function CutMarked(stream: Bytes, pending: Bytes): Marked
    decreases |stream|
  {
    if stream == [] then Marked([], pending)
    else if LineEnd(stream[0]) then
      var pair := |stream| >= 2 && stream[0] == CR && stream[1] == LF;
      var c := CutMarked(if pair then stream[2..] else stream[1..], []);
      Marked([Line(pending, pair)] + c.lines, c.rest)
    else CutMarked(stream[1..], pending + [stream[0]])
  }

  function Texts(lines: seq<Line>): (r: seq<Bytes>)
    ensures |r| == |lines| && forall i :: 0 <= i < |r| ==> r[i] == lines[i].text
  {
    seq(|lines|, i requires 0 <= i < |lines| => lines[i].text)
  }

  /** What this framer sees of them: a blank line behind every CR LF. */
  function Wide(lines: seq<Line>): seq<Bytes> {
    if lines == [] then [] else SeenAs(lines[0], Wide(lines[1..]))
  }

  function SeenAs(l: Line, rest: seq<Bytes>): seq<Bytes> {
    [l.text] + ((if l.pair then [[]] else []) + rest)
  }

  lemma TextsCons(l: Line, lines: seq<Line>)
    ensures Texts([l] + lines) == [l.text] + Texts(lines)
  {
  }

  lemma WideCons(l: Line, lines: seq<Line>)
    ensures Wide([l] + lines) == SeenAs(l, Wide(lines))
  {
    ConsParts(l, lines);
  }

  lemma PairCut(stream: Bytes)
    requires |stream| >= 2 && stream[1] == LF
    ensures CutLines(stream[1..], []) == Cut([[]] + CutLines(stream[2..], []).lines, CutLines(stream[2..], []).rest)
  {
    assert stream[1..][1..] == stream[2..];
  }

  /** Both ways to split any stream, from its marked lines. */
  lemma {:induction false} MarkedCuts(stream: Bytes, pending: Bytes)
    ensures var m := CutMarked(stream, pending);
            && CutStandard(stream, pending) == Cut(Texts(m.lines), m.rest)
            && CutLines(stream, pending) == Cut(Wide(m.lines), m.rest)
    decreases |stream|
  {
    if stream != [] {
      if !LineEnd(stream[0]) {
        MarkedCuts(stream[1..], pending + [stream[0]]);
      } else {
        var pair := |stream| >= 2 && stream[0] == CR && stream[1] == LF;
        var rest := if pair then stream[2..] else stream[1..];
        MarkedCuts(rest, []);
        TextsCons(Line(pending, pair), CutMarked(rest, []).lines);
        WideCons(Line(pending, pair), CutMarked(rest, []).lines);
        if pair {
          PairCut(stream);
        }
      }
    }
  }

  /** The lines of a whole stream by the standard split. */
  function StandardLines(stream: Bytes): seq<Bytes> {
    var c := CutStandard(stream, []);
    if c.rest == [] then c.lines else c.lines + [c.rest]
  }

  function MarkedLines(stream: Bytes): seq<Line> {
    var c := CutMarked(stream, []);
    if c.rest == [] then c.lines else c.lines + [Line(c.rest, false)]
  }

  lemma {:induction false} WideConcat(a: seq<Line>, b: seq<Line>)
    ensures Wide(a + b) == Wide(a) + Wide(b)
    decreases |a|
  {
    if a == [] {
      assert a + b == b;
    } else {
      var l, tail := a[0], a[1..];
      WideConcat(tail, b);
      WideCons(l, tail + b);
      SeenBefore(l, Wide(tail), Wide(b));
      assert a + b == [l] + (tail + b);
    }
  }

  lemma MarkedStream(stream: Bytes)
    ensures StandardLines(stream) == Texts(MarkedLines(stream)) && StreamLines(stream) == Wide(MarkedLines(stream))
  {
    MarkedCuts(stream, []);
    var c := CutMarked(stream, []);
    if c.rest != [] {
      var last: seq<Line> := [Line(c.rest, false)];
      WideConcat(c.lines, last);
      WideCons(last[0], []);
      assert last == [last[0]] + [];
      assert Wide(last) == [c.rest];
      assert Texts(c.lines + last) == Texts(c.lines) + [c.rest];
    }
  }

  /** The frames of lines behind data values `values` and under the identifier `id`, line by line. */
  function Scan(lines: seq<Bytes>, values: seq<Bytes>, id: Bytes): seq<Frame>
    decreases |lines|
  {
    if lines == [] then []
    else if lines[0] == [] then
      if values == [] then Scan(lines[1..], [], id) else [Frame(id, Join(values))] + Scan(lines[1..], [], [])
    else Scan(lines[1..], values + ValueOf(lines[0]), IdOf(lines[0], id))
  }

  function ValueOf(line: Bytes): seq<Bytes>
    requires line != []
  {
    match FieldOf(line) case DataField(v) => [v] case _ => []
  }

  function IdOf(line: Bytes, id: Bytes): Bytes
    requires line != []
  {
    match FieldOf(line) case IdField(v) => v case _ => id
  }

  lemma ScanLine(line: Bytes, rest: seq<Bytes>, values: seq<Bytes>, id: Bytes)
    requires line != []
    ensures Scan([line] + rest, values, id) == Scan(rest, values + ValueOf(line), IdOf(line, id))
  {
    ConsParts(line, rest);
  }

  lemma ScanBlank(rest: seq<Bytes>, values: seq<Bytes>, id: Bytes)
    ensures Scan([[]] + rest, values, id) ==
            if values == [] then Scan(rest, [], id) else [Frame(id, Join(values))] + Scan(rest, [], [])
  {
    ConsParts([], rest);
  }

  lemma BlockFirst(block: seq<Bytes>, id: Bytes)
    requires block != [] && NonBlank(block)
    ensures BlockData(block) == ValueOf(block[0]) + BlockData(block[1..])
    ensures BlockId(block, id) == BlockId(block[1..], IdOf(block[0], id))
  {
  }

  /** Values of a block behind others, its first line apart. */
  lemma ValuesFirst(values: seq<Bytes>, block: seq<Bytes>)
    requires block != [] && NonBlank(block)
    ensures values + ValueOf(block[0]) + BlockData(block[1..]) == values + BlockData(block)
  {
    BlockFirst(block, []);
    Associate(values, ValueOf(block[0]), BlockData(block[1..]));
  }

  lemma {:induction false} ScanBlock(block: seq<Bytes>, rest: seq<Bytes>, values: seq<Bytes>, id: Bytes)
    requires NonBlank(block)
    ensures Scan(block + rest, values, id) == Scan(rest, values + BlockData(block), BlockId(block, id))
    decreases |block|
  {
    if block == [] {
      assert block + rest == rest && values + [] == values;
    } else {
      var line, tail := block[0], block[1..];
      ScanBlock(tail, rest, values + ValueOf(line), IdOf(line, id));
      ValuesFirst(values, block);
      BlockFirst(block, id);
      ScanLine(line, tail + rest, values, id);
      Associate([line], tail, rest);
      assert [line] + tail == block;
    }
  }

  /** A block that a blank line closes. */
  lemma ScanCloses(block: seq<Bytes>, rest: seq<Bytes>, id: Bytes)
    requires NonBlank(block)
    ensures Scan(block + ([[]] + rest), [], id) ==
            if BlockData(block) == [] then Scan(rest, [], BlockId(block, id))
            else [Frame(BlockId(block, id), Join(BlockData(block)))] + Scan(rest, [], [])
  {
    ScanBlock(block, [[]] + rest, [], id);
    assert [] + BlockData(block) == BlockData(block);
    ScanBlank(rest, BlockData(block), BlockId(block, id));
  }

  /** Line by line or block by block: the same frames. */
  lemma {:induction false} ScanIsBlocks(lines: seq<Bytes>, id: Bytes)
    ensures Scan(lines, [], id) == BlockFrames(lines, id)
    decreases |lines|
  {
    if FirstBlank(lines) == |lines| {
      ScanBlock(lines, [], [], id);
      assert lines + [] == lines;
    } else {
      var block, rest := CutAtBlank(lines);
      ScanCloses(block, rest, id);
      FramesClose(block, rest, id);
      ScanIsBlocks(rest, BlockId(block, id));
      ScanIsBlocks(rest, []);
    }
  }

  predicate Solid(block: seq<Line>) {
    NonBlank(Texts(block))
  }

  /**
   The lines of a block up to the first CR LF that finds data, if there is one; `open` tells of data
   in front of them.
   */
  function TornAt(block: seq<Line>, open: bool): (n: Option<nat>)
    requires Solid(block)
    ensures n.Some? ==> 0 < n.value <= |block|
    decreases |block|
  {
    if block == [] then None
    else
      assert Texts(block)[0] != [];
      assert Texts(block[1..]) == Texts(block)[1..];
      var seen := open || ValueOf(block[0].text) != [];
      if seen && block[0].pair then Some(1)
      else
        var n := TornAt(block[1..], seen);
        if n.Some? then Some(n.value + 1) else None
  }

  /**
   The exact condition under which a mixture of line ends does no harm, with the identifiers carried
   into a block by the two splits. A CR LF that finds data delivers it: then no more data may follow in
   the block, its last identifier must be in force already, and the identifiers behind are carried on.
   Where none does, the blank line delivers, under the identifier each split has. Nothing may be
   delivered of a block that is left open.
   */
  predicate SameFrames(lines: seq<Line>, carry: Bytes, torn: Bytes)
    decreases |lines|
  {
    var k := FirstBlank(Texts(lines));
    var block, rest := lines[..k], lines[if k < |lines| then k + 1 else k..];
    assert Texts(block) == Texts(lines)[..k];
    var texts, at := Texts(block), TornAt(block, false);
    if k == |lines| then at.None?
    else if at.None? then
      if BlockData(texts) == [] then SameFrames(rest, BlockId(texts, carry), BlockId(texts, torn))
      else BlockId(texts, carry) == BlockId(texts, torn) && SameFrames(rest, [], [])
    else
      && BlockData(texts[at.value..]) == []
      && BlockId(texts, carry) == BlockId(texts[..at.value], torn)
      && SameFrames(rest, [], BlockId(texts[at.value..], []))
  }

  lemma SolidTail(block: seq<Line>)
    requires Solid(block) && block != []
    ensures block[0].text != [] && Solid(block[1..]) && Texts(block) == [block[0].text] + Texts(block[1..])
  {
    assert Texts(block)[0] != [];
    assert Texts(block[1..]) == Texts(block)[1..];
  }

  lemma WideFirst(block: seq<Line>, more: seq<Bytes>)
    requires block != []
    ensures Wide(block) + more == SeenAs(block[0], Wide(block[1..]) + more)
  {
    SeenBefore(block[0], Wide(block[1..]), more);
  }

  lemma SeenBefore(l: Line, a: seq<Bytes>, b: seq<Bytes>)
    ensures SeenAs(l, a) + b == SeenAs(l, a + b)
  {
  }

  /** One line of this framer. */
  lemma ScanWide(l: Line, rest: seq<Bytes>, values: seq<Bytes>, id: Bytes)
    requires l.text != []
    ensures var v, i := values + ValueOf(l.text), IdOf(l.text, id);
            Scan(SeenAs(l, rest), values, id) ==
            if l.pair && v != [] then [Frame(i, Join(v))] + Scan(rest, [], []) else Scan(rest, v, i)
  {
    ScanLine(l.text, (if l.pair then [[]] else []) + rest, values, id);
    if l.pair {
      ScanBlank(rest, values + ValueOf(l.text), IdOf(l.text, id));
    } else {
      assert [] + rest == rest;
    }
  }

  lemma TornNext(block: seq<Line>, open: bool)
    requires Solid(block) && block != []
    ensures block[0].text != [] && Solid(block[1..])
    ensures var seen := open || ValueOf(block[0].text) != [];
            TornAt(block, open) ==
            if seen && block[0].pair then Some(1)
            else var n := TornAt(block[1..], seen); if n.Some? then Some(n.value + 1) else None
  {
    SolidTail(block);
  }

  /** The scan of a block behind its first line. */
  lemma ScanFirst(block: seq<Line>, more: seq<Bytes>, values: seq<Bytes>, id: Bytes)
    requires Solid(block) && block != [] && block[0].text != []
    ensures var l, v, i := block[0], values + ValueOf(block[0].text), IdOf(block[0].text, id);
            Scan(Wide(block) + more, values, id) ==
            if l.pair && v != [] then [Frame(i, Join(v))] + Scan(Wide(block[1..]) + more, [], [])
            else Scan(Wide(block[1..]) + more, v, i)
  {
    WideFirst(block, more);
    ScanWide(block[0], Wide(block[1..]) + more, values, id);
  }

  /** Where no CR LF finds data, the block is collected as by the standard split. */
  lemma {:induction false} Untorn(block: seq<Line>, more: seq<Bytes>, values: seq<Bytes>, id: Bytes)
    requires Solid(block) && TornAt(block, values != []).None?
    ensures Scan(Wide(block) + more, values, id) ==
            Scan(more, values + BlockData(Texts(block)), BlockId(Texts(block), id))
    decreases |block|
  {
    if block == [] {
      assert Wide(block) + more == more && values + [] == values;
    } else {
      TornNext(block, values != []);
      var line := block[0].text;
      ScanFirst(block, more, values, id);
      Untorn(block[1..], more, values + ValueOf(line), IdOf(line, id));
      SolidTail(block);
      ValuesFirst(values, Texts(block));
      BlockFirst(Texts(block), id);
    }
  }

  /** Where one does, it delivers what the block has collected up to there. */
  lemma {:induction false} TornBlock(block: seq<Line>, n: nat, more: seq<Bytes>, values: seq<Bytes>, id: Bytes)
    requires Solid(block) && TornAt(block, values != []) == Some(n)
    ensures var head := Texts(block)[..n];
            && values + BlockData(head) != []
            && Scan(Wide(block) + more, values, id) ==
               [Frame(BlockId(head, id), Join(values + BlockData(head)))] + Scan(Wide(block[n..]) + more, [], [])
    decreases |block|
  {
    TornNext(block, values != []);
    var line := block[0].text;
    var v, i, head := values + ValueOf(line), IdOf(line, id), Texts(block)[..n];
    ScanFirst(block, more, values, id);
    HeadFirst(block, n);
    ValuesFirst(values, head);
    BlockFirst(head, id);
    if v != [] && block[0].pair {
      assert n == 1 && head[1..] == [] && v + [] == v;
    } else {
      TornBlock(block[1..], n - 1, more, v, i);
    }
  }

  lemma HeadFirst(block: seq<Line>, n: nat)
    requires 0 < n <= |block|
    ensures Texts(block)[..n][0] == block[0].text && Texts(block)[..n][1..] == Texts(block[1..])[..n - 1]
    ensures block[n..] == block[1..][n - 1..]
  {
  }

  lemma {:induction false} SilentUntorn(block: seq<Line>)
    requires Solid(block) && BlockData(Texts(block)) == []
    ensures TornAt(block, false).None?
    decreases |block|
  {
    if block != [] {
      SolidTail(block);
      BlockFirst(Texts(block), []);
      SilentUntorn(block[1..]);
    }
  }

  /**
   This framer gives at least as many frames as the standard split, from any two states, but for the
   one it has given already where the standard still holds data.
   */
  lemma {:induction false} WideCounts(lines: seq<Line>, values: seq<Bytes>, id: Bytes, held: seq<Bytes>, torn: Bytes)
    ensures |Scan(Wide(lines), held, torn)| + (if values != [] && held == [] then 1 else 0)
         >= |Scan(Texts(lines), values, id)|
    decreases |lines|
  {
    if lines != [] {
      var l, rest := lines[0], lines[1..];
      assert Texts(lines) == [l.text] + Texts(rest);
      if l.text == [] {
        ScanBlank(Texts(rest), values, id);
        BlankWide(l, Wide(rest), held, torn);
        WideCounts(rest, [], if values == [] then id else [], [], if held == [] then torn else []);
      } else {
        ScanLine(l.text, Texts(rest), values, id);
        ScanWide(l, Wide(rest), held, torn);
        var v, h := values + ValueOf(l.text), held + ValueOf(l.text);
        if l.pair && h != [] {
          WideCounts(rest, v, IdOf(l.text, id), [], []);
        } else {
          WideCounts(rest, v, IdOf(l.text, id), h, IdOf(l.text, torn));
        }
      }
    }
  }

  /** A blank line, once or twice. */
  lemma BlankWide(l: Line, rest: seq<Bytes>, values: seq<Bytes>, id: Bytes)
    requires l.text == []
    ensures Scan(SeenAs(l, rest), values, id) ==
            if values == [] then Scan(rest, [], id) else [Frame(id, Join(values))] + Scan(rest, [], [])
  {
    ScanBlank((if l.pair then [[]] else []) + rest, values, id);
    if l.pair {
      ScanBlank(rest, [], if values == [] then id else []);
    } else {
      assert [] + rest == rest;
    }
  }

  lemma CutMarkedLines(lines: seq<Line>) returns (block: seq<Line>, l: Line, rest: seq<Line>)
    requires FirstBlank(Texts(lines)) < |lines|
    ensures Solid(block) && l.text == [] && |rest| < |lines| && lines == block + ([l] + rest)
    ensures block == lines[..FirstBlank(Texts(lines))] && rest == lines[FirstBlank(Texts(lines)) + 1..]
  {
    var k := FirstBlank(Texts(lines));
    block, l, rest := lines[..k], lines[k], lines[k + 1..];
    assert Texts(block) == Texts(lines)[..k];
    assert Texts(lines)[k] == l.text;
  }

  lemma MarkedParts(block: seq<Line>, l: Line, rest: seq<Line>)
    requires l.text == []
    ensures Texts(block + ([l] + rest)) == Texts(block) + ([[]] + Texts(rest))
    ensures Wide(block + ([l] + rest)) == Wide(block) + SeenAs(l, Wide(rest))
  {
    WideConcat(block, [l] + rest);
    WideCons(l, rest);
  }

  /** A block left open delivers nothing exactly when no CR LF finds data in it. */
  lemma OpenBlockFrames(lines: seq<Line>, carry: Bytes, torn: Bytes)
    requires Solid(lines)
    ensures Scan(Texts(lines), [], carry) == [] && (Scan(Wide(lines), [], torn) == [] <==> TornAt(lines, false).None?)
  {
    var none: seq<Bytes> := [];
    assert Texts(lines) + none == Texts(lines) && Wide(lines) + none == Wide(lines);
    ScanBlock(Texts(lines), none, [], carry);
    var at := TornAt(lines, false);
    if at.None? {
      Untorn(lines, none, [], torn);
    } else {
      TornBlock(lines, at.value, none, [], torn);
    }
  }

  /** A closed block that the blank line delivers, or that has nothing to deliver. */
  lemma ClosedUntorn(block: seq<Line>, l: Line, rest: seq<Line>, torn: Bytes)
    requires Solid(block) && l.text == [] && TornAt(block, false).None?
    ensures var d, id := BlockData(Texts(block)), BlockId(Texts(block), torn);
            Scan(Wide(block) + SeenAs(l, Wide(rest)), [], torn) ==
            if d == [] then Scan(Wide(rest), [], id) else [Frame(id, Join(d))] + Scan(Wide(rest), [], [])
  {
    Untorn(block, SeenAs(l, Wide(rest)), [], torn);
    assert [] + BlockData(Texts(block)) == BlockData(Texts(block));
    BlankWide(l, Wide(rest), BlockData(Texts(block)), BlockId(Texts(block), torn));
  }

  /** A closed block that a CR LF delivers, with nothing but identifiers behind it. */
  lemma ClosedTorn(block: seq<Line>, n: nat, l: Line, rest: seq<Line>, torn: Bytes)
    requires Solid(block) && l.text == [] && TornAt(block, false) == Some(n) && BlockData(Texts(block)[n..]) == []
    ensures var head, tail := Texts(block)[..n], Texts(block)[n..];
            Scan(Wide(block) + SeenAs(l, Wide(rest)), [], torn) ==
            [Frame(BlockId(head, torn), Join(BlockData(head)))] + Scan(Wide(rest), [], BlockId(tail, []))
  {
    var more := SeenAs(l, Wide(rest));
    TornBlock(block, n, more, [], torn);
    assert [] + BlockData(Texts(block)[..n]) == BlockData(Texts(block)[..n]);
    assert Texts(block[n..]) == Texts(block)[n..];
    SilentUntorn(block[n..]);
    ClosedUntorn(block[n..], l, rest, []);
  }

  /** Data behind it gives a frame at least. */
  lemma DataBehind(tail: seq<Line>, l: Line, rest: seq<Line>)
    requires Solid(tail) && l.text == [] && BlockData(Texts(tail)) != []
    ensures |Scan(Wide(tail) + SeenAs(l, Wide(rest)), [], [])| >= 1 + |Scan(Texts(rest), [], [])|
  {
    MarkedParts(tail, l, rest);
    WideCounts(tail + ([l] + rest), [], [], [], []);
    ScanCloses(Texts(tail), Texts(rest), []);
  }

  /** One that is torn in two gives a frame too many. */
  lemma TornTwice(block: seq<Line>, n: nat, l: Line, rest: seq<Line>, torn: Bytes)
    requires Solid(block) && l.text == [] && TornAt(block, false) == Some(n) && BlockData(Texts(block)[n..]) != []
    ensures |Scan(Wide(block) + SeenAs(l, Wide(rest)), [], torn)| >= 2 + |Scan(Texts(rest), [], [])|
  {
    TornBlock(block, n, SeenAs(l, Wide(rest)), [], torn);
    assert Texts(block[n..]) == Texts(block)[n..];
    DataBehind(block[n..], l, rest);
  }

  lemma {:induction false} BlockSplits(a: seq<Bytes>, n: nat)
    requires NonBlank(a) && n <= |a|
    ensures BlockData(a) == BlockData(a[..n]) + BlockData(a[n..])
    decreases n
  {
    if n == 0 {
      assert a[0..] == a;
    } else {
      BlockSplits(a[1..], n - 1);
      assert a[1..][..n - 1] == a[..n][1..] && a[1..][n - 1..] == a[n..];
    }
  }

  /** What `SameFrames` asks of a closed block and of the rest. */
  predicate SameBlock(block: seq<Line>, rest: seq<Line>, carry: Bytes, torn: Bytes)
    requires Solid(block)
  {
    var texts, at := Texts(block), TornAt(block, false);
    if at.None? then
      if BlockData(texts) == [] then SameFrames(rest, BlockId(texts, carry), BlockId(texts, torn))
      else BlockId(texts, carry) == BlockId(texts, torn) && SameFrames(rest, [], [])
    else
      && BlockData(texts[at.value..]) == []
      && BlockId(texts, carry) == BlockId(texts[..at.value], torn)
      && SameFrames(rest, [], BlockId(texts[at.value..], []))
  }

  ghost predicate Decides(lines: seq<Line>, carry: Bytes, torn: Bytes) {
    Scan(Wide(lines), [], torn) == Scan(Texts(lines), [], carry) <==> SameFrames(lines, carry, torn)
  }

  /** One closed block, given the comparison of the rest in every state the block can leave. */
  lemma ClosedBlock(block: seq<Line>, l: Line, rest: seq<Line>, carry: Bytes, torn: Bytes)
    requires Solid(block) && l.text == []
    requires Decides(rest, [], []) && Decides(rest, BlockId(Texts(block), carry), BlockId(Texts(block), torn))
    requires TornAt(block, false).Some? ==> Decides(rest, [], BlockId(Texts(block)[TornAt(block, false).value..], []))
    ensures Scan(Wide(block) + SeenAs(l, Wide(rest)), [], torn) == Scan(Texts(block) + ([[]] + Texts(rest)), [], carry)
            <==> SameBlock(block, rest, carry, torn)
  {
    var texts, at := Texts(block), TornAt(block, false);
    ScanCloses(texts, Texts(rest), carry);
    if at.None? {
      ClosedUntorn(block, l, rest, torn);
      if BlockData(texts) != [] {
        ConsEqual(Frame(BlockId(texts, torn), Join(BlockData(texts))), Scan(Wide(rest), [], []),
                  Frame(BlockId(texts, carry), Join(BlockData(texts))), Scan(Texts(rest), [], []));
      }
    } else {
      ClosedAtPair(block, at.value, l, rest, carry, torn);
    }
  }

  lemma ClosedAtPair(block: seq<Line>, n: nat, l: Line, rest: seq<Line>, carry: Bytes, torn: Bytes)
    requires Solid(block) && l.text == [] && TornAt(block, false) == Some(n)
    requires Decides(rest, [], BlockId(Texts(block)[n..], []))
    ensures Scan(Wide(block) + SeenAs(l, Wide(rest)), [], torn) == Scan(Texts(block) + ([[]] + Texts(rest)), [], carry)
            <==> SameBlock(block, rest, carry, torn)
  {
    var texts, more := Texts(block), SeenAs(l, Wide(rest));
    ScanCloses(texts, Texts(rest), carry);
    BlockSplits(texts, n);
    TornBlock(block, n, more, [], torn);
    assert [] + BlockData(texts[..n]) == BlockData(texts[..n]);
    if BlockData(texts[n..]) == [] {
      ClosedTorn(block, n, l, rest, torn);
      assert BlockData(texts) == BlockData(texts[..n]);
      ConsEqual(Frame(BlockId(texts[..n], torn), Join(BlockData(texts))), Scan(Wide(rest), [], BlockId(texts[n..], [])),
                Frame(BlockId(texts, carry), Join(BlockData(texts))), Scan(Texts(rest), [], []));
    } else {
      TornTwice(block, n, l, rest, torn);
    }
  }

  lemma {:induction false} TornFrames(lines: seq<Line>, carry: Bytes, torn: Bytes)
    ensures Scan(Wide(lines), [], torn) == Scan(Texts(lines), [], carry) <==> SameFrames(lines, carry, torn)
    decreases |lines|
  {
    if FirstBlank(Texts(lines)) == |lines| {
      assert lines[..|lines|] == lines;
      OpenBlockFrames(lines, carry, torn);
    } else {
      var block, l, rest := CutMarkedLines(lines);
      TornFrames(rest, [], []);
      TornFrames(rest, BlockId(Texts(block), carry), BlockId(Texts(block), torn));
      if TornAt(block, false).Some? {
        TornFrames(rest, [], BlockId(Texts(block)[TornAt(block, false).value..], []));
      }
      MarkedParts(block, l, rest);
      ClosedBlock(block, l, rest, carry, torn);
      assert SameFrames(lines, carry, torn) == SameBlock(block, rest, carry, torn);
    }
  }

  /**
   For every stream, whatever line ends it mixes: this framer collects the frames of the standard
   split exactly under that condition.
   */
  lemma EveryStreamFrames(stream: Bytes)
    ensures BlockFrames(StreamLines(stream), []) == BlockFrames(StandardLines(stream), [])
            <==> SameFrames(MarkedLines(stream), [], [])
  {
    MarkedStream(stream);
    ScanIsBlocks(StreamLines(stream), []);
    ScanIsBlocks(StandardLines(stream), []);
    TornFrames(MarkedLines(stream), [], []);
  }

  function Pairs(lines: seq<Bytes>): (r: seq<Line>)
    ensures |r| == |lines| && forall i :: 0 <= i < |r| ==> r[i] == Line(lines[i], true)
  {
    seq(|lines|, i requires 0 <= i < |lines| => Line(lines[i], true))
  }

  lemma {:induction false} PairsDouble(lines: seq<Bytes>)
    ensures Wide(Pairs(lines)) == Doubled(lines) && Texts(Pairs(lines)) == lines
    decreases |lines|
  {
    if lines != [] {
      PairsDouble(lines[1..]);
      assert Pairs(lines)[1..] == Pairs(lines[1..]);
    }
  }

  /** A stream with CR LF ends throughout. */
  lemma CrLfKeepsFrames(lines: seq<Bytes>)
    requires forall i :: 0 <= i < |lines| ==> Plain(lines[i])
    ensures BlockFrames(StreamLines(CrLfText(lines)), []) == BlockFrames(lines, [])
            <==> SameFrames(Pairs(lines), [], [])
  {
    CrLfDoublesLines(lines);
    PairsDouble(lines);
    ScanIsBlocks(Doubled(lines), []);
    ScanIsBlocks(lines, []);
    TornFrames(Pairs(lines), [], []);
  }

  // -------------------------------------------------------------------------- two events

  /** A block of two lines, sent alone. */
  lemma TwoLines(a: Bytes, b: Bytes, carry: Bytes)
    requires a != [] && b != []
    ensures var block := [a, b];
            && BlockData(block) == BlockData([a]) + BlockData([b])
            && BlockId(block, carry) == BlockId([b], BlockId([a], carry))
            && LineFrames(block, carry) == FrameOf(a, carry) + FrameOf(b, CarryAfter(a, carry))
  {
    var block, last := [a, b], [b];
    assert block[1..] == last && |last[1..]| == 0;
    LoneLine(a, carry);
    assert LineFrames(last, CarryAfter(a, carry)) == FrameOf(b, CarryAfter(a, carry));
  }

  lemma OneEvent(block: seq<Bytes>)
    requires NonBlank(block) && BlockData(block) != [] && forall i :: 0 <= i < |block| ==> Plain(block[i])
    ensures var lines := block + [[]];
            && BlockFrames(lines, []) == [Frame(BlockId(block, []), Join(BlockData(block)))]
            && BlockFrames(StreamLines(CrLfText(lines)), []) == LineFrames(block, [])
            && (SingleDataBlocks(lines) <==> |BlockData(block)| == 1)
  {
    var none: seq<Bytes> := [];
    assert [[]] + none == [[]];
    var lines := block + [[]];
    FramesClose(block, none, []);
    SingleCloses(block, none);
    CrLfDoublesLines(lines);
    DoubledFrames(lines, []);
    TornCloses(block, none, []);
  }

  /** One event of two data lines, sent with CRLF, arrives as two. */
  lemma CrLfTearsEvent(a: Bytes, b: Bytes)
    requires a != [] && b != [] && Plain(a) && Plain(b) && FieldOf(a).DataField? && FieldOf(b).DataField?
    ensures |BlockFrames([a, b] + [[]], [])| == 1
    ensures |BlockFrames(StreamLines(CrLfText([a, b] + [[]])), [])| == 2
  {
    TwoLines(a, b, []);
    LoneLine(a, []);
    LoneLine(b, []);
    OneEvent([a, b]);
  }

  /** An event whose identifier follows its data keeps its number of frames under CRLF and loses the identifier. */
  lemma CrLfLosesId(a: Bytes, b: Bytes)
    requires a != [] && b != [] && Plain(a) && Plain(b) && FieldOf(a).DataField? && FieldOf(b).IdField?
    ensures SingleDataBlocks([a, b] + [[]])
    ensures BlockFrames([a, b] + [[]], []) == [Frame(FieldOf(b).value, FieldOf(a).value)]
    ensures BlockFrames(StreamLines(CrLfText([a, b] + [[]])), []) == [Frame([], FieldOf(a).value)]
  {
    TwoLines(a, b, []);
    LoneLine(a, []);
    LoneLine(b, []);
    OneEvent([a, b]);
    JoinOne(FieldOf(a).value);
  }

  const ID_X: Bytes := [105, 100, 58, 120]

  /** Such lines exist: `data` and `id:x`. */
  lemma SampleLines()
    ensures Plain(DATA) && FieldOf(DATA) == DataField([])
    ensures Plain(ID_X) && FieldOf(ID_X) == IdField([120])
  {
    assert FindColon(DATA, 0) == 4;
    assert DATA[..4] == DATA;
    assert FindColon(ID_X, 0) == 2;
    assert ID_X[..2] == ID && ID_X[3..] == [120];
  }
}
