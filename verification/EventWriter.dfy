/**
 The event streams that the server of the same program writes: a frame is its lines and a blank one.
 Whatever legal frames are written, the framer reads them back.
 */
module EventWriter {
  import opened Common
  import opened EventFramer
  import LineEnds

  /** `event: committed`. */
  const COMMITTED: Bytes := [101, 118, 101, 110, 116, 58, 32, 99, 111, 109, 109, 105, 116, 116, 101, 100]
  const EVENT: Bytes := [101, 118, 101, 110, 116]

  function Written(name: Bytes, value: Bytes): Bytes {
    name + [COLON] + ([SPACE] + value)
  }

  /** The lines of a text, at least one. */
  function Parts(data: Bytes): (r: seq<Bytes>)
    ensures r != []
  {
    if data == [] then [[]]
    else if data[0] == LF then [[]] + Parts(data[1..])
    else [[data[0]] + Parts(data[1..])[0]] + Parts(data[1..])[1..]
  }

  function DataLines(parts: seq<Bytes>): seq<Bytes> {
    if parts == [] then [] else [Written(DATA, parts[0])] + DataLines(parts[1..])
  }

  /** The lines of a frame: identifier and kind when it has one, and a data line for every line of its data. */
  function FrameLines(f: Frame): seq<Bytes> {
    (if f.id == [] then [] else [Written(ID, f.id), COMMITTED]) + DataLines(Parts(f.data))
  }

  function StreamOf(frames: seq<Frame>): seq<Bytes> {
    if frames == [] then [] else FrameLines(frames[0]) + ([[]] + StreamOf(frames[1..]))
  }

  function Text(lines: seq<Bytes>): Bytes {
    if lines == [] then [] else lines[0] + ([LF] + Text(lines[1..]))
  }

  /** A frame that can be written: its identifier is legal, its data has no CR, and both are within their limits. */
  predicate Writable(f: Frame, accepts: Bytes -> bool) {
    && |f.id| <= MAX_ID && (forall b :: b in f.id ==> b >= 32 && b != 127)
    && CR !in f.data && |f.data| <= MAX_DATA && accepts(f.data)
    && forall i :: 0 <= i < |Parts(f.data)| ==> |Parts(f.data)[i]| + 6 <= MAX_LINE
  }

  // ------------------------------------------------------------------------- lines of data

  lemma JoinFront(first: Bytes, rest: seq<Bytes>)
    requires rest != []
    ensures Join([first] + rest) == first + [LF] + Join(rest)
  {
    ConsParts(first, rest);
  }

  lemma JoinOne(v: Bytes)
    ensures Join([v]) == v
  {
  }

  /** One octet in front of the first line is one in front of the text. */
  lemma JoinOctet(b: Byte, parts: seq<Bytes>)
    requires parts != []
    ensures Join([[b] + parts[0]] + parts[1..]) == [b] + Join(parts)
  {
    var first, rest := parts[0], parts[1..];
    assert parts == [first] + rest;
    if rest == [] {
      assert [[b] + first] + rest == [[b] + first];
      JoinOne([b] + first);
      JoinOne(first);
    } else {
      JoinFront([b] + first, rest);
      JoinFront(first, rest);
      Associate([b], first, [LF]);
      Associate([b], first + [LF], Join(rest));
    }
  }

  /** Cutting a text into lines loses nothing. */
  lemma {:induction false} JoinParts(data: Bytes)
    ensures Join(Parts(data)) == data
    decreases |data|
  {
    if data == [] {
      JoinOne([]);
    } else {
      var rest := Parts(data[1..]);
      JoinParts(data[1..]);
      assert data == [data[0]] + data[1..];
      if data[0] == LF {
        JoinFront([], rest);
        assert [] + [LF] + Join(rest) == [LF] + Join(rest);
      } else {
        JoinOctet(data[0], rest);
      }
    }
  }

  lemma {:induction false} PartsPlain(data: Bytes, i: nat)
    requires CR !in data && i < |Parts(data)|
    ensures LineEnds.Plain(Parts(data)[i])
    decreases |data|
  {
    if data != [] {
      var tail := data[1..];
      assert data[0] in data && forall b :: b in tail ==> b in data;
      if data[0] == LF {
        if i > 0 { PartsPlain(tail, i - 1); }
      } else {
        PartsPlain(tail, i);
        if i == 0 { FrontPlain(data[0], Parts(tail)[0]); }
      }
    }
  }

  lemma FrontPlain(b: Byte, line: Bytes)
    requires !LineEnd(b) && LineEnds.Plain(line)
    ensures LineEnds.Plain([b] + line)
  {
  }

  // ------------------------------------------------------------------------ lines of frames

  /** A written line: not blank, without line ends, and read back as its value. */
  lemma WrittenData(value: Bytes)
    requires LineEnds.Plain(value)
    ensures var line := Written(DATA, value);
            && line != [] && |line| == |value| + 6 && LineEnds.Plain(line) && FieldOf(line) == DataField(value)
  {
    DataLineMeans([SPACE] + value, value);
  }

  lemma WrittenId(value: Bytes)
    requires |value| <= MAX_ID && forall b :: b in value ==> b >= 32 && b != 127
    ensures var line := Written(ID, value);
            && line != [] && |line| == |value| + 4 && LineEnds.Plain(line) && FieldOf(line) == IdField(value)
  {
    IdLineMeans([SPACE] + value, value);
    assert 0 !in value;
    forall i | 0 <= i < |value| ensures !LineEnd(value[i]) {
      assert value[i] in value;
    }
  }

  lemma CommittedIgnored()
    ensures LineEnds.Plain(COMMITTED) && FieldOf(COMMITTED) == Ignored
  {
    var rest: Bytes := [32, 99, 111, 109, 109, 105, 116, 116, 101, 100];
    assert COMMITTED == EVENT + [COLON] + rest;
    assert EVENT[0] != DATA[0] && EVENT[0] != ID[0];
    OtherLineMeans(EVENT, rest);
  }

  /** Lines that a framer can take. */
  ghost predicate Sound(lines: seq<Bytes>) {
    forall i :: 0 <= i < |lines| ==> lines[i] != [] && LineEnds.Plain(lines[i]) && LineAdmitted(lines[i])
  }

  lemma SoundCons(line: Bytes, rest: seq<Bytes>)
    requires line != [] && LineEnds.Plain(line) && LineAdmitted(line) && Sound(rest)
    ensures Sound([line] + rest)
    ensures BlockData([line] + rest) == (match FieldOf(line) case DataField(v) => [v] case _ => []) + BlockData(rest)
    ensures forall id :: BlockId([line] + rest, id) ==
                         BlockId(rest, match FieldOf(line) case IdField(v) => v case _ => id)
  {
    ConsParts(line, rest);
  }

  lemma {:induction false} DataLinesRead(parts: seq<Bytes>)
    requires forall i :: 0 <= i < |parts| ==> LineEnds.Plain(parts[i]) && |parts[i]| + 6 <= MAX_LINE
    ensures Sound(DataLines(parts)) && BlockData(DataLines(parts)) == parts
    ensures forall id :: BlockId(DataLines(parts), id) == id
    decreases |parts|
  {
    if parts != [] {
      DataLinesRead(parts[1..]);
      WrittenData(parts[0]);
      SoundCons(Written(DATA, parts[0]), DataLines(parts[1..]));
    }
  }

  /** The lines of a frame give its data and its identifier. */
  lemma FrameLinesRead(f: Frame, accepts: Bytes -> bool)
    requires Writable(f, accepts)
    ensures Sound(FrameLines(f)) && BlockData(FrameLines(f)) == Parts(f.data) && BlockId(FrameLines(f), []) == f.id
  {
    var parts := Parts(f.data);
    forall i | 0 <= i < |parts| ensures LineEnds.Plain(parts[i]) {
      PartsPlain(f.data, i);
    }
    DataLinesRead(parts);
    var data := DataLines(parts);
    if f.id == [] {
      assert FrameLines(f) == data;
    } else {
      WrittenId(f.id);
      CommittedIgnored();
      SoundCons(COMMITTED, data);
      SoundCons(Written(ID, f.id), [COMMITTED] + data);
      assert FrameLines(f) == [Written(ID, f.id)] + ([COMMITTED] + data);
    }
  }

  // ----------------------------------------------------------------------------- streams

  predicate AllPlain(lines: seq<Bytes>) {
    forall i :: 0 <= i < |lines| ==> LineEnds.Plain(lines[i])
  }

  /** Lines written with LF are the lines read. */
  lemma {:induction false} TextLines(lines: seq<Bytes>)
    requires AllPlain(lines)
    ensures CutLines(Text(lines), []) == Cut(lines, [])
    decreases |lines|
  {
    if lines != [] {
      var line, rest := lines[0], lines[1..];
      TextLines(rest);
      LineEnds.CutPlain(line, [LF] + Text(rest), []);
      ConsParts(LF, Text(rest));
      assert [] + line == line;
      assert lines == [line] + rest;
    }
  }

  lemma OpenCloses(block: seq<Bytes>, rest: seq<Bytes>)
    requires NonBlank(block)
    ensures OpenData(block + ([[]] + rest)) == OpenData(rest)
  {
    var lines := block + ([[]] + rest);
    FirstBlankIs(lines, |block|);
    assert lines[|block| + 1..] == rest;
  }

  /** One written frame in front of others. */
  lemma FrameInFront(f: Frame, rest: seq<Bytes>, count: nat, accepts: Bytes -> bool)
    requires Writable(f, accepts) && count < MAX_EVENTS
    ensures var lines := FrameLines(f) + ([[]] + rest);
            && BlockFrames(lines, []) == [f] + BlockFrames(rest, [])
            && OpenData(lines) == OpenData(rest)
            && (Admitted(lines, count, accepts) <==> Admitted(rest, count + 1, accepts))
            && (AllPlain(rest) ==> AllPlain(lines))
  {
    var block := FrameLines(f);
    FrameLinesRead(f, accepts);
    JoinParts(f.data);
    OpenCloses(block, rest);
    FramesClose(block, rest, []);
    AdmittedCloses(block, rest, count, accepts);
  }

  lemma {:induction false} StreamRead(frames: seq<Frame>, count: nat, accepts: Bytes -> bool)
    requires (forall i :: 0 <= i < |frames| ==> Writable(frames[i], accepts)) && count + |frames| <= MAX_EVENTS
    ensures BlockFrames(StreamOf(frames), []) == frames && OpenData(StreamOf(frames)) == []
    ensures Admitted(StreamOf(frames), count, accepts) && AllPlain(StreamOf(frames))
    decreases |frames|
  {
    if frames != [] {
      StreamRead(frames[1..], count + 1, accepts);
      FrameInFront(frames[0], StreamOf(frames[1..]), count, accepts);
      assert frames == [frames[0]] + frames[1..];
    }
  }

  /** Whatever legal frames are written, in whatever chunks they arrive, they are read back. */
  lemma WrittenIsRead(frames: seq<Frame>, chunks: seq<Bytes>, accepts: Bytes -> bool)
    requires frames != [] && |frames| <= MAX_EVENTS
    requires forall i :: 0 <= i < |frames| ==> Writable(frames[i], accepts)
    requires Concat(chunks) == Text(StreamOf(frames))
    ensures Finish(FeedChunks(Going(INITIAL), chunks, accepts), accepts) == Ok(frames)
  {
    var text := Text(StreamOf(frames));
    ChunkingIrrelevant(Going(INITIAL), chunks, accepts);
    StreamRead(frames, 0, accepts);
    TextLines(StreamOf(frames));
    assert StreamLines(text) == StreamOf(frames);
    FramerIsReference(text, accepts);
  }
}
