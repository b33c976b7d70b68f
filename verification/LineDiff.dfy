/**
 The file-change preview of the command line client: a bounded line splitter, a
 longest-common-subsequence table filled backwards in place, and the greedy walk
 that prints the edit script.
 */
module LineDiff {
  import opened Common

  const LF := '\n'
  const MAX_LINES := 40
  const MAX_BYTES := 8192
  const MAX_LINE_BYTES := 1024
  const MAX_CELLS := 41 * 41

  // ---------------------------------------------------------------- splitting

  /** The lines of a text. A final line feed ends the last line and opens no new one. */
  function Lines(content: string): seq<string> {
    LinesFrom(content, 0)
  }

  function LinesFrom(content: string, offset: nat): seq<string>
    requires offset <= |content|
    decreases |content| - offset
  {
    if offset == |content| then []
    else
      var end := FindLf(content, offset);
      if end == |content| then [content[offset..end]] else [content[offset..end]] + LinesFrom(content, end + 1)
  }

  /** The first line feed at or after `from`, or the length when there is none. */
  function FindLf(content: string, from: nat): (end: nat)
    requires from <= |content|
    ensures from <= end <= |content|
    decreases |content| - from
  {
    if from == |content| || content[from] == LF then from else FindLf(content, from + 1)
  }

  lemma {:induction false} FindLfFirst(content: string, from: nat)
    requires from <= |content|
    ensures var end := FindLf(content, from);
            && (forall k :: from <= k < end ==> content[k] != LF)
            && (end < |content| ==> content[end] == LF)
    decreases |content| - from
  {
    if from < |content| && content[from] != LF {
      FindLfFirst(content, from + 1);
    }
  }

  function Terminated(lines: seq<string>): string {
    if lines == [] then [] else lines[0] + [LF] + Terminated(lines[1..])
  }

  lemma TerminatedCons(line: string, rest: seq<string>)
    ensures Terminated([line] + rest) == line + [LF] + Terminated(rest)
  {
    ConsParts(line, rest);
  }

  /** No line holds a line feed. */
  lemma {:induction false} LinesHoldNoLf(content: string, offset: nat, i: nat)
    requires offset <= |content| && i < |LinesFrom(content, offset)|
    ensures LF !in LinesFrom(content, offset)[i]
    decreases |content| - offset
  {
    var end := FindLf(content, offset);
    if i == 0 {
      FindLfFirst(content, offset);
    } else {
      LinesHoldNoLf(content, end + 1, i - 1);
    }
  }

  /** The line feed that the last line of a text may lack. */
  function MissingLf(content: string): string {
    if content == [] || content[|content| - 1] == LF then [] else [LF]
  }

  lemma RejoinStep(content: string, offset: nat, end: nat, tail: string, extra: string)
    requires offset <= end < |content| && content[end] == LF
    requires tail == content[end + 1..] + extra
    ensures content[offset..end] + [LF] + tail == content[offset..] + extra
  {
    assert content[offset..] == content[offset..end] + [LF] + content[end + 1..];
  }

  lemma RejoinLast(content: string, offset: nat)
    requires offset < |content| && FindLf(content, offset) == |content|
    ensures Terminated([content[offset..]]) == content[offset..] + MissingLf(content)
  {
    var line := content[offset..];
    FindLfFirst(content, offset);
    assert [line] + [] == [line];
    TerminatedCons(line, []);
    assert line + [LF] + [] == line + [LF];
  }

  /** Splitting loses nothing but the presence of the last line feed. */
  lemma {:induction false} LinesRejoin(content: string, offset: nat)
    requires offset <= |content|
    ensures Terminated(LinesFrom(content, offset)) ==
            if offset == |content| then [] else content[offset..] + MissingLf(content)
    decreases |content| - offset
  {
    if offset < |content| {
      var end := FindLf(content, offset);
      FindLfFirst(content, offset);
      if end < |content| {
        LinesRejoin(content, end + 1);
        TerminatedCons(content[offset..end], LinesFrom(content, end + 1));
        RejoinTail(content, end);
        RejoinStep(content, offset, end, Terminated(LinesFrom(content, end + 1)), MissingLf(content));
      } else {
        RejoinLast(content, offset);
        assert content[offset..end] == content[offset..];
      }
    }
  }

  /** A content that ends with a line feed lacks none. */
  lemma RejoinTail(content: string, end: nat)
    requires end < |content| && content[end] == LF
    ensures end + 1 == |content| ==> [] == content[end + 1..] + MissingLf(content)
  {
  }

  /** The splitter's specification: lines without a line feed that make up the content. */
  lemma LinesSplit(content: string)
    ensures forall i :: 0 <= i < |Lines(content)| ==> LF !in Lines(content)[i]
    ensures Terminated(Lines(content)) == content + MissingLf(content)
  {
    forall i | 0 <= i < |Lines(content)| ensures LF !in Lines(content)[i] {
      LinesHoldNoLf(content, 0, i);
    }
    LinesRejoin(content, 0);
    assert content[0..] == content;
  }

  datatype Preview = Preview(lines: seq<string>, truncated: bool)

  /** The part of `lines` that still fits after `count` lines and `bytes` encoded bytes. */
  function Clip(lines: seq<string>, count: nat, bytes: nat, encodedSize: string -> nat): Preview {
    if lines == [] then Preview([], false)
    else if count >= MAX_LINES || bytes >= MAX_BYTES then Preview([], true)
    else
      var line := lines[0][..Min(|lines[0]|, MAX_LINE_BYTES)];
      if bytes + encodedSize(line) > MAX_BYTES then Preview([], true)
      else if |line| < |lines[0]| then Preview([line], true)
      else
        var rest := Clip(lines[1..], count + 1, bytes + encodedSize(line), encodedSize);
        Preview([line] + rest.lines, rest.truncated)
  }

  function EncodedTotal(lines: seq<string>, encodedSize: string -> nat): nat {
    if lines == [] then 0 else encodedSize(lines[0]) + EncodedTotal(lines[1..], encodedSize)
  }

  /** Every budget is respected. */
  lemma {:induction false} ClipWithinBudget(lines: seq<string>, count: nat, bytes: nat, encodedSize: string -> nat)
    requires count <= MAX_LINES && bytes <= MAX_BYTES
    ensures var out := Clip(lines, count, bytes, encodedSize).lines;
            && count + |out| <= MAX_LINES
            && bytes + EncodedTotal(out, encodedSize) <= MAX_BYTES
            && forall line :: line in out ==> |line| <= MAX_LINE_BYTES
  {
    var out := Clip(lines, count, bytes, encodedSize).lines;
    if out != [] {
      var line := lines[0][..Min(|lines[0]|, MAX_LINE_BYTES)];
      if |line| == |lines[0]| {
        ClipWithinBudget(lines[1..], count + 1, bytes + encodedSize(line), encodedSize);
        assert out[1..] == Clip(lines[1..], count + 1, bytes + encodedSize(line), encodedSize).lines;
      } else {
        assert out[1..] == [];
      }
    }
  }

  /** A preview against the lines it was taken from. */
  ghost predicate Faithful(p: Preview, lines: seq<string>) {
    && |p.lines| <= |lines|
    && (forall i :: 0 <= i < |p.lines| ==> p.lines[i] <= lines[i])
    && (forall i :: 0 <= i < |p.lines| - 1 ==> p.lines[i] == lines[i])
    && (p.truncated <==> p.lines != lines)
  }

  lemma FaithfulCons(line: string, p: Preview, rest: seq<string>)
    requires Faithful(p, rest)
    ensures Faithful(Preview([line] + p.lines, p.truncated), [line] + rest)
  {
    var a, b := [line] + p.lines, [line] + rest;
    assert a[1..] == p.lines && b[1..] == rest;
    assert forall i :: 1 <= i < |a| ==> a[i] == p.lines[i - 1];
    assert forall i :: 1 <= i < |b| ==> b[i] == rest[i - 1];
  }

  lemma FaithfulCut(line: string, lines: seq<string>)
    requires lines != [] && line <= lines[0] && line != lines[0]
    ensures Faithful(Preview([line], true), lines)
  {
    var one := [line];
    assert one[0] == line;
  }

  /**
   What is shown is a prefix of the real lines, except that the last shown line may be
   a prefix of its own line; and the truncation mark is set exactly when something is missing.
   */
  lemma {:induction false} ClipFaithful(lines: seq<string>, count: nat, bytes: nat, encodedSize: string -> nat)
    ensures Faithful(Clip(lines, count, bytes, encodedSize), lines)
    decreases |lines|
  {
    if lines != [] && count < MAX_LINES && bytes < MAX_BYTES {
      var line := lines[0][..Min(|lines[0]|, MAX_LINE_BYTES)];
      if bytes + encodedSize(line) <= MAX_BYTES {
        if |line| == |lines[0]| {
          assert line == lines[0];
          assert lines == [line] + lines[1..];
          ClipFaithful(lines[1..], count + 1, bytes + encodedSize(line), encodedSize);
          FaithfulCons(line, Clip(lines[1..], count + 1, bytes + encodedSize(line), encodedSize), lines[1..]);
        } else {
          FaithfulCut(line, lines);
        }
      }
    }
  }

  /** A line as far as it is shown. */
  function Head(line: string): string {
    line[..Min(|line|, MAX_LINE_BYTES)]
  }

  /** What stops a preview: its last line is too long, or the next line has no room. */
  ghost predicate Stopped(shown: seq<string>, lines: seq<string>, count: nat, bytes: nat, encodedSize: string -> nat) {
    var n := |shown|;
    && n <= |lines| && (forall i :: 0 <= i < n ==> shown[i] == Head(lines[i]))
    && (|| (n > 0 && |lines[n - 1]| > MAX_LINE_BYTES)
        || (n < |lines|
            && (|| count + n >= MAX_LINES
                || bytes + EncodedTotal(shown, encodedSize) + encodedSize(Head(lines[n])) > MAX_BYTES
                || bytes + EncodedTotal(shown, encodedSize) >= MAX_BYTES)))
  }

  lemma StoppedCons(line: string, shown: seq<string>, lines: seq<string>, count: nat, bytes: nat,
                    encodedSize: string -> nat)
    requires Stopped(shown, lines, count + 1, bytes + encodedSize(line), encodedSize) && line == Head(line)
    ensures Stopped([line] + shown, [line] + lines, count, bytes, encodedSize)
  {
    ConsParts(line, shown);
    var all, whole := [line] + shown, [line] + lines;
    assert forall i :: 1 <= i < |all| ==> all[i] == shown[i - 1];
    assert forall i :: 1 <= i < |whole| ==> whole[i] == lines[i - 1];
  }

  /** Nothing is left out that the budgets have room for. */
  lemma {:induction false} ClipMaximal(lines: seq<string>, count: nat, bytes: nat, encodedSize: string -> nat)
    ensures var p := Clip(lines, count, bytes, encodedSize);
            p.truncated ==> Stopped(p.lines, lines, count, bytes, encodedSize)
    decreases |lines|
  {
    if lines != [] && count < MAX_LINES && bytes < MAX_BYTES {
      var line := Head(lines[0]);
      if bytes + encodedSize(line) <= MAX_BYTES {
        if |line| == |lines[0]| {
          ClipMaximal(lines[1..], count + 1, bytes + encodedSize(line), encodedSize);
          assert line == lines[0] && lines == [line] + lines[1..];
          var rest := Clip(lines[1..], count + 1, bytes + encodedSize(line), encodedSize);
          if rest.truncated {
            StoppedCons(line, rest.lines, lines[1..], count, bytes, encodedSize);
          }
        } else {
          var one := [line];
          assert one[0] == Head(lines[0]);
        }
      }
    }
  }

  /** The loop of the source: what it returns once `shown` has been collected up to `offset`. */
  function ClipFrom(content: string, offset: nat, shown: seq<string>, bytes: nat, encodedSize: string -> nat): Preview
    requires offset <= |content|
    decreases |content| - offset
  {
    if offset == |content| then Preview(shown, false)
    else if |shown| >= MAX_LINES || bytes >= MAX_BYTES then Preview(shown, true)
    else
      var end := FindLf(content, offset);
      var line := content[offset..offset + Min(end - offset, MAX_LINE_BYTES)];
      if bytes + encodedSize(line) > MAX_BYTES then Preview(shown, true)
      else if |line| < end - offset then Preview(shown + [line], true)
      else if end == |content| then Preview(shown + [line], false)
      else ClipFrom(content, end + 1, shown + [line], bytes + encodedSize(line), encodedSize)
  }

  function After(shown: seq<string>, p: Preview): Preview {
    Preview(shown + p.lines, p.truncated)
  }

  /** What is shown with one more line: nothing of it when over budget, all there is when cut, else what follows too. */
  function Shows(shown: seq<string>, line: string, over: bool, cut: bool, more: Preview): Preview {
    if over then Preview(shown, true) else if cut then Preview(shown + [line], true) else more
  }

  /** One line moves from the pending part to the shown part. */
  lemma ClipShowsLine(shown: seq<string>, whole: string, rest: seq<string>, bytes: nat, encodedSize: string -> nat)
    requires |shown| < MAX_LINES && bytes < MAX_BYTES
    ensures var line := whole[..Min(|whole|, MAX_LINE_BYTES)];
            After(shown, Clip([whole] + rest, |shown|, bytes, encodedSize)) ==
            Shows(shown, line, bytes + encodedSize(line) > MAX_BYTES, |line| < |whole|,
                  After(shown + [line], Clip(rest, |shown + [line]|, bytes + encodedSize(line), encodedSize)))
  {
    ConsParts(whole, rest);
    var line := whole[..Min(|whole|, MAX_LINE_BYTES)];
    if bytes + encodedSize(line) <= MAX_BYTES && |line| == |whole| {
      var tail := Clip(rest, |shown| + 1, bytes + encodedSize(line), encodedSize).lines;
      assert shown + ([line] + tail) == shown + [line] + tail;
    }
  }

  /** The first line of a text and the lines behind it. */
  lemma LinesUnfold(content: string, offset: nat, end: nat)
    requires offset < |content| && end == FindLf(content, offset)
    ensures LinesFrom(content, offset) ==
            [content[offset..end]] + if end < |content| then LinesFrom(content, end + 1) else []
  {
  }

  /** One line of the scan. */
  lemma ClipFromUnfold(content: string, offset: nat, shown: seq<string>, bytes: nat, encodedSize: string -> nat,
                       line: string, end: nat)
    requires offset < |content| && |shown| < MAX_LINES && bytes < MAX_BYTES && end == FindLf(content, offset)
    requires line == content[offset..offset + Min(end - offset, MAX_LINE_BYTES)]
    ensures ClipFrom(content, offset, shown, bytes, encodedSize) ==
            Shows(shown, line, bytes + encodedSize(line) > MAX_BYTES, |line| < end - offset,
                  if end == |content| then Preview(shown + [line], false)
                  else ClipFrom(content, end + 1, shown + [line], bytes + encodedSize(line), encodedSize))
  {
  }

  lemma TakePrefix(content: string, offset: nat, end: nat, n: nat)
    requires offset <= end <= |content| && n <= end - offset
    ensures content[offset..end][..n] == content[offset..offset + n]
  {
  }

  /** A scan that shows the first line as the clipping does, and agrees on the rest, agrees. */
  lemma ClipAgrees(scan: Preview, next: Preview, lines: seq<string>, whole: string, rest: seq<string>,
                   shown: seq<string>, bytes: nat, encodedSize: string -> nat, line: string)
    requires |shown| < MAX_LINES && bytes < MAX_BYTES
    requires lines == [whole] + rest && line == whole[..Min(|whole|, MAX_LINE_BYTES)]
    requires scan == Shows(shown, line, bytes + encodedSize(line) > MAX_BYTES, |line| < |whole|, next)
    requires next == After(shown + [line], Clip(rest, |shown + [line]|, bytes + encodedSize(line), encodedSize))
    ensures scan == After(shown, Clip(lines, |shown|, bytes, encodedSize))
  {
    ClipShowsLine(shown, whole, rest, bytes, encodedSize);
  }

  /** A line with another behind it. */
  lemma ClipFromMiddle(content: string, offset: nat, shown: seq<string>, bytes: nat, encodedSize: string -> nat,
                       line: string, end: nat)
    requires offset < |content| && |shown| < MAX_LINES && bytes < MAX_BYTES
    requires end == FindLf(content, offset) < |content|
    requires line == content[offset..offset + Min(end - offset, MAX_LINE_BYTES)]
    requires ClipFrom(content, end + 1, shown + [line], bytes + encodedSize(line), encodedSize) ==
             After(shown + [line],
                   Clip(LinesFrom(content, end + 1), |shown + [line]|, bytes + encodedSize(line), encodedSize))
    ensures ClipFrom(content, offset, shown, bytes, encodedSize) ==
            After(shown, Clip(LinesFrom(content, offset), |shown|, bytes, encodedSize))
  {
    TakePrefix(content, offset, end, |line|);
    LinesUnfold(content, offset, end);
    assert |content[offset..end]| == end - offset;
    ClipFromUnfold(content, offset, shown, bytes, encodedSize, line, end);
    ClipAgrees(ClipFrom(content, offset, shown, bytes, encodedSize),
               ClipFrom(content, end + 1, shown + [line], bytes + encodedSize(line), encodedSize),
               LinesFrom(content, offset), content[offset..end], LinesFrom(content, end + 1),
               shown, bytes, encodedSize, line);
  }

  /** The last line. */
  lemma ClipFromLast(content: string, offset: nat, shown: seq<string>, bytes: nat, encodedSize: string -> nat,
                     line: string, end: nat)
    requires offset < |content| && |shown| < MAX_LINES && bytes < MAX_BYTES
    requires end == FindLf(content, offset) == |content|
    requires line == content[offset..offset + Min(end - offset, MAX_LINE_BYTES)]
    ensures ClipFrom(content, offset, shown, bytes, encodedSize) ==
            After(shown, Clip(LinesFrom(content, offset), |shown|, bytes, encodedSize))
  {
    TakePrefix(content, offset, end, |line|);
    LinesUnfold(content, offset, end);
    assert |content[offset..end]| == end - offset;
    ClipFromUnfold(content, offset, shown, bytes, encodedSize, line, end);
    NothingAfter(shown + [line], bytes + encodedSize(line), encodedSize);
    ClipAgrees(ClipFrom(content, offset, shown, bytes, encodedSize), Preview(shown + [line], false),
               LinesFrom(content, offset), content[offset..end], [], shown, bytes, encodedSize, line);
  }

  lemma NothingAfter(shown: seq<string>, bytes: nat, encodedSize: string -> nat)
    ensures After(shown, Clip([], |shown|, bytes, encodedSize)) == Preview(shown, false)
  {
    assert shown + [] == shown;
  }

  /** Walking byte offsets selects the same lines as clipping the split text. */
  lemma {:induction false} ClipFromIsClip(content: string, offset: nat, shown: seq<string>, bytes: nat,
                                          encodedSize: string -> nat)
    requires offset <= |content|
    ensures ClipFrom(content, offset, shown, bytes, encodedSize) ==
            After(shown, Clip(LinesFrom(content, offset), |shown|, bytes, encodedSize))
    decreases |content| - offset
  {
    if offset < |content| && |shown| < MAX_LINES && bytes < MAX_BYTES {
      var end := FindLf(content, offset);
      var line := content[offset..offset + Min(end - offset, MAX_LINE_BYTES)];
      if end < |content| {
        ClipFromIsClip(content, end + 1, shown + [line], bytes + encodedSize(line), encodedSize);
        ClipFromMiddle(content, offset, shown, bytes, encodedSize, line, end);
      } else {
        ClipFromLast(content, offset, shown, bytes, encodedSize, line, end);
      }
    } else {
      ClipFromStops(content, offset, shown, bytes, encodedSize);
    }
  }

  lemma ClipFromStops(content: string, offset: nat, shown: seq<string>, bytes: nat, encodedSize: string -> nat)
    requires offset == |content| || (offset < |content| && (|shown| >= MAX_LINES || bytes >= MAX_BYTES))
    ensures ClipFrom(content, offset, shown, bytes, encodedSize) ==
            After(shown, Clip(LinesFrom(content, offset), |shown|, bytes, encodedSize))
  {
    assert shown + [] == shown;
  }

  /** One round of the scan: it stops with a preview, or goes on behind the line. */
  method ScanLine(content: string, offset: nat, lines0: seq<string>, bytes0: nat, encodedSize: string -> nat)
    returns (stop: bool, r: Preview, next: nat, lines: seq<string>, bytes: nat)
    requires offset < |content|
    ensures stop ==> ClipFrom(content, offset, lines0, bytes0, encodedSize) == r
    ensures !stop ==> offset < next <= |content|
                      && ClipFrom(content, offset, lines0, bytes0, encodedSize) ==
                        ClipFrom(content, next, lines, bytes, encodedSize)
  {
    stop, r, next, lines, bytes := true, Preview(lines0, true), offset, lines0, bytes0;
    if |lines| >= MAX_LINES || bytes >= MAX_BYTES { return; }
    var end := FindLf(content, offset);
    var length := end - offset;
    var take := Min(length, MAX_LINE_BYTES);
    var line := content[offset..offset + take];
    ClipFromUnfold(content, offset, lines, bytes, encodedSize, line, end);
    if bytes + encodedSize(line) > MAX_BYTES { return; }
    lines, bytes := lines + [line], bytes + encodedSize(line);
    r := Preview(lines, take < length);
    if take < length || end == |content| { return; }
    stop, next := false, end + 1;
  }

  /** `preview_lines`: the offset and byte counters of the source. */
  method PreviewLines(content: string, encodedSize: string -> nat) returns (r: Preview)
    ensures r == Clip(Lines(content), 0, 0, encodedSize)
  {
    ClipFromIsClip(content, 0, [], 0, encodedSize);
    var lines: seq<string> := [];
    var offset: nat, bytes: nat := 0, 0;
    while offset < |content|
      invariant offset <= |content|
      invariant ClipFrom(content, 0, [], 0, encodedSize) == ClipFrom(content, offset, lines, bytes, encodedSize)
    {
      var stop;
      stop, r, offset, lines, bytes := ScanLine(content, offset, lines, bytes, encodedSize);
      if stop {
        ShownFromStart(r, content, encodedSize);
        return;
      }
    }
    r := Preview(lines, false);
    ShownFromStart(r, content, encodedSize);
  }

  lemma ShownFromStart(r: Preview, content: string, encodedSize: string -> nat)
    requires r == After([], Clip(Lines(content), 0, 0, encodedSize))
    ensures r == Clip(Lines(content), 0, 0, encodedSize)
  {
    var p := Clip(Lines(content), 0, 0, encodedSize);
    assert [] + p.lines == p.lines;
  }

  // ------------------------------------------------------ common subsequences

  /** `c` can be obtained from `s` by deleting elements. */
  predicate Subsequence<T(==)>(c: seq<T>, s: seq<T>) {
    c == [] || (s != [] && ((c[0] == s[0] && Subsequence(c[1..], s[1..])) || Subsequence(c, s[1..])))
  }

  /** The recurrence that the table tabulates, for the suffixes that start at `i` and `j`. */
  function LcsLength<T(==)>(a: seq<T>, b: seq<T>, i: nat, j: nat): nat
    requires i <= |a| && j <= |b|
    decreases |a| - i + |b| - j
  {
    if i == |a| || j == |b| then 0
    else if a[i] == b[j] then 1 + LcsLength(a, b, i + 1, j + 1)
    else Max(LcsLength(a, b, i + 1, j), LcsLength(a, b, i, j + 1))
  }

  lemma {:induction false} SubsequenceTail<T>(c: seq<T>, s: seq<T>)
    requires c != [] && Subsequence(c, s)
    ensures Subsequence(c[1..], s)
    decreases |s|
  {
    if c[0] == s[0] && Subsequence(c[1..], s[1..]) {
      if c[1..] != [] {
        assert Subsequence(c[1..], s[1..]);
      }
    } else {
      SubsequenceTail(c, s[1..]);
    }
  }

  /** A leading match can always be taken. */
  lemma {:induction false} SubsequenceGreedy<T>(c: seq<T>, s: seq<T>)
    requires c != [] && s != [] && c[0] == s[0] && Subsequence(c, s)
    ensures Subsequence(c[1..], s[1..])
  {
    if !Subsequence(c[1..], s[1..]) {
      SubsequenceTail(c, s[1..]);
    }
  }

  /** No common subsequence is longer than the recurrence says. */
  lemma {:induction false} LcsIsUpperBound<T>(c: seq<T>, a: seq<T>, b: seq<T>, i: nat, j: nat)
    requires i <= |a| && j <= |b|
    requires Subsequence(c, a[i..]) && Subsequence(c, b[j..])
    ensures |c| <= LcsLength(a, b, i, j)
    decreases |a| - i + |b| - j
  {
    if c != [] {
      assert a[i..][1..] == a[i + 1..] && b[j..][1..] == b[j + 1..];
      if a[i] == b[j] {
        if c[0] == a[i] {
          SubsequenceGreedy(c, a[i..]);
          SubsequenceGreedy(c, b[j..]);
          LcsIsUpperBound(c[1..], a, b, i + 1, j + 1);
        } else {
          LcsIsUpperBound(c, a, b, i + 1, j + 1);
        }
      } else if c[0] != a[i] {
        LcsIsUpperBound(c, a, b, i + 1, j);
      } else {
        LcsIsUpperBound(c, a, b, i, j + 1);
      }
    }
  }

  // ------------------------------------------------------------- edit scripts

  datatype Edit<T> = Keep(line: T) | Delete(line: T) | Insert(line: T)

  /** The script without its '+' lines. */
  function OldSide<T>(e: seq<Edit<T>>): seq<T> {
    if e == [] then [] else (if e[0].Insert? then [] else [e[0].line]) + OldSide(e[1..])
  }

  /** The script without its '-' lines. */
  function NewSide<T>(e: seq<Edit<T>>): seq<T> {
    if e == [] then [] else (if e[0].Delete? then [] else [e[0].line]) + NewSide(e[1..])
  }

  /** The context lines of the script. */
  function Context<T>(e: seq<Edit<T>>): seq<T> {
    if e == [] then [] else (if e[0].Keep? then [e[0].line] else []) + Context(e[1..])
  }

  /** The greedy walk: take a match, otherwise follow the larger neighbour, deletions first. */
  function Script<T(==)>(a: seq<T>, b: seq<T>, i: nat, j: nat): seq<Edit<T>>
    requires i <= |a| && j <= |b|
    decreases |a| - i + |b| - j
  {
    if i == |a| && j == |b| then []
    else if i < |a| && j < |b| && a[i] == b[j] then [Keep(a[i])] + Script(a, b, i + 1, j + 1)
    else if i < |a| && (j == |b| || LcsLength(a, b, i + 1, j) >= LcsLength(a, b, i, j + 1)) then
      [Delete(a[i])] + Script(a, b, i + 1, j)
    else [Insert(b[j])] + Script(a, b, i, j + 1)
  }

  lemma {:induction false} PrependEdit<T>(x: Edit<T>, e: seq<Edit<T>>)
    ensures OldSide([x] + e) == (if x.Insert? then [] else [x.line]) + OldSide(e)
    ensures NewSide([x] + e) == (if x.Delete? then [] else [x.line]) + NewSide(e)
    ensures Context([x] + e) == (if x.Keep? then [x.line] else []) + Context(e)
  {
    assert ([x] + e)[1..] == e;
  }

  /** What a script from `i` and `j` on is to do. */
  ghost predicate Transforms<T>(e: seq<Edit<T>>, a: seq<T>, b: seq<T>, i: nat, j: nat, kept: nat)
    requires i <= |a| && j <= |b|
  {
    OldSide(e) == a[i..] && NewSide(e) == b[j..] && |Context(e)| == kept
  }

  lemma KeepStep<T>(e: seq<Edit<T>>, a: seq<T>, b: seq<T>, i: nat, j: nat, kept: nat)
    requires i < |a| && j < |b| && a[i] == b[j] && Transforms(e, a, b, i + 1, j + 1, kept)
    ensures Transforms([Keep(a[i])] + e, a, b, i, j, kept + 1)
  {
    PrependEdit(Keep(a[i]), e);
    assert a[i..] == [a[i]] + a[i + 1..] && b[j..] == [b[j]] + b[j + 1..];
  }

  lemma DeleteStep<T>(e: seq<Edit<T>>, a: seq<T>, b: seq<T>, i: nat, j: nat, kept: nat)
    requires i < |a| && j <= |b| && Transforms(e, a, b, i + 1, j, kept)
    ensures Transforms([Delete(a[i])] + e, a, b, i, j, kept)
  {
    PrependEdit(Delete(a[i]), e);
    assert a[i..] == [a[i]] + a[i + 1..] && [] + b[j..] == b[j..];
  }

  lemma InsertStep<T>(e: seq<Edit<T>>, a: seq<T>, b: seq<T>, i: nat, j: nat, kept: nat)
    requires i <= |a| && j < |b| && Transforms(e, a, b, i, j + 1, kept)
    ensures Transforms([Insert(b[j])] + e, a, b, i, j, kept)
  {
    PrependEdit(Insert(b[j]), e);
    assert b[j..] == [b[j]] + b[j + 1..] && [] + a[i..] == a[i..];
  }

  /** The script turns exactly the old lines into exactly the new ones and keeps the most it can. */
  lemma {:induction false} ScriptCorrect<T>(a: seq<T>, b: seq<T>, i: nat, j: nat)
    requires i <= |a| && j <= |b|
    ensures OldSide(Script(a, b, i, j)) == a[i..]
    ensures NewSide(Script(a, b, i, j)) == b[j..]
    ensures |Context(Script(a, b, i, j))| == LcsLength(a, b, i, j)
    decreases |a| - i + |b| - j
  {
    if i == |a| && j == |b| {
    } else if i < |a| && j < |b| && a[i] == b[j] {
      ScriptCorrect(a, b, i + 1, j + 1);
      KeepStep(Script(a, b, i + 1, j + 1), a, b, i, j, LcsLength(a, b, i + 1, j + 1));
    } else if i < |a| && (j == |b| || LcsLength(a, b, i + 1, j) >= LcsLength(a, b, i, j + 1)) {
      ScriptCorrect(a, b, i + 1, j);
      DeleteStep(Script(a, b, i + 1, j), a, b, i, j, LcsLength(a, b, i + 1, j));
    } else {
      ScriptCorrect(a, b, i, j + 1);
      InsertStep(Script(a, b, i, j + 1), a, b, i, j, LcsLength(a, b, i, j + 1));
    }
  }

  /** The context of any script is a common subsequence, and its length fixes the script's length. */
  lemma {:induction false} ContextIsCommon<T>(e: seq<Edit<T>>)
    ensures Subsequence(Context(e), OldSide(e)) && Subsequence(Context(e), NewSide(e))
    ensures |e| == |OldSide(e)| + |NewSide(e)| - |Context(e)|
  {
    if e != [] {
      ContextIsCommon(e[1..]);
      var c, o, n := Context(e[1..]), OldSide(e[1..]), NewSide(e[1..]);
      assert ([e[0].line] + c)[1..] == c;
      assert ([e[0].line] + o)[1..] == o;
      assert ([e[0].line] + n)[1..] == n;
      assert OldSide(e) == (if e[0].Insert? then o else [e[0].line] + o);
      assert NewSide(e) == (if e[0].Delete? then n else [e[0].line] + n);
      assert Context(e) == (if e[0].Keep? then [e[0].line] + c else c);
    }
  }

  /** No script between the same two texts is shorter or keeps more lines than the printed one. */
  lemma {:induction false} ScriptMinimal<T>(a: seq<T>, b: seq<T>, e: seq<Edit<T>>)
    requires OldSide(e) == a && NewSide(e) == b
    ensures |Script(a, b, 0, 0)| <= |e|
    ensures |Context(e)| <= |Context(Script(a, b, 0, 0))|
  {
    assert a[0..] == a && b[0..] == b;
    ScriptCorrect(a, b, 0, 0);
    ContextIsCommon(e);
    ContextIsCommon(Script(a, b, 0, 0));
    LcsIsUpperBound(Context(e), a, b, 0, 0);
  }

  /**
   What a reader of the preview relies on: the script is a script between these texts, its
   context is a longest common subsequence, and no script between them is shorter.
   */
  ghost predicate BestScript<T(!new)>(a: seq<T>, b: seq<T>, e: seq<Edit<T>>) {
    && OldSide(e) == a
    && NewSide(e) == b
    && Subsequence(Context(e), a) && Subsequence(Context(e), b)
    && (forall c :: Subsequence(c, a) && Subsequence(c, b) ==> |c| <= |Context(e)|)
    && (forall other :: OldSide(other) == a && NewSide(other) == b ==> |e| <= |other|)
  }

  lemma ScriptBest<T(!new)>(a: seq<T>, b: seq<T>)
    ensures BestScript(a, b, Script(a, b, 0, 0))
  {
    var e := Script(a, b, 0, 0);
    assert a[0..] == a && b[0..] == b;
    ScriptCorrect(a, b, 0, 0);
    ContextIsCommon(e);
    forall c | Subsequence(c, a) && Subsequence(c, b)
      ensures |c| <= |Context(e)|
    {
      LcsIsUpperBound(c, a, b, 0, 0);
    }
    forall other | OldSide(other) == a && NewSide(other) == b
      ensures |e| <= |other|
    {
      ScriptMinimal(a, b, other);
    }
  }

  // ------------------------------------------------------------ the flat table

  /** Where row `i` of a table with rows `width` wide begins. */
  function RowStart(i: nat, width: nat): nat {
    if i == 0 then 0 else RowStart(i - 1, width) + width
  }

  /** Row-major position of a cell in a table whose rows are `m + 1` wide. */
  function Cell(i: nat, j: nat, m: nat): nat {
    RowStart(i, m + 1) + j
  }

  /** The position is the index expression of the source. */
  lemma {:induction false} CellIsRowMajor(i: nat, j: nat, m: nat)
    ensures Cell(i, j, m) == i * (m + 1) + j
  {
    if i > 0 {
      CellIsRowMajor(i - 1, j, m);
      assert i * (m + 1) == (i - 1) * (m + 1) + (m + 1);
    }
  }

  /** Every legal row and column has its place inside the flat vector. */
  lemma CellInRange(i: nat, j: nat, n: nat, m: nat)
    requires i <= n && j <= m
    ensures Cell(i, j, m) < (n + 1) * (m + 1)
  {
    RowStartMonotone(i, n + 1, m + 1);
    CellIsRowMajor(n + 1, 0, m);
  }

  lemma {:induction false} RowStartMonotone(i: nat, k: nat, width: nat)
    requires i < k
    ensures RowStart(i, width) + width <= RowStart(k, width)
  {
    if i + 1 < k {
      RowStartMonotone(i, k - 1, width);
    }
  }

  lemma CellInjective(i: nat, j: nat, i': nat, j': nat, m: nat)
    requires j <= m && j' <= m && Cell(i, j, m) == Cell(i', j', m)
    ensures i == i' && j == j'
  {
    if i < i' {
      RowStartMonotone(i, i', m + 1);
    } else if i' < i {
      RowStartMonotone(i', i, m + 1);
    }
  }

  /** Cell (i, j) of the table holds the answer for the suffixes at i and j. */
  ghost predicate CellDone<T>(table: array<nat>, a: seq<T>, b: seq<T>, i: nat, j: nat)
    requires i <= |a| && j <= |b|
    reads table
  {
    && Cell(i, j, |b|) < table.Length
    && table[Cell(i, j, |b|)] == LcsLength(a, b, i, j)
  }

  ghost predicate RowDone<T>(table: array<nat>, a: seq<T>, b: seq<T>, i: nat, from: nat)
    requires i <= |a|
    reads table
  {
    forall j: nat :: from <= j <= |b| ==> CellDone(table, a, b, i, j)
  }

  /** Fills the table from the last row and column backwards, as the source does. */
  method FillTable<T(==)>(a: seq<T>, b: seq<T>) returns (table: array<nat>)
    ensures fresh(table)
    ensures forall i: nat :: i <= |a| ==> RowDone(table, a, b, i, 0)
  {
    var n, m := |a|, |b|;
    CellIsRowMajor(n + 1, 0, m);
    table := new nat[(n + 1) * (m + 1)](_ => 0);
    forall i: nat, j: nat | i <= n && j <= m
      ensures Cell(i, j, m) < table.Length && ((i == n || j == m) ==> CellDone(table, a, b, i, j))
    {
      CellInRange(i, j, n, m);
    }
    var i: nat := n;
    while i > 0
      invariant i <= n
      invariant forall r: nat :: i <= r <= n ==> RowDone(table, a, b, r, 0)
      invariant forall r: nat :: r <= n ==> RowDone(table, a, b, r, m)
    {
      i := i - 1;
      var j: nat := m;
      while j > 0
        invariant j <= m
        invariant forall r: nat :: i < r <= n ==> RowDone(table, a, b, r, 0)
        invariant RowDone(table, a, b, i, j)
        invariant forall r: nat :: r <= n ==> RowDone(table, a, b, r, m)
      {
        j := j - 1;
        assert RowDone(table, a, b, i + 1, 0);
        FillCell(table, a, b, i, j);
      }
    }
  }

  /** Writes one cell from its three finished neighbours and leaves the finished ones alone. */
  method FillCell<T(==)>(table: array<nat>, a: seq<T>, b: seq<T>, i: nat, j: nat)
    requires i < |a| && j < |b|
    requires forall r: nat :: i < r <= |a| ==> RowDone(table, a, b, r, 0)
    requires RowDone(table, a, b, i, j + 1)
    requires forall r: nat :: r <= |a| ==> RowDone(table, a, b, r, |b|)
    modifies table
    ensures forall r: nat :: i < r <= |a| ==> RowDone(table, a, b, r, 0)
    ensures RowDone(table, a, b, i, j)
    ensures forall r: nat :: r <= |a| ==> RowDone(table, a, b, r, |b|)
    ensures forall k :: 0 <= k < table.Length && k != Cell(i, j, |b|) ==> table[k] == old(table[k])
  {
    var m := |b|;
    assert RowDone(table, a, b, i + 1, 0);
    assert CellDone(table, a, b, i + 1, j) && CellDone(table, a, b, i, j + 1) && CellDone(table, a, b, i + 1, j + 1);
    var value := if a[i] == b[j] then 1 + table[Cell(i + 1, j + 1, m)]
                 else Max(table[Cell(i + 1, j, m)], table[Cell(i, j + 1, m)]);
    label before:
    table[Cell(i, j, m)] := value;
    forall r: nat, c: nat | r <= |a| && c <= m && (r, c) != (i, j) && old@before(CellDone(table, a, b, r, c))
      ensures CellDone(table, a, b, r, c)
    {
      if Cell(r, c, m) == Cell(i, j, m) {
        CellInjective(r, c, i, j, m);
      }
    }
    forall r: nat | i < r <= |a|
      ensures RowDone(table, a, b, r, 0)
    {
      assert old@before(RowDone(table, a, b, r, 0));
    }
    forall r: nat | r <= |a|
      ensures RowDone(table, a, b, r, m)
    {
      assert old@before(RowDone(table, a, b, r, m));
    }
  }

  lemma Push<E>(e: seq<E>, x: E, rest: seq<E>)
    ensures e + ([x] + rest) == e + [x] + rest
  {
  }

  /** The printing loop over a filled table. */
  method WalkTable<T(==)>(table: array<nat>, a: seq<T>, b: seq<T>) returns (e: seq<Edit<T>>)
    requires forall i: nat :: i <= |a| ==> RowDone(table, a, b, i, 0)
    ensures e == Script(a, b, 0, 0)
  {
    var n, m := |a|, |b|;
    var i: nat, j: nat := 0, 0;
    e := [];
    while i < n || j < m
      invariant i <= n && j <= m
      invariant Script(a, b, 0, 0) == e + Script(a, b, i, j)
      decreases n - i + m - j
    {
      if i < n && j < m && a[i] == b[j] {
        Push(e, Keep(a[i]), Script(a, b, i + 1, j + 1));
        e := e + [Keep(a[i])];
        i, j := i + 1, j + 1;
      } else {
        var delete := i < n;
        if i < n && j < m {
          assert RowDone(table, a, b, i + 1, 0) && RowDone(table, a, b, i, 0);
          assert CellDone(table, a, b, i + 1, j) && CellDone(table, a, b, i, j + 1);
          delete := table[Cell(i + 1, j, m)] >= table[Cell(i, j + 1, m)];
        }
        if delete {
          Push(e, Delete(a[i]), Script(a, b, i + 1, j));
          e := e + [Delete(a[i])];
          i := i + 1;
        } else {
          Push(e, Insert(b[j]), Script(a, b, i, j + 1));
          e := e + [Insert(b[j])];
          j := j + 1;
        }
      }
    }
    assert e + [] == e;
  }

  // ---------------------------------------------------------------- the report

  datatype Hunk = Hunk(oldStart: nat, oldCount: nat, newStart: nat, newCount: nat)

  /** Both sides are shown from their first line; a side without lines starts at zero. */
  function HunkOf(n: nat, m: nat): (h: Hunk)
    ensures h.oldCount == n && h.newCount == m && h.oldStart == Min(n, 1) && h.newStart == Min(m, 1)
  {
    Hunk(if n != 0 then 1 else 0, n, if m != 0 then 1 else 0, m)
  }

  /** Everything `print_unified_preview` writes below its two file headers. */
  datatype Report = Report(hunk: Option<Hunk>, edits: seq<Edit<string>>, emptyFile: bool, truncated: bool)

  lemma TableBound(n: nat, m: nat)
    requires n <= MAX_LINES && m <= MAX_LINES
    ensures (n + 1) * (m + 1) <= MAX_CELLS
  {
    assert (n + 1) * (m + 1) <= 41 * (m + 1);
  }

  /** The line budget of both sides keeps the table within its cell budget. */
  lemma GuardNeverFires(before: seq<string>, after: seq<string>, encodedSize: string -> nat)
    ensures var n, m := |Clip(before, 0, 0, encodedSize).lines|, |Clip(after, 0, 0, encodedSize).lines|;
            (n + 1) * (m + 1) <= MAX_CELLS
  {
    var n, m := |Clip(before, 0, 0, encodedSize).lines|, |Clip(after, 0, 0, encodedSize).lines|;
    ClipWithinBudget(before, 0, 0, encodedSize);
    ClipWithinBudget(after, 0, 0, encodedSize);
    TableBound(n, m);
  }

  /**
   The whole preview. The table guard of the source is kept as an error path, and the
   contract says that it is never taken.
   */
  method UnifiedPreview(before: string, after: string, encodedSize: string -> nat) returns (r: Result<Report, string>)
    ensures r.Ok?
    ensures var a, b := Clip(Lines(before), 0, 0, encodedSize), Clip(Lines(after), 0, 0, encodedSize);
            && BestScript(a.lines, b.lines, r.value.edits)
            && (r.value.truncated <==> a.lines != Lines(before) || b.lines != Lines(after))
            && (r.value.emptyFile <==> a.lines == [] && b.lines == [])
            && (r.value.hunk.None? <==> r.value.edits == [])
            && (r.value.hunk.Some? ==> r.value.hunk.value == HunkOf(|a.lines|, |b.lines|))
  {
    var a := PreviewLines(before, encodedSize);
    var b := PreviewLines(after, encodedSize);
    ClipFaithful(Lines(before), 0, 0, encodedSize);
    ClipFaithful(Lines(after), 0, 0, encodedSize);
    var n, m := |a.lines|, |b.lines|;
    GuardNeverFires(Lines(before), Lines(after), encodedSize);
    if (n + 1) * (m + 1) > MAX_CELLS {
      return Err("File preview exceeds the bounded diff size");
    }
    var table := FillTable(a.lines, b.lines);
    var edits := WalkTable(table, a.lines, b.lines);
    ScriptBest(a.lines, b.lines);
    var hunk := if n != 0 || m != 0
      then Some(HunkOf(n, m)) else None;
    r := Ok(Report(hunk, edits, n == 0 && m == 0, a.truncated || b.truncated));
  }
}
