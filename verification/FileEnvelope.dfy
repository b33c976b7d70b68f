/** The envelope that carries one file-tool call between processes: validation, `serialize`, `parse`. */
module FileEnvelope {
  import opened Common
  import opened Arithmetic
  import opened JsonText
  import Utf8

  const MAX_REVISION := 9007199254740991
  const MAX_ARGUMENTS := 4 * 1024 * 1024
  const MAX_WIRE := 6 * 4 * 1024 * 1024 + 16384

  datatype Invocation = Invocation(protocol: int, run: Bytes, attempt: Bytes, call: Bytes, workspace: Bytes,
                                   folder: Bytes, revision: int,
                                   tool: Bytes, arguments: Bytes)

  function Ascii(s: string): (r: Bytes)
    ensures |r| == |s|
  {
    seq(|s|, i requires 0 <= i < |s| => if s[i] as int < 128 then s[i] as int else 63)
  }

  /** Printable and without blanks. */
  predicate BoundedId(s: Bytes, limit: nat) {
    0 < |s| <= limit && forall i :: 0 <= i < |s| ==> 0x21 <= s[i] <= 0x7e
  }

  predicate BoundedText(s: Bytes, limit: nat) {
    0 < |s| <= limit && 0 !in s
  }

  predicate FileTool(name: Bytes) {
    name == Ascii("edit_file") || name == Ascii("create_file") || name == Ascii("apply_patch")
      || name == Ascii("restore_operation")
  }

  predicate Valid(c: Invocation) {
    && c.protocol == 1 && BoundedId(c.run, 128) && BoundedId(c.attempt, 128)
    && BoundedText(c.call, 256) && BoundedText(c.workspace, 256) && BoundedText(c.folder, 256)
    && 1 <= c.revision <= MAX_REVISION && FileTool(c.tool) && |c.arguments| <= MAX_ARGUMENTS
  }

  /** Every text member is UTF-8, without which the writer refuses. */
  predicate Textual(c: Invocation) {
    && Utf8.ValidFrom(c.run, 0) && Utf8.ValidFrom(c.attempt, 0) && Utf8.ValidFrom(c.call, 0)
      && Utf8.ValidFrom(c.workspace, 0)
    && Utf8.ValidFrom(c.folder, 0) && Utf8.ValidFrom(c.tool, 0) && Utf8.ValidFrom(c.arguments, 0)
  }

  // ---------------------------------------------------------------------------- fields

  datatype Field = FArguments | FAttempt | FCall | FFolder | FProtocol | FRun | FTool | FWorkspace | FRevision

  /** The place of a member in the order of the names. */
  function Position(f: Field): (i: nat)
    ensures i < 9
  {
    match f
    case FArguments => 0
    case FAttempt => 1
    case FCall => 2
    case FFolder => 3
    case FProtocol => 4
    case FRun => 5
    case FTool => 6
    case FWorkspace => 7
    case FRevision => 8
  }

  function FieldAt(i: nat): (f: Field)
    requires i < 9
    ensures Position(f) == i
  {
    if i == 0 then FArguments else if i == 1 then FAttempt else if i == 2 then FCall else if i == 3 then FFolder
    else if i == 4 then FProtocol else if i == 5 then FRun else if i == 6 then FTool else if i == 7 then FWorkspace
    else FRevision
  }

  function Name(f: Field): Bytes {
    match f
    case FArguments => Ascii("arguments_json")
    case FAttempt => Ascii("attempt_id")
    case FCall => Ascii("call_id")
    case FFolder => Ascii("folder_id")
    case FProtocol => Ascii("protocol_version")
    case FRun => Ascii("run_id")
    case FTool => Ascii("tool_name")
    case FWorkspace => Ascii("workspace_id")
    case FRevision => Ascii("workspace_revision")
  }

  function FieldOf(name: Bytes): (f: Option<Field>)
    ensures f.Some? ==> Name(f.value) == name
  {
    if name == Name(FArguments) then Some(FArguments)
    else if name == Name(FAttempt) then Some(FAttempt)
    else if name == Name(FCall) then Some(FCall)
    else if name == Name(FFolder) then Some(FFolder)
    else if name == Name(FProtocol) then Some(FProtocol)
    else if name == Name(FRun) then Some(FRun)
    else if name == Name(FTool) then Some(FTool)
    else if name == Name(FWorkspace) then Some(FWorkspace)
    else if name == Name(FRevision) then Some(FRevision)
    else None
  }

  lemma NameLength(f: Field)
    ensures |Name(f)| == match f
                         case FArguments => 14
                         case FAttempt => 10
                         case FCall => 7
                         case FFolder => 9
                         case FProtocol => 16
                         case FRun => 6
                         case FTool => 9
                         case FWorkspace => 12
                         case FRevision => 18
  {
  }

  lemma NamesDiffer(f: Field, g: Field)
    requires Name(f) == Name(g)
    ensures f == g
  {
    NameLength(f);
    NameLength(g);
    assert Name(FFolder)[0] == 102 && Name(FTool)[0] == 116;
  }

  lemma FieldOfName(f: Field)
    ensures FieldOf(Name(f)) == Some(f)
  {
    var g := FieldOf(Name(f));
    if g.Some? {
      NamesDiffer(g.value, f);
    }
  }

  function FieldValue(c: Invocation, f: Field): Value
    requires c.protocol >= 0 && c.revision >= 0
  {
    match f
    case FArguments => Text(c.arguments)
    case FAttempt => Text(c.attempt)
    case FCall => Text(c.call)
    case FFolder => Text(c.folder)
    case FProtocol => Number(c.protocol)
    case FRun => Text(c.run)
    case FTool => Text(c.tool)
    case FWorkspace => Text(c.workspace)
    case FRevision => Number(c.revision)
  }

  /** Members in the order of their names, which is how the writer keeps them. */
  function Members(c: Invocation): (ms: seq<Member>)
    requires c.protocol >= 0 && c.revision >= 0
    ensures |ms| == 9 && forall i :: 0 <= i < 9 ==> ms[i] == Member(Name(FieldAt(i)), FieldValue(c, FieldAt(i)))
  {
    seq(9, i requires 0 <= i < 9 => Member(Name(FieldAt(i)), FieldValue(c, FieldAt(i))))
  }

  /** Known names only, and none of them twice. */
  function Collect(ms: seq<Member>, n: nat): Option<map<Field, Value>>
    requires n <= |ms|
  {
    if n == 0 then Some(map[])
    else
      var before := Collect(ms, n - 1);
      var f := FieldOf(ms[n - 1].key);
      if before.None? || f.None? || f.value in before.value then None
      else Some(before.value[f.value := ms[n - 1].value])
  }

  predicate Complete(m: map<Field, Value>) {
    && FArguments in m && FAttempt in m && FCall in m && FFolder in m && FProtocol in m && FRun in m && FTool in m
      && FWorkspace in m && FRevision in m
    && m[FArguments].Text? && m[FAttempt].Text? && m[FCall].Text? && m[FFolder].Text? && m[FRun].Text? && m[FTool].Text?
      && m[FWorkspace].Text?
    && m[FProtocol] == Number(1) && m[FRevision].Number?
  }

  function Assemble(m: map<Field, Value>): Invocation
    requires Complete(m)
  {
    Invocation(1, m[FRun].text, m[FAttempt].text, m[FCall].text, m[FWorkspace].text, m[FFolder].text,
               m[FRevision].number, m[FTool].text, m[FArguments].text)
  }

  // ------------------------------------------------------------------------ operations

  datatype Failure = InvalidCall | NotUtf8 | TooLong | InvalidWire

  function Serialize(c: Invocation): Result<Bytes, Failure> {
    if !Valid(c) then Err(InvalidCall)
    else if !Textual(c) then Err(NotUtf8)
    else Ok(RenderObject(Members(c)))
  }

  function Parse(wire: Bytes): Result<Invocation, Failure> {
    if |wire| > MAX_WIRE then Err(TooLong)
    else
      var ms := ParseObject(wire);
      if ms.None? then Err(InvalidWire)
      else
        var m := Collect(ms.value, |ms.value|);
        if m.None? || !Complete(m.value) then Err(InvalidWire)
        else if Valid(Assemble(m.value)) then Ok(Assemble(m.value))
        else Err(InvalidCall)
  }

  // ------------------------------------------------------------------------ properties

  lemma PositionIsOwn(f: Field, g: Field)
    requires Position(f) == Position(g)
    ensures f == g
  {
  }

  lemma {:induction false} CollectsAll(c: Invocation, n: nat)
    requires c.protocol >= 0 && c.revision >= 0 && n <= 9
    ensures var m := Collect(Members(c), n);
            && m.Some?
            && forall f :: (f in m.value <==> Position(f) < n) && (f in m.value ==> m.value[f] == FieldValue(c, f))
  {
    if n > 0 {
      CollectsAll(c, n - 1);
      var g := FieldAt(n - 1);
      FieldOfName(g);
      forall f | Position(f) == n - 1 ensures f == g {
        PositionIsOwn(f, g);
      }
    }
  }

  /** Every field of a call, found under its name. */
  ghost predicate Found(m: map<Field, Value>, c: Invocation)
    requires c.protocol >= 0 && c.revision >= 0
  {
    forall f :: f in m && m[f] == FieldValue(c, f)
  }

  lemma FoundAssembles(m: map<Field, Value>, c: Invocation)
    requires c.protocol == 1 && c.revision >= 0 && Found(m, c)
    ensures Complete(m) && Assemble(m) == c
  {
  }

  lemma AssembledBack(c: Invocation)
    requires c.protocol == 1 && c.revision >= 0
    ensures var m := Collect(Members(c), 9); m.Some? && Complete(m.value) && Assemble(m.value) == c
  {
    CollectsAll(c, 9);
    FoundAssembles(Collect(Members(c), 9).value, c);
  }

  lemma NamesAreUtf8(f: Field)
    ensures Utf8.ValidFrom(Name(f), 0)
  {
    AsciiIsUtf8(Name(f), 0);
  }

  lemma {:induction false} AsciiIsUtf8(s: Bytes, i: nat)
    requires i <= |s| && forall j :: 0 <= j < |s| ==> s[j] < 128
    ensures Utf8.ValidFrom(s, i)
    decreases |s| - i
  {
    if i < |s| {
      AsciiIsUtf8(s, i + 1);
    }
  }

  lemma MembersWritable(c: Invocation)
    requires Valid(c) && Textual(c)
    ensures forall i :: 0 <= i < 9 ==> Writable(Members(c)[i])
  {
    forall i | 0 <= i < 9 ensures Writable(Members(c)[i]) {
      NamesAreUtf8(FieldAt(i));
    }
  }

  lemma SixteenDigits(n: nat)
    requires n <= MAX_REVISION
    ensures |Digits(n)| <= 16
  {
    TenToTheSixteenth();
    DigitsLength(n, 16);
  }

  /** How much one member weighs at most. */
  lemma FieldWeight(c: Invocation, f: Field)
    requires Valid(c)
    ensures Weight(Member(Name(f), FieldValue(c, f))) <= if f == FArguments then MAX_ARGUMENTS + 14 else 274
  {
    NameLength(f);
    if f == FProtocol {
      SixteenDigits(c.protocol);
    } else if f == FRevision {
      SixteenDigits(c.revision);
    }
  }

  /** The members from `i` on weigh little once the arguments are behind. */
  lemma {:induction false} RestWeight(c: Invocation, i: nat)
    requires Valid(c) && 1 <= i <= 9
    ensures TotalWeight(Members(c)[i..]) <= 274 * (9 - i)
    decreases 9 - i
  {
    var ms := Members(c);
    if i < 9 {
      FieldWeight(c, FieldAt(i));
      RestWeight(c, i + 1);
      assert ms[i..][1..] == ms[i + 1..];
    }
  }

  /** Six-fold escaping of every field stays within the wire limit. */
  lemma SerializedFits(c: Invocation)
    requires Valid(c) && Textual(c)
    ensures |RenderObject(Members(c))| <= MAX_WIRE
  {
    var ms := Members(c);
    ObjectSize(ms);
    FieldWeight(c, FArguments);
    RestWeight(c, 1);
    assert TotalWeight(ms) == Weight(ms[0]) + TotalWeight(ms[1..]);
  }

  /** A call that can be written is read back unchanged, and the wire limit never stands in the way. */
  lemma RoundTrip(c: Invocation)
    ensures Serialize(c).Ok? <==> Valid(c) && Textual(c)
    ensures Serialize(c).Ok? ==> Parse(Serialize(c).value) == Ok(c)
  {
    if Valid(c) && Textual(c) {
      MembersWritable(c);
      ObjectParses(Members(c));
      SerializedFits(c);
      AssembledBack(c);
    }
  }

  lemma {:induction false} CollectedFrom(ms: seq<Member>, n: nat, f: Field)
    requires n <= |ms|
    ensures var m := Collect(ms, n); m.Some? && f in m.value ==> exists i :: 0 <= i < n && ms[i].value == m.value[f]
  {
    if n > 0 {
      CollectedFrom(ms, n - 1, f);
    }
  }

  lemma CollectedUtf8(ms: seq<Member>, f: Field)
    requires forall m :: m in ms ==> m.value.Text? ==> Utf8.ValidFrom(m.value.text, 0)
    ensures var m := Collect(ms, |ms|); m.Some? && f in m.value && m.value[f].Text? ==>
              Utf8.ValidFrom(m.value[f].text, 0)
  {
    CollectedFrom(ms, |ms|, f);
    var m := Collect(ms, |ms|);
    if m.Some? && f in m.value {
      var i :| 0 <= i < |ms| && ms[i].value == m.value[f];
      assert ms[i] in ms;
    }
  }

  /** Whatever is read is a valid call that can be written again, and writing it settles the wire form. */
  lemma ParsedIsSerializable(wire: Bytes)
    ensures Parse(wire).Ok? ==>
              && Serialize(Parse(wire).value).Ok?
              && Parse(Serialize(Parse(wire).value).value) == Parse(wire)
  {
    if Parse(wire).Ok? {
      var c := Parse(wire).value;
      var ms := ParseObject(wire).value;
      ParsedTextIsUtf8(Skip(Skip(SkipMark(wire))[1..]));
      forall f ensures var m := Collect(ms, |ms|); m.Some? && f in m.value && m.value[f].Text? ==>
        Utf8.ValidFrom(m.value[f].text, 0)
      {
        CollectedUtf8(ms, f);
      }
      assert Textual(c);
      RoundTrip(c);
    }
  }
}
