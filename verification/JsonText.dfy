/**
 JSON text as the envelopes use it: flat objects of strings and non-negative integers. The writer
 escapes as RFC 8259 section 7 requires and no more; the reader takes every escape of that section,
 white space between tokens and any member order. Values of other kinds are refused.
 */
module JsonText {
  import opened Common
  import opened Arithmetic
  import Utf8

  const QUOTE: Byte := 34
  const BACKSLASH: Byte := 92
  const LETTER_U: Byte := 117
  const COLON: Byte := 58
  const COMMA: Byte := 44
  const OPEN: Byte := 123
  const CLOSE: Byte := 125

  datatype Parsed<T> = Parsed(value: T, rest: Bytes)

  // ------------------------------------------------------------------------- strings

  function HexDigit(d: nat): Byte
    requires d < 16
  {
    if d < 10 then 48 + d else 87 + d
  }

  function HexValue(b: Byte): Option<nat> {
    if 48 <= b <= 57 then Some(b - 48)
    else if 97 <= b <= 102 then Some(b - 87)
    else if 65 <= b <= 70 then Some(b - 55)
    else None
  }

  /** The letter after the backslash of a two-byte escape. */
  function ShortEscape(b: Byte): Option<Byte> {
    if b == QUOTE || b == BACKSLASH then Some(b)
    else if b == 8 then Some(98)
    else if b == 12 then Some(102)
    else if b == 10 then Some(110)
    else if b == 13 then Some(114)
    else if b == 9 then Some(116)
    else None
  }

  function EscapeByte(b: Byte): (r: Bytes)
    ensures 1 <= |r| <= 6
  {
    if ShortEscape(b).Some? then [BACKSLASH, ShortEscape(b).value]
    else if b < 32 then [BACKSLASH, LETTER_U, 48, 48, HexDigit(b / 16), HexDigit(b % 16)]
    else [b]
  }

  function Escape(s: Bytes): (r: Bytes)
    ensures |s| <= |r| <= 6 * |s|
  {
    if s == [] then [] else EscapeByte(s[0]) + Escape(s[1..])
  }

  /** Four hexadecimal digits. */
  function HexUnit(w: Bytes, i: nat): Option<nat>
    requires i + 4 <= |w|
  {
    var a, b, c, d := HexValue(w[i]), HexValue(w[i + 1]), HexValue(w[i + 2]), HexValue(w[i + 3]);
    if a.Some? && b.Some? && c.Some? && d.Some? then Some(((a.value * 16 + b.value) * 16 + c.value) * 16 + d.value)
    else None
  }

  /** The byte a two-byte escape stands for. */
  function ShortMeaning(b: Byte): Option<Byte> {
    if b == QUOTE || b == BACKSLASH || b == SLASH then Some(b)
    else if b == 98 then Some(8)
    else if b == 102 then Some(12)
    else if b == 110 then Some(10)
    else if b == 114 then Some(13)
    else if b == 116 then Some(9)
    else None
  }

  /** A four-digit escape, or a surrogate pair of them: the scalar value and the length. */
  function LongEscape(w: Bytes): (r: Option<(int, nat)>)
    requires |w| >= 2
    ensures r.Some? ==> Utf8.Scalar(r.value.0) && 6 <= r.value.1 <= |w|
  {
    if |w| < 6 then None
    else
      var high := HexUnit(w, 2);
      if high.None? || 0xdc00 <= high.value < 0xe000 then None
      else if high.value < 0xd800 || 0xe000 <= high.value then
        (if high.value <= 0xffff then Some((high.value, 6)) else None)
      else if |w| < 12 || w[6] != BACKSLASH || w[7] != LETTER_U then None
      else
        var low := HexUnit(w, 8);
        if low.None? || !(0xdc00 <= low.value < 0xe000) then None
        else Some((0x10000 + (high.value - 0xd800) * 1024 + (low.value - 0xdc00), 12))
  }

  function Prepend(front: Bytes, r: Option<Parsed<Bytes>>): Option<Parsed<Bytes>> {
    if r.None? then None else Some(Parsed(front + r.value.value, r.value.rest))
  }

  /** A string body up to and past its closing quote. */
  function Unescape(w: Bytes): (r: Option<Parsed<Bytes>>)
    ensures r.Some? ==> |r.value.rest| < |w|
    decreases |w|
  {
    if w == [] || w[0] < 32 then None
    else if w[0] == QUOTE then Some(Parsed([], w[1..]))
    else if w[0] != BACKSLASH then Prepend([w[0]], Unescape(w[1..]))
    else if |w| < 2 then None
    else if w[1] == LETTER_U then
      var e := LongEscape(w);
      if e.None? then None else Prepend(Utf8.EncodeScalar(e.value.0), Unescape(w[e.value.1..]))
    else if ShortMeaning(w[1]).None? then None
    else Prepend([ShortMeaning(w[1]).value], Unescape(w[2..]))
  }

  lemma UnescapePlain(b: Byte, tail: Bytes)
    requires b >= 32 && b != QUOTE && b != BACKSLASH
    ensures Unescape([b] + tail) == Prepend([b], Unescape(tail))
  {
    ConsParts(b, tail);
  }

  lemma UnescapeShort(b: Byte, tail: Bytes)
    requires ShortEscape(b).Some?
    ensures Unescape([BACKSLASH, ShortEscape(b).value] + tail) == Prepend([b], Unescape(tail))
  {
    var w := [BACKSLASH, ShortEscape(b).value] + tail;
    assert w[0] == BACKSLASH && w[1] == ShortEscape(b).value && w[2..] == tail;
  }

  lemma HexDigits(b: Byte)
    requires b < 32
    ensures HexValue(HexDigit(b / 16)) == Some(b / 16) && HexValue(HexDigit(b % 16)) == Some(b % 16)
  {
  }

  lemma LongUnit(b: Byte, w: Bytes)
    requires b < 32 && |w| >= 6 && w[2] == 48 && w[3] == 48 && w[4] == HexDigit(b / 16) && w[5] == HexDigit(b % 16)
    ensures LongEscape(w) == Some((b, 6))
  {
    HexDigits(b);
    assert HexUnit(w, 2) == Some(b);
  }

  lemma UnescapeLong(b: Byte, tail: Bytes)
    requires b < 32
    ensures Unescape([BACKSLASH, LETTER_U, 48, 48, HexDigit(b / 16), HexDigit(b % 16)] + tail) ==
            Prepend([b], Unescape(tail))
  {
    var w := [BACKSLASH, LETTER_U, 48, 48, HexDigit(b / 16), HexDigit(b % 16)] + tail;
    LongUnit(b, w);
    assert w[6..] == tail;
    assert Utf8.EncodeScalar(b) == [b];
  }

  lemma UnescapeByte(b: Byte, tail: Bytes)
    ensures Unescape(EscapeByte(b) + tail) == Prepend([b], Unescape(tail))
  {
    if ShortEscape(b).Some? {
      UnescapeShort(b, tail);
    } else if b < 32 {
      UnescapeLong(b, tail);
    } else {
      UnescapePlain(b, tail);
    }
  }

  /** Reading an escaped string gives it back, whatever follows it. */
  lemma {:induction false} UnescapeEscaped(s: Bytes, rest: Bytes)
    ensures Unescape(Escape(s) + [QUOTE] + rest) == Some(Parsed(s, rest))
    decreases |s|
  {
    if s == [] {
      ConsParts(QUOTE, rest);
      assert Escape(s) + [QUOTE] + rest == [QUOTE] + rest;
    } else {
      UnescapeEscaped(s[1..], rest);
      UnescapeByte(s[0], Escape(s[1..]) + [QUOTE] + rest);
      Regroup(EscapeByte(s[0]), Escape(s[1..]), [QUOTE], rest);
      assert [s[0]] + s[1..] == s;
    }
  }

  // ------------------------------------------------------------------------ numbers

  predicate Digit(b: Byte) {
    48 <= b <= 57
  }

  function Digits(n: nat): (r: Bytes)
    ensures |r| >= 1
  {
    if n < 10 then [48 + n] else Digits(n / 10) + [48 + n % 10]
  }

  /** Reads digits greedily. */
  function ReadDigits(w: Bytes, value: nat): (r: Parsed<nat>)
    ensures |r.rest| <= |w|
    decreases |w|
  {
    if w == [] || !Digit(w[0]) then Parsed(value, w) else ReadDigits(w[1..], value * 10 + (w[0] - 48))
  }

  /** A number starts with a digit, and with zero only when it is zero. */
  function ParseNumber(w: Bytes): (r: Option<Parsed<nat>>)
    ensures r.Some? ==> |r.value.rest| < |w|
  {
    if w == [] || !Digit(w[0]) then None
    else if w[0] == 48 then Some(Parsed(0, w[1..]))
    else Some(ReadDigits(w[1..], w[0] - 48))
  }

  predicate Ends(rest: Bytes) {
    rest == [] || !Digit(rest[0])
  }

  lemma {:induction false} ReadDigitsAppend(n: nat, rest: Bytes)
    requires n > 0
    ensures Digits(n)[0] != 48 && Digit(Digits(n)[0])
    ensures ReadDigits(Digits(n)[1..] + rest, Digits(n)[0] - 48) == ReadDigits(rest, n)
    decreases n
  {
    var d := Digits(n);
    if n < 10 {
      assert d[1..] + rest == rest;
    } else {
      var front, last := Digits(n / 10), [48 + n % 10];
      ReadDigitsAppend(n / 10, last + rest);
      assert d[1..] + rest == front[1..] + (last + rest);
      ConsParts(last[0], rest);
      assert last + rest == [last[0]] + rest;
    }
  }

  lemma NumberParses(n: nat, rest: Bytes)
    requires n > 0 && Ends(rest)
    ensures ParseNumber(Digits(n) + rest) == Some(Parsed(n, rest))
  {
    ReadDigitsAppend(n, rest);
    var w := Digits(n) + rest;
    assert w[0] == Digits(n)[0] && w[1..] == Digits(n)[1..] + rest;
  }

  lemma {:induction false} DigitsLength(n: nat, k: nat)
    requires n < PowerOfTen(k) && k > 0
    ensures |Digits(n)| <= k
    decreases k
  {
    if n >= 10 {
      assert k > 1;
      DigitsLength(n / 10, k - 1);
    }
  }

  // ------------------------------------------------------------------------- objects

  datatype Value = Text(text: Bytes) | Number(number: nat)

  datatype Member = Member(key: Bytes, value: Value)

  predicate Space(b: Byte) {
    b == 32 || b == 9 || b == 10 || b == 13
  }

  function Skip(w: Bytes): (r: Bytes)
    ensures |r| <= |w|
    decreases |w|
  {
    if w != [] && Space(w[0]) then Skip(w[1..]) else w
  }

  /** A quoted string of valid UTF-8. */
  function ParseString(w: Bytes): (r: Option<Parsed<Bytes>>)
    ensures r.Some? ==> |r.value.rest| < |w|
  {
    if w == [] || w[0] != QUOTE then None
    else
      var s := Unescape(w[1..]);
      if s.Some? && Utf8.ValidFrom(s.value.value, 0) then s else None
  }

  function ParseValue(w: Bytes): (r: Option<Parsed<Value>>)
    ensures r.Some? ==> |r.value.rest| < |w|
  {
    if w != [] && w[0] == QUOTE then
      var s := ParseString(w);
      if s.None? then None else Some(Parsed(Text(s.value.value), s.value.rest))
    else
      var n := ParseNumber(w);
      if n.None? then None else Some(Parsed(Number(n.value.value), n.value.rest))
  }

  function ParseMember(w: Bytes): (r: Option<Parsed<Member>>)
    ensures r.Some? ==> |r.value.rest| < |w|
  {
    var key := ParseString(w);
    if key.None? then None
    else
      var after := Skip(key.value.rest);
      if after == [] || after[0] != COLON then None
      else
        var v := ParseValue(Skip(after[1..]));
        if v.None? then None else Some(Parsed(Member(key.value.value, v.value.value), v.value.rest))
  }

  /** Members up to and past the closing brace. */
  function ParseMembers(w: Bytes): Option<Parsed<seq<Member>>>
    decreases |w|
  {
    var m := ParseMember(w);
    if m.None? then None
    else
      var after := Skip(m.value.rest);
      if after == [] then None
      else if after[0] == CLOSE then Some(Parsed([m.value.value], after[1..]))
      else if after[0] != COMMA then None
      else
        var more := ParseMembers(Skip(after[1..]));
        if more.None? then None else Some(Parsed([m.value.value] + more.value.value, more.value.rest))
  }

  /** A byte order mark in front is ignored. */
  function SkipMark(w: Bytes): Bytes {
    if |w| >= 3 && w[0] == 0xef && w[1] == 0xbb && w[2] == 0xbf then w[3..] else w
  }

  /** A whole text that is one non-empty flat object. */
  function ParseObject(w: Bytes): Option<seq<Member>> {
    var body := Skip(SkipMark(w));
    if body == [] || body[0] != OPEN then None
    else
      var members := ParseMembers(Skip(body[1..]));
      if members.Some? && Skip(members.value.rest) == [] then Some(members.value.value) else None
  }

  function Quoted(s: Bytes): (r: Bytes)
    ensures |s| + 2 <= |r| <= 6 * |s| + 2
  {
    [QUOTE] + Escape(s) + [QUOTE]
  }

  function RenderValue(v: Value): Bytes {
    if v.Text? then Quoted(v.text) else Digits(v.number)
  }

  function RenderMember(m: Member): Bytes {
    Quoted(m.key) + [COLON] + RenderValue(m.value)
  }

  function RenderMembers(ms: seq<Member>): Bytes
    requires ms != []
  {
    RenderMember(ms[0]) + if |ms| == 1 then [CLOSE] else [COMMA] + RenderMembers(ms[1..])
  }

  function RenderObject(ms: seq<Member>): Bytes
    requires ms != []
  {
    [OPEN] + RenderMembers(ms)
  }

  predicate Writable(m: Member) {
    Utf8.ValidFrom(m.key, 0) && (m.value.Text? ==> Utf8.ValidFrom(m.value.text, 0))
      && (m.value.Number? ==> m.value.number > 0)
  }

  lemma SkipNothing(b: Byte, rest: Bytes)
    requires !Space(b)
    ensures Skip([b] + rest) == [b] + rest
  {
  }

  lemma Regroup(a: Bytes, b: Bytes, c: Bytes, d: Bytes)
    ensures a + b + c + d == a + (b + c + d) && a + b + c + d == a + (b + (c + d))
  {
  }

  lemma StringParses(s: Bytes, rest: Bytes)
    requires Utf8.ValidFrom(s, 0)
    ensures ParseString(Quoted(s) + rest) == Some(Parsed(s, rest))
  {
    UnescapeEscaped(s, rest);
    var tail := Escape(s) + [QUOTE] + rest;
    ConsParts(QUOTE, tail);
    Regroup([QUOTE], Escape(s), [QUOTE], rest);
  }

  lemma ValueParses(v: Value, rest: Bytes)
    requires v.Text? ==> Utf8.ValidFrom(v.text, 0)
    requires v.Number? ==> v.number > 0
    requires Ends(rest)
    ensures ParseValue(RenderValue(v) + rest) == Some(Parsed(v, rest))
    ensures !Space((RenderValue(v) + rest)[0])
  {
    var w := RenderValue(v) + rest;
    if v.Text? {
      StringParses(v.text, rest);
      assert w[0] == QUOTE;
    } else {
      NumberParses(v.number, rest);
      ReadDigitsAppend(v.number, rest);
      assert w[0] == Digits(v.number)[0];
    }
  }

  lemma MemberParses(m: Member, rest: Bytes)
    requires Writable(m) && Ends(rest)
    ensures ParseMember(RenderMember(m) + rest) == Some(Parsed(m, rest))
    ensures (RenderMember(m) + rest)[0] == QUOTE
  {
    var value := RenderValue(m.value) + rest;
    var tail := [COLON] + value;
    StringParses(m.key, tail);
    Regroup(Quoted(m.key), [COLON], RenderValue(m.value), rest);
    ValueParses(m.value, rest);
    ColonThenValue(m, value, rest);
  }

  lemma ColonThenValue(m: Member, value: Bytes, rest: Bytes)
    requires value != [] && !Space(value[0]) && ParseValue(value) == Some(Parsed(m.value, rest))
    requires ParseString(Quoted(m.key) + ([COLON] + value)) == Some(Parsed(m.key, [COLON] + value))
    ensures ParseMember(Quoted(m.key) + ([COLON] + value)) == Some(Parsed(m, rest))
  {
    SkipNothing(COLON, value);
    ConsParts(COLON, value);
    assert value == [value[0]] + value[1..];
    SkipNothing(value[0], value[1..]);
  }

  /** A member in front of others that parse. */
  lemma FrontMember(m: Member, ms: seq<Member>, more: Bytes)
    requires Writable(m) && more != [] && more[0] == QUOTE && ParseMembers(more) == Some(Parsed(ms, []))
    ensures var w := RenderMember(m) + ([COMMA] + more);
            ParseMembers(w) == Some(Parsed([m] + ms, [])) && w[0] == QUOTE
  {
    MemberParses(m, [COMMA] + more);
    MoreMembers(RenderMember(m) + ([COMMA] + more), m, more, ms);
  }

  lemma {:induction false} MembersParse(ms: seq<Member>)
    requires ms != [] && forall i :: 0 <= i < |ms| ==> Writable(ms[i])
    ensures ParseMembers(RenderMembers(ms)) == Some(Parsed(ms, []))
    ensures RenderMembers(ms) != [] && RenderMembers(ms)[0] == QUOTE
    decreases |ms|
  {
    if |ms| == 1 {
      LastMember(ms[0]);
      assert [ms[0]] == ms;
    } else {
      MembersParse(ms[1..]);
      FrontMember(ms[0], ms[1..], RenderMembers(ms[1..]));
      assert [ms[0]] + ms[1..] == ms;
    }
  }

  lemma LastMember(m: Member)
    requires Writable(m)
    ensures ParseMembers(RenderMember(m) + [CLOSE]) == Some(Parsed([m], []))
    ensures (RenderMember(m) + [CLOSE])[0] == QUOTE
  {
    MemberParses(m, [CLOSE]);
    SkipNothing(CLOSE, []);
    assert [CLOSE] + [] == [CLOSE];
  }

  /** White space may stand in front of what begins with a quote, but there is none. */
  lemma SkipToQuote(more: Bytes)
    requires more != [] && more[0] == QUOTE
    ensures Skip(more) == more
  {
    assert more == [more[0]] + more[1..];
    SkipNothing(more[0], more[1..]);
  }

  /** A text that begins with a member and a comma has that member in front of the rest. */
  lemma MoreMembers(w: Bytes, m: Member, more: Bytes, ms: seq<Member>)
    requires ParseMember(w) == Some(Parsed(m, [COMMA] + more))
    requires more != [] && more[0] == QUOTE && ParseMembers(more) == Some(Parsed(ms, []))
    ensures ParseMembers(w) == Some(Parsed([m] + ms, []))
  {
    SkipNothing(COMMA, more);
    ConsParts(COMMA, more);
    SkipToQuote(more);
    BehindComma(w, m, [COMMA] + more, more, Parsed(ms, []));
  }

  lemma BehindComma(w: Bytes, m: Member, rest: Bytes, more: Bytes, tail: Parsed<seq<Member>>)
    requires ParseMember(w) == Some(Parsed(m, rest)) && Skip(rest) == rest
    requires rest != [] && rest[0] == COMMA && rest[1..] == more
    requires Skip(more) == more && ParseMembers(more) == Some(tail)
    ensures ParseMembers(w) == Some(Parsed([m] + tail.value, tail.rest))
  {
  }

  /** Reading a written object gives its members back. */
  lemma ObjectParses(ms: seq<Member>)
    requires ms != [] && forall i :: 0 <= i < |ms| ==> Writable(ms[i])
    ensures ParseObject(RenderObject(ms)) == Some(ms)
  {
    var body := RenderMembers(ms);
    MembersParse(ms);
    ConsParts(OPEN, body);
    SkipNothing(OPEN, body);
    SkipToQuote(body);
  }

  // ---------------------------------------------------------------------------- size

  /** The characters of a member before escaping. */
  function Weight(m: Member): nat {
    |m.key| + if m.value.Text? then |m.value.text| else |Digits(m.value.number)|
  }

  function TotalWeight(ms: seq<Member>): nat {
    if ms == [] then 0 else Weight(ms[0]) + TotalWeight(ms[1..])
  }

  lemma MemberSize(m: Member)
    ensures |RenderMember(m)| <= 6 * Weight(m) + 5
  {
  }

  /** Escaping is at most six-fold; quotes and punctuation add six per member. */
  lemma {:induction false} ObjectSize(ms: seq<Member>)
    requires ms != []
    ensures |RenderMembers(ms)| <= 6 * TotalWeight(ms) + 6 * |ms|
    decreases |ms|
  {
    MemberSize(ms[0]);
    if |ms| > 1 {
      ObjectSize(ms[1..]);
    }
  }

  lemma {:induction false} ParsedTextIsUtf8(w: Bytes)
    ensures ParseMembers(w).Some? ==>
              forall m :: m in ParseMembers(w).value.value ==>
                Utf8.ValidFrom(m.key, 0) && (m.value.Text? ==> Utf8.ValidFrom(m.value.text, 0))
    decreases |w|
  {
    var m := ParseMember(w);
    if m.Some? {
      var after := Skip(m.value.rest);
      if after != [] && after[0] == COMMA {
        ParsedTextIsUtf8(Skip(after[1..]));
      }
    }
  }
}
