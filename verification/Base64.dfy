/** Canonical base64 (RFC 4648 sections 3.5 and 4) as `decode_base64` reads it. */
module Base64 {
  import opened Common
  import opened Arithmetic

  const PAD: Byte := 61
  const MAX_DECODED := 65536

  /** The value of an alphabet character, or -1. */
  function Value(c: Byte): (v: int)
    ensures -1 <= v < 64
  {
    if 65 <= c <= 90 then c - 65
    else if 97 <= c <= 122 then c - 97 + 26
    else if 48 <= c <= 57 then c - 48 + 52
    else if c == 43 then 62
    else if c == 47 then 63
    else -1
  }

  function Letter(v: int): Byte
    requires 0 <= v < 64
  {
    if v < 26 then v + 65 else if v < 52 then v - 26 + 97 else if v < 62 then v - 52 + 48 else if v == 62 then 43
    else 47
  }

  lemma LetterValue(v: int, c: Byte)
    ensures 0 <= v < 64 ==> Value(Letter(v)) == v && Letter(v) != PAD
    ensures Value(c) >= 0 ==> Letter(Value(c)) == c
    ensures Value(PAD) == -1
  {
  }

  // ----------------------------------------------------------------- the encoder

  /** Four characters for one to three octets. */
  function EncodeGroup(g: Bytes): (q: Bytes)
    requires 1 <= |g| <= 3
    ensures |q| == 4
  {
    var a := g[0];
    if |g| == 1 then [Letter(a / 4), Letter(a % 4 * 16), PAD, PAD]
    else
      var b := g[1];
      if |g| == 2 then [Letter(a / 4), Letter(a % 4 * 16 + b / 16), Letter(b % 16 * 4), PAD]
      else [Letter(a / 4), Letter(a % 4 * 16 + b / 16), Letter(b % 16 * 4 + g[2] / 64), Letter(g[2] % 64)]
  }

  function Encode(s: Bytes): Bytes {
    if s == [] then []
    else if |s| <= 3 then EncodeGroup(s)
    else EncodeGroup(s[..3]) + Encode(s[3..])
  }

  // ----------------------------------------------------------------- the decoder

  /** One quantum; padding is admitted only in the last one, and only with zero spare bits. */
  function DecodeGroup(w: Byte, x: Byte, y: Byte, z: Byte, last: bool): Option<Bytes> {
    var a, b, c, d := Value(w), Value(x), Value(y), Value(z);
    if a < 0 || b < 0 then None
    else if y == PAD then
      if z != PAD || !last || b % 16 != 0 then None else Some([a * 4 + b / 16])
    else if c < 0 then None
    else if z == PAD then
      if !last || c % 4 != 0 then None else Some([a * 4 + b / 16, (b * 16 + c / 4) % 256])
    else if d < 0 then None
    else Some([a * 4 + b / 16, (b * 16 + c / 4) % 256, (c * 64 + d) % 256])
  }

  function Decode(s: Bytes): Option<Bytes> {
    if s == [] then Some([])
    else if |s| < 4 then None
    else match DecodeGroup(s[0], s[1], s[2], s[3], |s| == 4)
      case None => None
      case Some(g) => Prepend(g, Decode(s[4..]))
  }

  function Prepend(g: Bytes, rest: Option<Bytes>): Option<Bytes> {
    match rest
    case None => None
    case Some(r) => Some(g + r)
  }

  lemma ThreeOctets(a: Byte, b: Byte, c: Byte)
    ensures var x, y := a % 4 * 16 + b / 16, b % 16 * 4 + c / 64;
            a / 4 * 4 + x / 16 == a && (x * 16 + y / 4) % 256 == b && (y * 64 + c % 64) % 256 == c
  {
    var x, y := a % 4 * 16 + b / 16, b % 16 * 4 + c / 64;
    assert x / 16 == a % 4 && x % 16 == b / 16;
    assert y / 4 == b % 16 && y % 4 == c / 64;
    assert x * 16 + y / 4 == a % 4 * 256 + b;
    assert y * 64 + c % 64 == b % 16 * 256 + c;
  }

  lemma LettersDecode(p: int, q: int, r: int, s: int, last: bool)
    requires 0 <= p < 64 && 0 <= q < 64 && 0 <= r < 64 && 0 <= s < 64
    ensures DecodeGroup(Letter(p), Letter(q), Letter(r), Letter(s), last) ==
            Some([p * 4 + q / 16, (q * 16 + r / 4) % 256, (r * 64 + s) % 256])
  {
    LetterValue(p, 0);
    LetterValue(q, 0);
    LetterValue(r, 0);
    LetterValue(s, 0);
  }

  lemma TripleDecodes(a: Byte, b: Byte, c: Byte, last: bool)
    ensures var q := EncodeGroup([a, b, c]); DecodeGroup(q[0], q[1], q[2], q[3], last) == Some([a, b, c])
  {
    TripleLetters(a, b, c);
    LettersDecode(a / 4, a % 4 * 16 + b / 16, b % 16 * 4 + c / 64, c % 64, last);
    ThreeOctets(a, b, c);
  }

  lemma TripleLetters(a: Byte, b: Byte, c: Byte)
    ensures 0 <= a % 4 * 16 + b / 16 < 64 && 0 <= b % 16 * 4 + c / 64 < 64
    ensures EncodeGroup([a, b, c]) ==
            [Letter(a / 4), Letter(a % 4 * 16 + b / 16), Letter(b % 16 * 4 + c / 64), Letter(c % 64)]
  {
  }

  lemma PairDecodes(a: Byte, b: Byte)
    ensures var q := EncodeGroup([a, b]); DecodeGroup(q[0], q[1], q[2], q[3], true) == Some([a, b])
  {
    LetterValue(a / 4, 0);
    LetterValue(a % 4 * 16 + b / 16, 0);
    LetterValue(b % 16 * 4, 0);
    ThreeOctets(a, b, 0);
  }

  lemma SingleDecodes(a: Byte)
    ensures var q := EncodeGroup([a]); DecodeGroup(q[0], q[1], q[2], q[3], true) == Some([a])
  {
    LetterValue(a / 4, 0);
    LetterValue(a % 4 * 16, 0);
  }

  lemma GroupDecodes(g: Bytes, last: bool)
    requires 1 <= |g| <= 3 && (|g| == 3 || last)
    ensures var q := EncodeGroup(g); DecodeGroup(q[0], q[1], q[2], q[3], last) == Some(g)
  {
    if |g| == 1 {
      SingleDecodes(g[0]);
      assert g == [g[0]];
    } else if |g| == 2 {
      PairDecodes(g[0], g[1]);
      assert g == [g[0], g[1]];
    } else {
      TripleDecodes(g[0], g[1], g[2], last);
      assert g == [g[0], g[1], g[2]];
    }
  }

  lemma FirstOctet(a: int, b: int)
    requires 0 <= a < 64 && 0 <= b < 64
    ensures (a * 4 + b / 16) / 4 == a && (a * 4 + b / 16) % 4 == b / 16
  {
    By4(a * 4 + b / 16, a, b / 16);
  }

  lemma MiddleOctet(b: int, c: int)
    requires 0 <= b < 64 && 0 <= c < 64
    ensures var m := (b * 16 + c / 4) % 256; m / 16 == b % 16 && m % 16 == c / 4
  {
    var q, r, d := b / 16, b % 16, c / 4;
    By256(b * 16 + d, q, r * 16 + d);
    By16(r * 16 + d, r, d);
  }

  lemma LastOctet(c: int, d: int)
    requires 0 <= c < 64 && 0 <= d < 64
    ensures var l := (c * 64 + d) % 256; l / 64 == c % 4 && l % 64 == d
  {
    var q, r := c / 4, c % 4;
    By256(c * 64 + d, q, r * 64 + d);
    By64(r * 64 + d, r, d);
  }

  lemma GroupEncodes(w: Byte, x: Byte, y: Byte, z: Byte, last: bool)
    requires DecodeGroup(w, x, y, z, last).Some?
    ensures var g := DecodeGroup(w, x, y, z, last).value;
            1 <= |g| <= 3 && (|g| == 3 || last) && EncodeGroup(g) == [w, x, y, z]
  {
    LetterValue(0, w);
    LetterValue(0, x);
    LetterValue(0, y);
    LetterValue(0, z);
    var a, b, c, d := Value(w), Value(x), Value(y), Value(z);
    FirstOctet(a, b);
    if y != PAD {
      MiddleOctet(b, c);
      if z != PAD {
        LastOctet(c, d);
      }
    }
  }

  /** Every encoding is read back. */
  lemma {:induction false} DecodeEncode(s: Bytes)
    ensures Decode(Encode(s)) == Some(s)
    decreases |s|
  {
    if 1 <= |s| <= 3 {
      GroupDecodes(s, true);
      var q := EncodeGroup(s);
      assert q[4..] == [];
      assert Prepend(s, Decode([])) == Some(s + []);
      assert s + [] == s;
    } else if |s| > 3 {
      var g, rest := s[..3], s[3..];
      DecodeEncode(rest);
      var q := EncodeGroup(g);
      var e := q + Encode(rest);
      EncodeNonEmpty(rest);
      assert e[0] == q[0] && e[1] == q[1] && e[2] == q[2] && e[3] == q[3];
      assert e[4..] == Encode(rest);
      GroupDecodes(g, false);
      assert g + rest == s;
    }
  }

  lemma EncodeNonEmpty(s: Bytes)
    requires s != []
    ensures |Encode(s)| >= 4
  {
  }

  /** Only canonical encodings are accepted. */
  lemma {:induction false} EncodeDecode(s: Bytes)
    requires Decode(s).Some?
    ensures Encode(Decode(s).value) == s
    decreases |s|
  {
    if s != [] {
      GroupEncodes(s[0], s[1], s[2], s[3], |s| == 4);
      var g := DecodeGroup(s[0], s[1], s[2], s[3], |s| == 4).value;
      var rest := Decode(s[4..]).value;
      EncodeDecode(s[4..]);
      assert s == [s[0], s[1], s[2], s[3]] + s[4..];
      if |s| == 4 {
        assert s[4..] == [];
        assert g + rest == g;
      } else {
        assert rest != [];
        assert (g + rest)[..3] == g && (g + rest)[3..] == rest;
      }
    }
  }

  /** What has been decoded so far, and what is left. */
  ghost predicate Decoding(input: Bytes, i: nat, output: Bytes) {
    i <= |input| && i % 4 == 0 && Decode(input) == Prepend(output, Decode(input[i..]))
  }

  /** The loop's invariant across one group. */
  lemma DecodeOnward(input: Bytes, i: nat, output: Bytes)
    requires i < |input| && |input| % 4 == 0 && Decoding(input, i, output)
    ensures i + 4 <= |input|
    ensures match DecodeGroup(input[i], input[i + 1], input[i + 2], input[i + 3], i + 4 == |input|)
            case None => Decode(input) == None
            case Some(g) => Decoding(input, i + 4, output + g)
  {
    DecodeStep(input, i);
    match DecodeGroup(input[i], input[i + 1], input[i + 2], input[i + 3], i + 4 == |input|) {
      case None =>
      case Some(g) => PrependTwice(output, g, Decode(input[i + 4..]));
    }
  }

  lemma DecodeBegins(input: Bytes)
    ensures Decoding(input, 0, [])
  {
    assert input[0..] == input;
    PrependNothing(Decode(input));
  }

  lemma DecodeEnds(input: Bytes, output: Bytes)
    requires Decoding(input, |input|, output)
    ensures Decode(input) == Some(output)
  {
    assert input[|input|..] == [];
    assert output + [] == output;
  }

  lemma DecodesTooMuch(input: Bytes, i: nat, output: Bytes)
    requires Decoding(input, i, output) && |output| > MAX_DECODED
    ensures Decode(input).Some? ==> |Decode(input).value| > MAX_DECODED
  {
  }

  /** The loop of `decode_base64`. */
  method DecodeBase64(input: Bytes) returns (r: Option<Bytes>)
    ensures r == match Decode(input)
                 case None => None
                 case Some(out) => if |out| <= MAX_DECODED then Some(out) else None
  {
    DecodeLength(input);
    if |input| % 4 != 0 {
      return None;
    }
    var output: Bytes := [];
    var i := 0;
    DecodeBegins(input);
    while i < |input|
      invariant |output| <= MAX_DECODED && Decoding(input, i, output)
    {
      DecodeOnward(input, i, output);
      var last := i + 4 == |input|;
      var group := DecodeGroup(input[i], input[i + 1], input[i + 2], input[i + 3], last);
      if group.None? {
        return None;
      }
      output := output + group.value;
      i := i + 4;
      if |output| > MAX_DECODED {
        DecodesTooMuch(input, i, output);
        return None;
      }
    }
    DecodeEnds(input, output);
    r := Some(output);
  }

  lemma PrependNothing(d: Option<Bytes>)
    ensures Prepend([], d) == d
  {
    if d.Some? {
      assert [] + d.value == d.value;
    }
  }

  lemma PrependTwice(a: Bytes, b: Bytes, d: Option<Bytes>)
    ensures Prepend(a, Prepend(b, d)) == Prepend(a + b, d)
  {
    if d.Some? {
      assert a + (b + d.value) == a + b + d.value;
    }
  }

  lemma DecodeStep(s: Bytes, i: nat)
    requires i + 4 <= |s|
    ensures Decode(s[i..]) ==
            match DecodeGroup(s[i], s[i + 1], s[i + 2], s[i + 3], i + 4 == |s|)
            case None => None
            case Some(g) => Prepend(g, Decode(s[i + 4..]))
  {
    var t := s[i..];
    assert t[0] == s[i] && t[1] == s[i + 1] && t[2] == s[i + 2] && t[3] == s[i + 3];
    assert t[4..] == s[i + 4..];
  }

  lemma {:induction false} DecodeLength(s: Bytes)
    ensures |s| % 4 != 0 ==> Decode(s).None?
    decreases |s|
  {
    if |s| >= 4 {
      DecodeLength(s[4..]);
    }
  }

  /**
   The two directions together: a text is accepted exactly when it is the canonical encoding
   of at most 65536 octets, and then those octets are the result.
   */
  lemma AcceptsCanonical(input: Bytes)
    ensures var accepted := Decode(input).Some? && |Decode(input).value| <= MAX_DECODED;
            accepted <==> exists out: Bytes :: |out| <= MAX_DECODED && Encode(out) == input
    ensures forall out: Bytes :: Encode(out) == input ==> Decode(input) == Some(out)
  {
    if Decode(input).Some? {
      EncodeDecode(input);
    }
    forall out: Bytes | Encode(out) == input
      ensures Decode(input) == Some(out)
    {
      DecodeEncode(out);
    }
  }
}
