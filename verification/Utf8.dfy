/** UTF-8 (RFC 3629 section 4) as `valid_utf8` checks it. */
module Utf8 {
  import opened Common

  predicate Scalar(c: int) {
    0 <= c <= 0x10ffff && !(0xd800 <= c <= 0xdfff)
  }

  /** The octets of one scalar value. */
  function EncodeScalar(c: int): (s: Bytes)
    requires Scalar(c)
    ensures 1 <= |s| <= 4
  {
    if c < 0x80 then [c]
    else if c < 0x800 then [0xc0 + c / 64, 0x80 + c % 64]
    else if c < 0x10000 then [0xe0 + c / 4096, 0x80 + c / 64 % 64, 0x80 + c % 64]
    else [0xf0 + c / 262144, 0x80 + c / 4096 % 64, 0x80 + c / 64 % 64, 0x80 + c % 64]
  }

  function EncodeAll(cs: seq<int>): Bytes
    requires forall i :: 0 <= i < |cs| ==> Scalar(cs[i])
  {
    if cs == [] then [] else EncodeScalar(cs[0]) + EncodeAll(cs[1..])
  }

  /** The texts that are a concatenation of encoded scalar values. */
  ghost predicate IsUtf8(s: Bytes) {
    exists cs: seq<int> :: (forall i :: 0 <= i < |cs| ==> Scalar(cs[i])) && EncodeAll(cs) == s
  }

  // ------------------------------------------------------------------- the check

  /** How many continuation octets a lead octet announces, the bits it carries and the least value. */
  datatype Lead = Lead(count: nat, code: nat, least: nat)

  function LeadOf(a: Byte): Option<Lead> {
    if a < 0x80 then Some(Lead(0, a, 0))
    else if 0xc2 <= a <= 0xdf then Some(Lead(1, a % 32, 0x80))
    else if 0xe0 <= a <= 0xef then Some(Lead(2, a % 16, 0x800))
    else if 0xf0 <= a <= 0xf4 then Some(Lead(3, a % 8, 0x10000))
    else None
  }

  predicate Continuation(b: Byte) {
    b / 64 == 2
  }

  predicate Continued(s: Bytes, i: nat, n: nat)
    requires i + n <= |s|
  {
    forall k :: i <= k < i + n ==> Continuation(s[k])
  }

  /** The code point after `n` continuation octets. */
  function CodeAfter(s: Bytes, i: nat, code: nat, n: nat): nat
    requires i + n <= |s|
    decreases n
  {
    if n == 0 then code else CodeAfter(s, i, code, n - 1) * 64 + s[i + n - 1] % 64
  }

  /** The scalar value whose octets start at `i`, if there is one. */
  function DecodeOne(s: Bytes, i: nat): Option<int>
    requires i < |s|
  {
    match LeadOf(s[i])
    case None => None
    case Some(lead) =>
      if i + 1 + lead.count > |s| then None
      else if !Continued(s, i + 1, lead.count) then None
      else
        var code := CodeAfter(s, i + 1, lead.code, lead.count);
        if code < lead.least || !Scalar(code) then None else Some(code)
  }

  predicate ValidFrom(s: Bytes, i: nat)
    requires i <= |s|
    decreases |s| - i
  {
    i == |s| || (DecodeOne(s, i).Some? && i + 1 + LeadOf(s[i]).value.count <= |s|
      && ValidFrom(s, i + 1 + LeadOf(s[i]).value.count))
  }

  lemma TwoOctets(c: int)
    requires 0x80 <= c < 0x800
    ensures var a, b := 0xc0 + c / 64, 0x80 + c % 64;
            0xc2 <= a <= 0xdf && a % 32 == c / 64 && b / 64 == 2 && b < 192 && a % 32 * 64 + b % 64 == c
  {
  }

  lemma ThreeOctets(c: int)
    requires 0x800 <= c < 0x10000
    ensures var a, b, d := 0xe0 + c / 4096, 0x80 + c / 64 % 64, 0x80 + c % 64;
            && 0xe0 <= a <= 0xef && a % 16 == c / 4096 && b / 64 == 2 && d / 64 == 2 && b < 192 && d < 192
            && (a % 16 * 64 + b % 64) * 64 + d % 64 == c
  {
    assert c / 64 / 64 == c / 4096;
    assert c / 64 == c / 4096 * 64 + c / 64 % 64;
  }

  lemma FourOctets(c: int)
    requires 0x10000 <= c <= 0x10ffff
    ensures var a, b, d, e := 0xf0 + c / 262144, 0x80 + c / 4096 % 64, 0x80 + c / 64 % 64, 0x80 + c % 64;
            && 0xf0 <= a <= 0xf4 && a % 8 == c / 262144 && b / 64 == 2 && d / 64 == 2 && e / 64 == 2
            && b < 192 && d < 192 && e < 192
            && ((a % 8 * 64 + b % 64) * 64 + d % 64) * 64 + e % 64 == c
  {
    assert c / 64 / 64 == c / 4096 && c / 4096 / 64 == c / 262144;
    assert c / 64 == c / 4096 * 64 + c / 64 % 64;
    assert c / 4096 == c / 262144 * 64 + c / 4096 % 64;
  }

  lemma TwoBack(a: Byte, b: Byte)
    requires 0xc2 <= a <= 0xdf && Continuation(b)
    ensures var c := a % 32 * 64 + b % 64; Scalar(c) && EncodeScalar(c) == [a, b]
  {
  }

  lemma ThreeBack(a: Byte, b: Byte, d: Byte)
    requires 0xe0 <= a <= 0xef && Continuation(b) && Continuation(d)
    requires var c := (a % 16 * 64 + b % 64) * 64 + d % 64; Scalar(c) && c >= 0x800
    ensures var c := (a % 16 * 64 + b % 64) * 64 + d % 64; EncodeScalar(c) == [a, b, d]
  {
    var h := a % 16 * 64 + b % 64;
    var c := h * 64 + d % 64;
    assert c / 64 == h && c % 64 == d % 64;
    assert h / 64 == a % 16 && h % 64 == b % 64;
    assert c / 4096 == c / 64 / 64;
  }

  lemma FourBack(a: Byte, b: Byte, d: Byte, e: Byte)
    requires 0xf0 <= a <= 0xf4 && Continuation(b) && Continuation(d) && Continuation(e)
    requires var c := ((a % 8 * 64 + b % 64) * 64 + d % 64) * 64 + e % 64; Scalar(c) && c >= 0x10000
    ensures var c := ((a % 8 * 64 + b % 64) * 64 + d % 64) * 64 + e % 64; EncodeScalar(c) == [a, b, d, e]
  {
    var g := a % 8 * 64 + b % 64;
    var h := g * 64 + d % 64;
    var c := h * 64 + e % 64;
    assert c / 64 == h && c % 64 == e % 64;
    assert h / 64 == g && h % 64 == d % 64;
    assert g / 64 == a % 8 && g % 64 == b % 64;
    assert c / 4096 == c / 64 / 64 && c / 262144 == c / 64 / 64 / 64;
  }

  lemma CodeUnfolds(s: Bytes, i: nat, code: nat, n: nat)
    requires i + n <= |s| && n <= 3
    ensures CodeAfter(s, i, code, n) ==
            if n == 0 then code
            else if n == 1 then code * 64 + s[i] % 64
            else if n == 2 then (code * 64 + s[i] % 64) * 64 + s[i + 1] % 64
            else ((code * 64 + s[i] % 64) * 64 + s[i + 1] % 64) * 64 + s[i + 2] % 64
  {
    assert n >= 1 ==> CodeAfter(s, i, code, 1) == CodeAfter(s, i, code, 0) * 64 + s[i] % 64;
    assert n >= 2 ==> CodeAfter(s, i, code, 2) == CodeAfter(s, i, code, 1) * 64 + s[i + 1] % 64;
  }

  lemma SliceAt(s: Bytes, i: nat, e: Bytes)
    requires i + |e| <= |s| && s[i..i + |e|] == e
    ensures |e| >= 1 ==> s[i] == e[0]
    ensures |e| >= 2 ==> s[i + 1] == e[1]
    ensures |e| >= 3 ==> s[i + 2] == e[2]
    ensures |e| >= 4 ==> s[i + 3] == e[3]
  {
    var t := s[i..i + |e|];
    assert |e| >= 1 ==> s[i] == t[0];
    assert |e| >= 2 ==> s[i + 1] == t[1];
    assert |e| >= 3 ==> s[i + 2] == t[2];
    assert |e| >= 4 ==> s[i + 3] == t[3];
  }

  lemma DecodeTwo(c: int, s: Bytes, i: nat)
    requires 0x80 <= c < 0x800 && i + 2 <= |s| && s[i] == 0xc0 + c / 64 && s[i + 1] == 0x80 + c % 64
    ensures DecodeOne(s, i) == Some(c) && LeadOf(s[i]).value.count == 1
  {
    TwoOctets(c);
    CodeUnfolds(s, i + 1, LeadOf(s[i]).value.code, 1);
  }

  lemma DecodeThree(c: int, s: Bytes, i: nat)
    requires 0x800 <= c < 0x10000 && Scalar(c) && i + 3 <= |s|
    requires s[i] == 0xe0 + c / 4096 && s[i + 1] == 0x80 + c / 64 % 64 && s[i + 2] == 0x80 + c % 64
    ensures DecodeOne(s, i) == Some(c) && LeadOf(s[i]).value.count == 2
  {
    ThreeOctets(c);
    CodeUnfolds(s, i + 1, LeadOf(s[i]).value.code, 2);
  }

  lemma DecodeFour(c: int, s: Bytes, i: nat)
    requires 0x10000 <= c <= 0x10ffff && i + 4 <= |s| && s[i] == 0xf0 + c / 262144
    requires s[i + 1] == 0x80 + c / 4096 % 64 && s[i + 2] == 0x80 + c / 64 % 64 && s[i + 3] == 0x80 + c % 64
    ensures DecodeOne(s, i) == Some(c) && LeadOf(s[i]).value.count == 3
  {
    FourOctets(c);
    CodeUnfolds(s, i + 1, LeadOf(s[i]).value.code, 3);
  }

  /** Whatever follows, an encoded scalar value is recognised. */
  lemma DecodeEncoded(c: int, s: Bytes, i: nat)
    requires Scalar(c) && i + |EncodeScalar(c)| <= |s| && s[i..i + |EncodeScalar(c)|] == EncodeScalar(c)
    ensures DecodeOne(s, i) == Some(c) && 1 + LeadOf(s[i]).value.count == |EncodeScalar(c)|
  {
    SliceAt(s, i, EncodeScalar(c));
    if c < 0x80 {
      CodeUnfolds(s, i + 1, c, 0);
    } else if c < 0x800 {
      DecodeTwo(c, s, i);
    } else if c < 0x10000 {
      DecodeThree(c, s, i);
    } else {
      DecodeFour(c, s, i);
    }
  }

  lemma EncodeTwo(s: Bytes, i: nat)
    requires i < |s| && DecodeOne(s, i).Some? && LeadOf(s[i]).value.count == 1
    ensures EncodeScalar(DecodeOne(s, i).value) == [s[i], s[i + 1]]
  {
    CodeUnfolds(s, i + 1, LeadOf(s[i]).value.code, 1);
    assert Continuation(s[i + 1]);
    TwoBack(s[i], s[i + 1]);
  }

  lemma EncodeThree(s: Bytes, i: nat)
    requires i < |s| && DecodeOne(s, i).Some? && LeadOf(s[i]).value.count == 2
    ensures EncodeScalar(DecodeOne(s, i).value) == [s[i], s[i + 1], s[i + 2]]
  {
    CodeUnfolds(s, i + 1, LeadOf(s[i]).value.code, 2);
    assert Continuation(s[i + 1]) && Continuation(s[i + 2]);
    ThreeBack(s[i], s[i + 1], s[i + 2]);
  }

  lemma EncodeFour(s: Bytes, i: nat)
    requires i < |s| && DecodeOne(s, i).Some? && LeadOf(s[i]).value.count == 3
    ensures EncodeScalar(DecodeOne(s, i).value) == [s[i], s[i + 1], s[i + 2], s[i + 3]]
  {
    CodeUnfolds(s, i + 1, LeadOf(s[i]).value.code, 3);
    assert Continuation(s[i + 1]) && Continuation(s[i + 2]) && Continuation(s[i + 3]);
    FourBack(s[i], s[i + 1], s[i + 2], s[i + 3]);
  }

  /** What is recognised is the encoding of its scalar value. */
  lemma EncodeDecoded(s: Bytes, i: nat)
    requires i < |s| && DecodeOne(s, i).Some?
    ensures var c, n := DecodeOne(s, i).value, 1 + LeadOf(s[i]).value.count;
            Scalar(c) && i + n <= |s| && EncodeScalar(c) == s[i..i + n]
  {
    var n := LeadOf(s[i]).value.count;
    var t := s[i..i + 1 + n];
    if n == 0 {
      CodeUnfolds(s, i + 1, LeadOf(s[i]).value.code, 0);
      assert t == [s[i]];
    } else if n == 1 {
      EncodeTwo(s, i);
      assert t == [s[i], s[i + 1]];
    } else if n == 2 {
      EncodeThree(s, i);
      assert t == [s[i], s[i + 1], s[i + 2]];
    } else {
      EncodeFour(s, i);
      assert t == [s[i], s[i + 1], s[i + 2], s[i + 3]];
    }
  }

  lemma SplitAt(s: Bytes, i: nat, e: Bytes, rest: Bytes)
    requires i <= |s| && s[i..] == e + rest
    ensures i + |e| <= |s| && s[i..i + |e|] == e && s[i + |e|..] == rest
  {
    assert s[i..i + |e|] == s[i..][..|e|];
    assert s[i + |e|..] == s[i..][|e|..];
  }

  /** A character in front of a valid rest. */
  lemma EncodedFirst(c: int, rest: Bytes, s: Bytes, i: nat)
    requires Scalar(c) && i <= |s| && s[i..] == EncodeScalar(c) + rest
    ensures var next := i + |EncodeScalar(c)|;
            next <= |s| && s[next..] == rest && (ValidFrom(s, next) ==> ValidFrom(s, i))
  {
    SplitAt(s, i, EncodeScalar(c), rest);
    DecodeEncoded(c, s, i);
    ValidOnward(s, i);
  }

  lemma {:induction false} EncodedIsValid(cs: seq<int>, s: Bytes, i: nat)
    requires forall k :: 0 <= k < |cs| ==> Scalar(cs[k])
    requires i <= |s| && s[i..] == EncodeAll(cs)
    ensures ValidFrom(s, i)
    decreases |cs|
  {
    if cs != [] {
      EncodedFirst(cs[0], EncodeAll(cs[1..]), s, i);
      EncodedIsValid(cs[1..], s, i + |EncodeScalar(cs[0])|);
    }
  }

  lemma EncodeAllCons(c: int, rest: seq<int>)
    requires Scalar(c) && forall k :: 0 <= k < |rest| ==> Scalar(rest[k])
    ensures forall k :: 0 <= k < |rest| + 1 ==> Scalar(([c] + rest)[k])
    ensures EncodeAll([c] + rest) == EncodeScalar(c) + EncodeAll(rest)
  {
    ConsParts(c, rest);
  }

  lemma {:induction false} ValidIsEncoded(s: Bytes, i: nat) returns (cs: seq<int>)
    requires i <= |s| && ValidFrom(s, i)
    ensures forall k :: 0 <= k < |cs| ==> Scalar(cs[k])
    ensures EncodeAll(cs) == s[i..]
    decreases |s| - i
  {
    if i == |s| {
      cs := [];
    } else {
      EncodeDecoded(s, i);
      var c, n := DecodeOne(s, i).value, 1 + LeadOf(s[i]).value.count;
      ValidOnward(s, i);
      var rest := ValidIsEncoded(s, i + n);
      cs := [c] + rest;
      EncodeAllCons(c, rest);
      assert s[i..] == s[i..i + n] + s[i + n..];
    }
  }

  /** The check accepts exactly the concatenations of encoded scalar values. */
  lemma ValidIffUtf8(s: Bytes)
    ensures ValidFrom(s, 0) <==> IsUtf8(s)
  {
    assert s[0..] == s;
    if ValidFrom(s, 0) {
      var cs := ValidIsEncoded(s, 0);
    }
    if IsUtf8(s) {
      var cs: seq<int> :| (forall i :: 0 <= i < |cs| ==> Scalar(cs[i])) && EncodeAll(cs) == s;
      EncodedIsValid(cs, s, 0);
    }
  }

  /** The inner loop over the continuation octets of one lead octet. */
  method ReadContinuations(value: Bytes, start: nat, lead: Lead) returns (r: Option<nat>)
    requires start + 1 + lead.count <= |value|
    ensures r.Some? <==> Continued(value, start + 1, lead.count)
    ensures r.Some? ==> r.value == CodeAfter(value, start + 1, lead.code, lead.count)
  {
    var code: nat := lead.code;
    var n, i := 0, start + 1;
    while n < lead.count
      invariant n <= lead.count && i == start + 1 + n
      invariant forall k :: start + 1 <= k < i ==> Continuation(value[k])
      invariant code == CodeAfter(value, start + 1, lead.code, n)
    {
      var b := value[i];
      if b / 64 != 2 {
        assert !Continuation(value[i]);
        return None;
      }
      code := code * 64 + b % 64;
      n, i := n + 1, i + 1;
    }
    r := Some(code);
  }

  /** The body of the outer loop: the length of the character at `i`, or nothing when it is malformed. */
  method CharacterLength(value: Bytes, i: nat) returns (r: Option<nat>)
    requires i < |value|
    ensures r.Some? <==> DecodeOne(value, i).Some?
    ensures r.Some? ==> r.value == 1 + LeadOf(value[i]).value.count && i + r.value <= |value|
  {
    var lead := LeadOf(value[i]);
    if lead.None? || i + 1 + lead.value.count > |value| {
      return None;
    }
    var code := ReadContinuations(value, i, lead.value);
    if code.None? || code.value < lead.value.least || code.value > 0x10ffff || (0xd800 <= code.value <= 0xdfff) {
      return None;
    }
    r := Some(1 + lead.value.count);
  }

  lemma ValidOnward(s: Bytes, i: nat)
    requires i < |s|
    ensures DecodeOne(s, i).None? ==> !ValidFrom(s, i)
    ensures DecodeOne(s, i).Some? ==>
              var next := i + 1 + LeadOf(s[i]).value.count; next <= |s| && (ValidFrom(s, i) <==> ValidFrom(s, next))
  {
  }

  /** `valid_utf8`: an index loop over lead octets. */
  method ScanUtf8(value: Bytes) returns (ok: bool)
    ensures ok <==> ValidFrom(value, 0)
  {
    var i := 0;
    while i < |value|
      invariant i <= |value|
      invariant ValidFrom(value, i) <==> ValidFrom(value, 0)
    {
      var length := CharacterLength(value, i);
      ValidOnward(value, i);
      if length.None? {
        return false;
      }
      i := i + length.value;
    }
    ok := true;
  }

  /** `valid_utf8`, against the standard. */
  method ValidUtf8(value: Bytes) returns (ok: bool)
    ensures ok <==> IsUtf8(value)
  {
    ok := ScanUtf8(value);
    ValidIffUtf8(value);
  }
}
