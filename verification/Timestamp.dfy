/** RFC 3339 section 5.6 timestamps of the A2A task interface: `timestamp_ms` and `timestamp`. */
module Timestamp {
  import opened Common
  import opened Arithmetic
  import opened Calendar

  datatype Zone = Utc | Offset(negative: bool, hours: nat, minutes: nat)

  /** The parts of a timestamp. The fraction is the list of its decimal digits. */
  datatype Stamp = Stamp(date: Date, hour: nat, minute: nat, second: nat, fraction: seq<nat>, zone: Zone)

  predicate DigitsOk(f: seq<nat>) {
    forall i :: 0 <= i < |f| ==> f[i] <= 9
  }

  /** What the interface admits: no leap second, no year zero, at most nine fraction digits. */
  predicate Admitted(t: Stamp) {
    && Calendar.Valid(t.date) && 1 <= t.date.year <= 9999
    && t.hour <= 23 && t.minute <= 59 && t.second <= 59
    && |t.fraction| <= 9 && DigitsOk(t.fraction)
    && (t.zone.Offset? ==> t.zone.hours <= 23 && t.zone.minutes <= 59)
  }

  // ------------------------------------------------------------------ rendering

  function Digit(n: int): char {
    ('0' as int + n % 10) as char
  }

  predicate IsDigit(c: char) {
    '0' <= c <= '9'
  }

  function DigitValue(c: char): nat
    requires IsDigit(c)
  {
    (c as int) - ('0' as int)
  }

  lemma DigitInverse(n: nat, c: char)
    ensures IsDigit(Digit(n)) && DigitValue(Digit(n)) == n % 10
    ensures IsDigit(c) ==> DigitValue(c) <= 9 && Digit(DigitValue(c)) == c
  {
  }

  /** The ten characters of the date. */
  function DateHead(t: Stamp): (s: string)
    ensures |s| == 10
  {
    var y, m, d := t.date.year, t.date.month, t.date.day;
    [Digit(y / 1000), Digit(y / 100), Digit(y / 10), Digit(y), '-', Digit(m / 10), Digit(m), '-', Digit(d / 10),
     Digit(d)]
  }

  function ClockHead(t: Stamp): (s: string)
    ensures |s| == 9
  {
    ['T', Digit(t.hour / 10), Digit(t.hour), ':', Digit(t.minute / 10), Digit(t.minute), ':', Digit(t.second / 10),
     Digit(t.second)]
  }

  function Head(t: Stamp): (s: string)
    ensures |s| == 19
  {
    DateHead(t) + ClockHead(t)
  }

  function DigitText(f: seq<nat>): string {
    seq(|f|, i requires 0 <= i < |f| => Digit(f[i]))
  }

  function FractionText(f: seq<nat>): string {
    if f == [] then "" else ['.'] + DigitText(f)
  }

  function ZoneText(z: Zone): string {
    match z
    case Utc => ['Z']
    case Offset(negative, h, m) =>
      [if negative then '-' else '+', Digit(h / 10), Digit(h), ':', Digit(m / 10), Digit(m)]
  }

  function Render(t: Stamp): string {
    Head(t) + FractionText(t.fraction) + ZoneText(t.zone)
  }

  // -------------------------------------------------------------------- parsing

  /** The two-digit number at `at`. */
  function Two(text: string, at: nat): Option<nat> {
    if at + 2 <= |text| && IsDigit(text[at]) && IsDigit(text[at + 1])
    then Some(DigitValue(text[at]) * 10 + DigitValue(text[at + 1])) else None
  }

  function Four(text: string, at: nat): Option<nat> {
    match (Two(text, at), Two(text, at + 2))
    case (Some(a), Some(b)) => Some(a * 100 + b)
    case _ => None
  }

  function ParseHead(text: string): Option<Stamp> {
    if |text| < 20 || text[4] != '-' || text[7] != '-' || text[10] != 'T' || text[13] != ':' || text[16] != ':' then
      None
    else
      match (Four(text, 0), Two(text, 5), Two(text, 8), Two(text, 11), Two(text, 14), Two(text, 17))
      case (Some(y), Some(mo), Some(d), Some(h), Some(mi), Some(s)) =>
        var date := Date(y, mo, d);
        if Calendar.Valid(date) && y >= 1 && h <= 23 && mi <= 59 && s <= 59
        then Some(Stamp(date, h, mi, s, [], Utc)) else None
      case _ => None
  }

  /** The end of the digits that start at `at`. */
  function DigitsEnd(text: string, at: nat): (end: nat)
    requires at <= |text|
    ensures at <= end <= |text|
    ensures forall i :: at <= i < end ==> IsDigit(text[i])
    ensures end < |text| ==> !IsDigit(text[end])
    decreases |text| - at
  {
    if at < |text| && IsDigit(text[at]) then DigitsEnd(text, at + 1) else at
  }

  function DigitValues(s: string): seq<nat>
    requires forall i :: 0 <= i < |s| ==> IsDigit(s[i])
  {
    seq(|s|, i requires 0 <= i < |s| => DigitValue(s[i]))
  }

  function ParseZone(text: string, at: nat): Option<Zone> {
    if at + 1 == |text| && text[at] == 'Z' then Some(Utc)
    else if at + 6 == |text| && (text[at] == '+' || text[at] == '-') && text[at + 3] == ':' then
      match (Two(text, at + 1), Two(text, at + 4))
      case (Some(h), Some(m)) => if h <= 23 && m <= 59 then Some(Offset(text[at] == '-', h, m)) else None
      case _ => None
    else None
  }

  function ParseTail(text: string, head: Stamp): Option<Stamp>
    requires |text| >= 20
  {
    var dot := text[19] == '.';
    var end := if dot then DigitsEnd(text, 20) else 19;
    var f := if dot then DigitValues(text[20..end]) else [];
    if dot && (end == 20 || end - 20 > 9) then None
    else match ParseZone(text, end)
      case Some(z) => Some(head.(fraction := f, zone := z))
      case None => None
  }

  function Parse(text: string): Option<Stamp> {
    if |text| < 20 || |text| > 35 then None
    else match ParseHead(text)
      case Some(head) => ParseTail(text, head)
      case None => None
  }

  lemma TwoRendered(n: nat, text: string, at: nat)
    requires n <= 99 && at + 2 <= |text| && text[at] == Digit(n / 10) && text[at + 1] == Digit(n)
    ensures Two(text, at) == Some(n)
  {
    DigitInverse(n / 10, text[at]);
    DigitInverse(n, text[at + 1]);
  }

  lemma TwoParsed(text: string, at: nat)
    requires Two(text, at).Some?
    ensures var n := Two(text, at).value; n <= 99 && text[at] == Digit(n / 10) && text[at + 1] == Digit(n)
  {
    DigitInverse(0, text[at]);
    DigitInverse(0, text[at + 1]);
    var a, b := DigitValue(text[at]), DigitValue(text[at + 1]);
    assert (a * 10 + b) / 10 == a && (a * 10 + b) % 10 == b;
    assert Digit(a * 10 + b) == Digit(b);
  }

  lemma FourRendered(y: nat, text: string)
    requires y <= 9999 && |text| >= 4
    requires text[0] == Digit(y / 1000) && text[1] == Digit(y / 100) && text[2] == Digit(y / 10) && text[3] == Digit(y)
    ensures Four(text, 0) == Some(y)
  {
    FourDigits(y / 100, y % 100);
    TwoRendered(y / 100, text, 0);
    TwoRendered(y % 100, text, 2);
  }

  lemma Tenth(x: int, q: int, r: int)
    requires x == 10 * q + r && 0 <= r < 10
    ensures x / 10 == q && x % 10 == r
  {
  }

  lemma Hundredth(x: int, q: int, r: int)
    requires x == 100 * q + r && 0 <= r < 100
    ensures x / 100 == q
  {
  }

  lemma Thousandth(x: int, q: int, r: int)
    requires x == 1000 * q + r && 0 <= r < 1000
    ensures x / 1000 == q
  {
  }

  lemma FourDigits(hi: nat, lo: nat)
    requires hi <= 99 && lo <= 99
    ensures var y := hi * 100 + lo;
            y / 1000 == hi / 10 && y / 100 == hi && Digit(y / 10) == Digit(lo / 10) && Digit(y) == Digit(lo)
  {
    var y, c, d, a, b := hi * 100 + lo, hi / 10, hi % 10, lo / 10, lo % 10;
    Thousandth(y, c, 100 * d + lo);
    Hundredth(y, hi, lo);
    Tenth(y, hi * 10 + a, b);
    Tenth(hi * 10 + a, hi, a);
    Tenth(a, 0, a);
  }

  lemma FourParsed(text: string)
    requires Four(text, 0).Some?
    ensures var y := Four(text, 0).value;
            y <= 9999 && text[0] == Digit(y / 1000) && text[1] == Digit(y / 100) && text[2] == Digit(y / 10)
              && text[3] == Digit(y)
  {
    TwoParsed(text, 0);
    TwoParsed(text, 2);
    FourDigits(Two(text, 0).value, Two(text, 2).value);
  }

  /** The nineteen characters of a head, one by one. */
  ghost predicate SpellsDate(text: string, t: Stamp) {
    && |text| >= 20
    && text[0] == Digit(t.date.year / 1000) && text[1] == Digit(t.date.year / 100)
    && text[2] == Digit(t.date.year / 10) && text[3] == Digit(t.date.year)
    && text[4] == '-' && text[5] == Digit(t.date.month / 10) && text[6] == Digit(t.date.month)
    && text[7] == '-' && text[8] == Digit(t.date.day / 10) && text[9] == Digit(t.date.day)
  }

  ghost predicate SpellsClock(text: string, t: Stamp) {
    && |text| >= 20
    && text[10] == 'T' && text[11] == Digit(t.hour / 10) && text[12] == Digit(t.hour)
    && text[13] == ':' && text[14] == Digit(t.minute / 10) && text[15] == Digit(t.minute)
    && text[16] == ':' && text[17] == Digit(t.second / 10) && text[18] == Digit(t.second)
  }

  lemma HeadHalves(t: Stamp, text: string)
    requires |text| >= 20
    ensures text[..19] == Head(t) <==> text[..10] == DateHead(t) && text[10..19] == ClockHead(t)
  {
    assert text[..19][..10] == text[..10] && text[..19][10..] == text[10..19];
    assert Head(t)[..10] == DateHead(t) && Head(t)[10..] == ClockHead(t);
    assert text[..19] == text[..10] + text[10..19];
  }

  lemma DateSpells(t: Stamp, text: string)
    requires |text| >= 20
    ensures text[..10] == DateHead(t) <==> SpellsDate(text, t)
  {
    var s := text[..10];
    assert forall i :: 0 <= i < 10 ==> text[i] == s[i];
  }

  lemma ClockSpells(t: Stamp, text: string)
    requires |text| >= 20
    ensures text[10..19] == ClockHead(t) <==> SpellsClock(text, t)
  {
    var s := text[10..19];
    assert forall i :: 10 <= i < 19 ==> text[i] == s[i - 10];
  }

  lemma HeadRendered(t: Stamp, text: string)
    requires Admitted(t) && |text| >= 20 && text[..19] == Head(t)
    ensures ParseHead(text) == Some(t.(fraction := [], zone := Utc))
  {
    HeadHalves(t, text);
    DateSpells(t, text);
    ClockSpells(t, text);
    SpelledParses(t, text);
  }

  lemma SpelledParses(t: Stamp, text: string)
    requires Admitted(t) && SpellsDate(text, t) && SpellsClock(text, t)
    ensures ParseHead(text) == Some(t.(fraction := [], zone := Utc))
  {
    assert t.date.month <= 12 && t.date.day <= 31;
    FourRendered(t.date.year, text);
    TwoRendered(t.date.month, text, 5);
    TwoRendered(t.date.day, text, 8);
    TwoRendered(t.hour, text, 11);
    TwoRendered(t.minute, text, 14);
    TwoRendered(t.second, text, 17);
  }

  lemma HeadParsed(text: string)
    requires ParseHead(text).Some?
    ensures var t := ParseHead(text).value;
            Admitted(t) && t.fraction == [] && t.zone == Utc && text[..19] == Head(t)
  {
    FourParsed(text);
    TwoParsed(text, 5);
    TwoParsed(text, 8);
    TwoParsed(text, 11);
    TwoParsed(text, 14);
    TwoParsed(text, 17);
    var t := ParseHead(text).value;
    HeadHalves(t, text);
    DateSpells(t, text);
    ClockSpells(t, text);
  }

  lemma ZoneRendered(z: Zone, text: string, at: nat)
    requires z.Offset? ==> z.hours <= 23 && z.minutes <= 59
    requires at <= |text| && text[at..] == ZoneText(z)
    ensures ParseZone(text, at) == Some(z)
  {
    assert forall i :: 0 <= i < |text| - at ==> text[at + i] == text[at..][i];
    if z.Offset? {
      assert |text[at..]| == 6;
      assert text[at + 1] == text[at..][1] && text[at + 2] == text[at..][2] && text[at + 3] == text[at..][3];
      assert text[at + 4] == text[at..][4] && text[at + 5] == text[at..][5];
      TwoRendered(z.hours, text, at + 1);
      TwoRendered(z.minutes, text, at + 4);
      assert text[at] == text[at..][0];
    } else {
      assert text[at] == text[at..][0];
    }
  }

  lemma ZoneParsed(text: string, at: nat)
    requires ParseZone(text, at).Some?
    ensures at < |text|
    ensures var z := ParseZone(text, at).value;
            (z.Offset? ==> z.hours <= 23 && z.minutes <= 59) && text[at..] == ZoneText(z)
  {
    var z := ParseZone(text, at).value;
    if z.Offset? {
      TwoParsed(text, at + 1);
      TwoParsed(text, at + 4);
    }
  }

  lemma DigitsRoundTrip(f: seq<nat>, s: string)
    requires DigitsOk(f)
    requires forall i :: 0 <= i < |s| ==> IsDigit(s[i])
    ensures forall i :: 0 <= i < |f| ==> IsDigit(DigitText(f)[i])
    ensures DigitValues(DigitText(f)) == f
    ensures DigitsOk(DigitValues(s)) && DigitText(DigitValues(s)) == s
  {
    forall i | 0 <= i < |f|
      ensures IsDigit(DigitText(f)[i]) && DigitValue(DigitText(f)[i]) == f[i]
    {
      DigitInverse(f[i], '0');
    }
    forall i | 0 <= i < |s|
      ensures DigitValue(s[i]) <= 9 && Digit(DigitValue(s[i])) == s[i]
    {
      DigitInverse(0, s[i]);
    }
  }

  lemma {:induction false} DigitsEndIs(text: string, at: nat, end: nat)
    requires at <= end <= |text|
    requires forall i :: at <= i < end ==> IsDigit(text[i])
    requires end < |text| ==> !IsDigit(text[end])
    ensures DigitsEnd(text, at) == end
    decreases end - at
  {
    if at < end {
      DigitsEndIs(text, at + 1, end);
    }
  }

  /** The zone never starts with a digit or a dot. */
  lemma ZoneStart(z: Zone)
    ensures 1 <= |ZoneText(z)| <= 6 && !IsDigit(ZoneText(z)[0]) && ZoneText(z)[0] != '.'
  {
  }

  lemma SplitTail(text: string, at: nat, a: string, b: string)
    requires at <= |text| && text[at..] == a + b
    ensures at + |a| <= |text| && text[at..at + |a|] == a && text[at + |a|..] == b
  {
    assert text[at..at + |a|] == text[at..][..|a|];
    assert text[at + |a|..] == text[at..][|a|..];
  }

  lemma FractionSlices(f: seq<nat>, z: Zone, text: string)
    requires f != [] && DigitsOk(f) && |text| >= 20 && text[19..] == FractionText(f) + ZoneText(z)
    ensures 20 + |f| <= |text| && text[19] == '.' && text[20..20 + |f|] == DigitText(f)
    ensures text[20 + |f|..] == ZoneText(z)
  {
    assert FractionText(f) + ZoneText(z) == "." + (DigitText(f) + ZoneText(z));
    SplitTail(text, 19, ".", DigitText(f) + ZoneText(z));
    assert text[19..20][0] == '.';
    SplitTail(text, 20, DigitText(f), ZoneText(z));
  }

  lemma TailWithFraction(head: Stamp, f: seq<nat>, z: Zone, text: string)
    requires 0 < |f| <= 9 && DigitsOk(f)
    requires z.Offset? ==> z.hours <= 23 && z.minutes <= 59
    requires 20 + |f| <= |text| && text[19] == '.' && text[20..20 + |f|] == DigitText(f)
    requires text[20 + |f|..] == ZoneText(z)
    ensures ParseTail(text, head) == Some(head.(fraction := f, zone := z))
  {
    var end := 20 + |f|;
    ZoneStart(z);
    DigitsRoundTrip(f, "");
    assert forall i :: 20 <= i < end ==> text[i] == text[20..end][i - 20];
    assert text[end] == text[end..][0];
    DigitsEndIs(text, 20, end);
    ZoneRendered(z, text, end);
  }

  lemma TailRendered(head: Stamp, f: seq<nat>, z: Zone, text: string)
    requires |f| <= 9 && DigitsOk(f)
    requires z.Offset? ==> z.hours <= 23 && z.minutes <= 59
    requires |text| >= 20 && text[19..] == FractionText(f) + ZoneText(z)
    ensures ParseTail(text, head) == Some(head.(fraction := f, zone := z))
  {
    if f == [] {
      ZoneStart(z);
      assert text[19] == text[19..][0];
      assert FractionText(f) + ZoneText(z) == ZoneText(z);
      ZoneRendered(z, text, 19);
    } else {
      FractionSlices(f, z, text);
      TailWithFraction(head, f, z, text);
    }
  }

  lemma TailParsed(text: string, head: Stamp)
    requires |text| >= 20 && ParseTail(text, head).Some?
    ensures var t := ParseTail(text, head).value;
            && t == head.(fraction := t.fraction, zone := t.zone)
            && |t.fraction| <= 9 && DigitsOk(t.fraction)
            && (t.zone.Offset? ==> t.zone.hours <= 23 && t.zone.minutes <= 59)
            && text[19..] == FractionText(t.fraction) + ZoneText(t.zone)
  {
    var t := ParseTail(text, head).value;
    if text[19] == '.' {
      var end := DigitsEnd(text, 20);
      ZoneParsed(text, end);
      DigitsRoundTrip([], text[20..end]);
      assert text[19..] == ['.'] + text[20..end] + text[end..];
    } else {
      ZoneParsed(text, 19);
      assert [] + text[19..] == text[19..];
    }
  }

  /** Every admitted timestamp is accepted and read back. */
  lemma ParseRendered(t: Stamp)
    requires Admitted(t)
    ensures 20 <= |Render(t)| <= 35
    ensures Parse(Render(t)) == Some(t)
  {
    var text := Render(t);
    ZoneStart(t.zone);
    assert |Head(t)| == 19;
    assert text == Head(t) + (FractionText(t.fraction) + ZoneText(t.zone));
    assert text[..19] == Head(t);
    assert text[19..] == FractionText(t.fraction) + ZoneText(t.zone);
    HeadRendered(t, text);
    TailRendered(t.(fraction := [], zone := Utc), t.fraction, t.zone, text);
  }

  lemma Recompose(text: string, t: Stamp)
    requires |text| >= 19 && text[..19] == Head(t) && text[19..] == FractionText(t.fraction) + ZoneText(t.zone)
    ensures Render(t) == text
  {
    assert text == text[..19] + text[19..];
  }

  /** The head does not depend on fraction and zone. */
  lemma SameHead(t: Stamp, head: Stamp)
    requires t.date == head.date && t.hour == head.hour && t.minute == head.minute && t.second == head.second
    ensures Head(t) == Head(head)
  {
  }

  /** Nothing else is accepted. */
  lemma RenderParsed(text: string)
    requires Parse(text).Some?
    ensures Admitted(Parse(text).value)
    ensures Render(Parse(text).value) == text
  {
    var head := ParseHead(text).value;
    HeadParsed(text);
    TailParsed(text, head);
    var t := Parse(text).value;
    SameHead(t, head);
    Recompose(text, t);
  }

  // --------------------------------------------------------------- denotation

  function OffsetMinutes(z: Zone): int {
    match z
    case Utc => 0
    case Offset(negative, h, m) =>
      var size: int := h * 60 + m;
      size * (if negative then -1 else 1)
  }

  /** The fraction in units of 10^-scale, the digits beyond it dropped. */
  function Scaled(f: seq<nat>, scale: nat): nat
    decreases scale
  {
    if scale == 0 then 0
    else Scaled(f, scale - 1) * 10 + (if scale <= |f| then f[scale - 1] else 0)
  }

  function Seconds(t: Stamp): int
    requires Calendar.Valid(t.date)
  {
    DayNumber(t.date) * 86400 + (t.hour * 60 + t.minute - OffsetMinutes(t.zone)) * 60 + t.second
  }

  /** The instant a timestamp denotes, in nanoseconds since the epoch. */
  function Nanoseconds(t: Stamp): int
    requires Calendar.Valid(t.date)
  {
    Seconds(t) * 1_000_000_000 + Scaled(t.fraction, 9)
  }

  /** Some digit after the third is not zero. */
  predicate RoundsUp(f: seq<nat>) {
    exists i :: 3 <= i < |f| && f[i] != 0
  }

  /** The milliseconds that the source returns for the parsed parts. */
  function Milliseconds(t: Stamp): int
    requires Calendar.Valid(t.date)
  {
    Seconds(t) * 1000 + Scaled(t.fraction, 3) + (if RoundsUp(t.fraction) then 1 else 0)
  }

  /** The digits after the third, up to `scale`, as a number. */
  function Beyond(f: seq<nat>, scale: nat): nat
    requires 3 <= scale
    decreases scale
  {
    if scale == 3 then 0 else Beyond(f, scale - 1) * 10 + (if scale <= |f| then f[scale - 1] else 0)
  }

  lemma BeyondBounds(f: seq<nat>)
    requires DigitsOk(f)
    ensures Scaled(f, 9) == Scaled(f, 3) * 1_000_000 + Beyond(f, 9) && Beyond(f, 9) < 1_000_000
  {
    assert Scaled(f, 4) == Scaled(f, 3) * 10 + Beyond(f, 4) && Beyond(f, 4) < 10;
    assert Scaled(f, 5) == Scaled(f, 3) * 100 + Beyond(f, 5) && Beyond(f, 5) < 100;
    assert Scaled(f, 6) == Scaled(f, 3) * 1000 + Beyond(f, 6) && Beyond(f, 6) < 1000;
    assert Scaled(f, 7) == Scaled(f, 3) * 10_000 + Beyond(f, 7) && Beyond(f, 7) < 10_000;
    assert Scaled(f, 8) == Scaled(f, 3) * 100_000 + Beyond(f, 8) && Beyond(f, 8) < 100_000;
  }

  lemma {:induction false} BeyondPositive(f: seq<nat>, scale: nat)
    requires 3 <= scale
    ensures Beyond(f, scale) > 0 <==> exists i :: 3 <= i < |f| && i < scale && f[i] != 0
  {
    if scale > 3 {
      BeyondPositive(f, scale - 1);
      if scale <= |f| && f[scale - 1] != 0 {
        assert f[scale - 1] != 0;
      } else if i :| 3 <= i < |f| && i < scale && f[i] != 0 {
        assert i < scale - 1;
      }
    }
  }

  /** The result is the denoted instant rounded up to a whole millisecond. */
  lemma MillisecondsIsCeiling(t: Stamp)
    requires Admitted(t)
    ensures (Milliseconds(t) - 1) * 1_000_000 < Nanoseconds(t) <= Milliseconds(t) * 1_000_000
  {
    BeyondBounds(t.fraction);
    BeyondPositive(t.fraction, 9);
    assert RoundsUp(t.fraction) <==> exists i :: 3 <= i < |t.fraction| && i < 9 && t.fraction[i] != 0;
  }

  /**
   The accepted texts are exactly the renderings of the admitted timestamps, each is the
   rendering of one timestamp only, and that timestamp's instant rounded up is the answer.
   */
  lemma AcceptedTexts(text: string)
    ensures Parse(text).Some? <==> exists t :: Admitted(t) && Render(t) == text
    ensures forall t :: Admitted(t) && Render(t) == text ==>
              && Parse(text) == Some(t)
              && (Milliseconds(t) - 1) * 1_000_000 < Nanoseconds(t) <= Milliseconds(t) * 1_000_000
  {
    if Parse(text).Some? {
      RenderParsed(text);
    }
    forall t | Admitted(t) && Render(t) == text
      ensures Parse(text) == Some(t)
      ensures (Milliseconds(t) - 1) * 1_000_000 < Nanoseconds(t) <= Milliseconds(t) * 1_000_000
    {
      ParseRendered(t);
      MillisecondsIsCeiling(t);
    }
  }

  // --------------------------------------------------------------- the methods

  const INVALID_PARAMS := -32602

  /** The `number` loop of the source. */
  method ReadNumber(text: string, at: nat, size: nat) returns (r: Option<nat>)
    requires size == 2 || size == 4
    ensures r == if size == 2 then Two(text, at) else Four(text, at)
  {
    if at + size > |text| {
      return None;
    }
    var value: nat := 0;
    var i := at;
    while i < at + size
      invariant at <= i <= at + size
      invariant forall k :: at <= k < i ==> IsDigit(text[k])
      invariant i == at ==> value == 0
      invariant i == at + 1 ==> value == DigitValue(text[at])
      invariant i == at + 2 ==> Two(text, at) == Some(value)
      invariant i == at + 3 ==> Two(text, at).Some? && value == Two(text, at).value * 10 + DigitValue(text[at + 2])
      invariant i == at + 4 ==> Four(text, at) == Some(value)
    {
      if !IsDigit(text[i]) {
        return None;
      }
      value := value * 10 + DigitValue(text[i]);
      i := i + 1;
    }
    r := Some(value);
  }

  lemma FractionStep(f: seq<nat>, d: nat)
    ensures RoundsUp(f + [d]) <==> RoundsUp(f) || (|f| >= 3 && d != 0)
    ensures Scaled(f + [d], Min(|f| + 1, 3)) ==
            if |f| < 3 then Scaled(f, |f|) * 10 + d else Scaled(f, 3)
  {
    var g := f + [d];
    ScaledPrefix(f, g, Min(|f|, 3));
    if i :| 3 <= i < |f| && f[i] != 0 {
      assert g[i] != 0;
    }
    if |f| >= 3 && d != 0 {
      assert g[|f|] != 0;
    }
  }

  lemma FractionValues(text: string, begin: nat, end: nat, f: seq<nat>)
    requires begin <= end <= |text| && |f| == end - begin
    requires forall i :: begin <= i < end ==> IsDigit(text[i]) && f[i - begin] == DigitValue(text[i])
    ensures forall i :: 0 <= i < |text[begin..end]| ==> IsDigit(text[begin..end][i])
    ensures f == DigitValues(text[begin..end])
  {
    var s := text[begin..end];
    forall i | 0 <= i < |s| ensures IsDigit(s[i]) && f[i] == DigitValue(s[i]) {
      assert s[i] == text[begin + i] && f[begin + i - begin] == DigitValue(text[begin + i]);
    }
    var values := DigitValues(s);
    forall i | 0 <= i < |f| ensures f[i] == values[i] {
    }
  }

  /** The fraction loop: three digits are kept, a later non-zero digit rounds up. */
  method ReadFraction(text: string, begin: nat) returns (end: nat, fraction: nat, roundUp: bool)
    requires begin <= |text|
    ensures end == DigitsEnd(text, begin)
    ensures var f := DigitValues(text[begin..end]); fraction == Scaled(f, 3) && roundUp == RoundsUp(f)
  {
    var at := begin;
    fraction, roundUp := 0, false;
    ghost var f: seq<nat> := [];
    while at < |text| && IsDigit(text[at])
      invariant begin <= at <= |text| && |f| == at - begin
      invariant forall i :: begin <= i < at ==> IsDigit(text[i]) && f[i - begin] == DigitValue(text[i])
      invariant fraction == Scaled(f, Min(|f|, 3))
      invariant roundUp == RoundsUp(f)
    {
      FractionStep(f, DigitValue(text[at]));
      if at - begin < 3 {
        fraction := fraction * 10 + DigitValue(text[at]);
      } else if text[at] != '0' {
        roundUp := true;
      }
      f := f + [DigitValue(text[at])];
      at := at + 1;
    }
    DigitsEndIs(text, begin, at);
    end := at;
    fraction := FillFraction(f, at - begin, fraction);
    FractionValues(text, begin, end, f);
  }

  /** A short fraction is scaled to milliseconds. */
  method FillFraction(ghost f: seq<nat>, count: nat, kept: nat) returns (fraction: nat)
    requires count == |f| && kept == Scaled(f, Min(count, 3))
    ensures fraction == Scaled(f, 3)
  {
    fraction := kept;
    var digits := count;
    while digits < 3
      invariant count <= digits
      invariant fraction == Scaled(f, Min(digits, 3))
    {
      fraction := fraction * 10;
      digits := digits + 1;
    }
  }

  lemma {:induction false} ScaledPrefix(f: seq<nat>, g: seq<nat>, scale: nat)
    requires f <= g && scale <= |f|
    ensures Scaled(f, scale) == Scaled(g, scale)
    decreases scale
  {
    if scale > 0 {
      ScaledPrefix(f, g, scale - 1);
    }
  }

  /** The offset or `Z` that must end the text. */
  method ReadZone(text: string, at: nat) returns (r: Option<int>)
    requires at <= |text|
    ensures ParseZone(text, at).None? ==> r.None?
    ensures ParseZone(text, at).Some? ==> r == Some(OffsetMinutes(ParseZone(text, at).value))
  {
    if at < |text| && text[at] == 'Z' && at + 1 == |text| {
      return Some(0);
    } else if at + 6 == |text| && (text[at] == '+' || text[at] == '-') && text[at + 3] == ':' {
      var hours := ReadNumber(text, at + 1, 2);
      var minutes := ReadNumber(text, at + 4, 2);
      if hours.None? || minutes.None? || hours.value > 23 || minutes.value > 59 {
        return None;
      }
      var size: int := hours.value * 60 + minutes.value;
      return Some(size * (if text[at] == '+' then 1 else -1));
    }
    return None;
  }

  /** The fixed part of the text: its punctuation, its numbers and their ranges. */
  method ReadHead(text: string) returns (r: Option<Stamp>)
    requires |text| >= 20
    ensures r == ParseHead(text)
  {
    if text[4] != '-' || text[7] != '-' || text[10] != 'T' || text[13] != ':' || text[16] != ':' {
      return None;
    }
    var year := ReadNumber(text, 0, 4);
    var month := ReadNumber(text, 5, 2);
    var day := ReadNumber(text, 8, 2);
    var hour := ReadNumber(text, 11, 2);
    var minute := ReadNumber(text, 14, 2);
    var second := ReadNumber(text, 17, 2);
    if year.None? || month.None? || day.None? || hour.None? || minute.None? || second.None? {
      return None;
    }
    var date := Date(year.value, month.value, day.value);
    if !Calendar.Valid(date) || date.year < 1 || hour.value > 23 || minute.value > 59 || second.value > 59 {
      return None;
    }
    r := Some(Stamp(date, hour.value, minute.value, second.value, [], Utc));
  }

  /** `timestamp_ms`: one error code for every refusal, the rounded instant otherwise. */
  method TimestampMs(text: string) returns (r: Result<int, int>)
    ensures Parse(text).None? ==> r == Err(INVALID_PARAMS)
    ensures Parse(text).Some? ==> Calendar.Valid(Parse(text).value.date) && r == Ok(Milliseconds(Parse(text).value))
  {
    if |text| < 20 || |text| > 35 {
      return Err(INVALID_PARAMS);
    }
    var head := ReadHead(text);
    if head.None? {
      return Err(INVALID_PARAMS);
    }
    var t := head.value;
    var at, fraction, roundUp := 19, 0, false;
    if text[at] == '.' {
      at, fraction, roundUp := ReadFraction(text, 20);
      if at == 20 || at - 20 > 9 {
        return Err(INVALID_PARAMS);
      }
    }
    var offset := ReadZone(text, at);
    if offset.None? {
      return Err(INVALID_PARAMS);
    }
    r := Ok(DayNumber(t.date) * 86_400_000 + ((t.hour * 60 + t.minute - offset.value) * 60 + t.second) * 1000
            + fraction + (if roundUp then 1 else 0));
  }

  // ----------------------------------------------------------------- formatting

  function Decimal(n: nat): string {
    if n < 10 then [Digit(n)] else Decimal(n / 10) + [Digit(n)]
  }

  function SignedDecimal(n: int): string {
    if n < 0 then ['-'] + Decimal(-n) else Decimal(n)
  }

  /** `setw` with a fill of '0' and the default right alignment. */
  function Padded(width: nat, s: string): string
    decreases width - |s|
  {
    if |s| >= width then s else Padded(width, ['0'] + s)
  }

  function DateText(d: Date): string
    requires d.month >= 0 && d.day >= 0
  {
    Padded(4, SignedDecimal(d.year)) + (['-'] + Padded(2, Decimal(d.month)) + ['-'] + Padded(2, Decimal(d.day)))
  }

  function ClockText(second: nat): string {
    Padded(2, Decimal(second / 3600)) + [':'] + Padded(2, Decimal(second / 60 % 60)) + [':'] +
      Padded(2, Decimal(second % 60))
  }

  /** `timestamp`. */
  function Timestamp(ms: int): string {
    var days, rest := ms / 86_400_000, ms % 86_400_000;
    DateText(FromDayNumber(days)) + (['T'] + ClockText(rest / 1000) + ['.'] + Padded(3, Decimal(rest % 1000)) + ['Z'])
  }

  /** The parts that `timestamp` prints. */
  function StampOf(ms: int): Stamp {
    var days, rest := ms / 86_400_000, ms % 86_400_000;
    var second, m := rest / 1000, rest % 1000;
    Stamp(FromDayNumber(days), second / 3600, second / 60 % 60, second % 60, [m / 100, m / 10 % 10, m % 10], Utc)
  }

  lemma PaddedTwo(n: nat)
    requires n <= 99
    ensures Padded(2, Decimal(n)) == [Digit(n / 10), Digit(n)]
  {
    if n < 10 {
      assert Decimal(n) == [Digit(n)];
      assert Padded(2, [Digit(n)]) == Padded(2, ['0'] + [Digit(n)]);
    } else {
      assert Decimal(n) == [Digit(n / 10)] + [Digit(n)];
    }
  }

  lemma PaddedThree(n: nat)
    requires n <= 999
    ensures Padded(3, Decimal(n)) == [Digit(n / 100), Digit(n / 10), Digit(n)]
  {
    if n < 10 {
      assert Padded(3, [Digit(n)]) == Padded(3, ['0'] + [Digit(n)]) == Padded(3, ['0'] + (['0'] + [Digit(n)]));
    } else if n < 100 {
      assert Decimal(n) == [Digit(n / 10)] + [Digit(n)];
      assert Padded(3, Decimal(n)) == Padded(3, ['0'] + Decimal(n));
    } else {
      assert n / 10 / 10 == n / 100;
      assert Decimal(n / 10) == [Digit(n / 100)] + [Digit(n / 10)];
    }
  }

  lemma PaddedFour(n: nat)
    requires n <= 9999
    ensures Padded(4, Decimal(n)) == [Digit(n / 1000), Digit(n / 100), Digit(n / 10), Digit(n)]
  {
    if n < 1000 {
      PaddedThree(n);
      PaddedOneMore(3, Decimal(n));
      DecimalLength(n, 3);
      assert PowerOfTen(3) == 1000;
    } else {
      assert n / 10 / 10 == n / 100 && n / 100 / 10 == n / 1000;
      assert Decimal(n / 100) == [Digit(n / 1000)] + [Digit(n / 100)];
      assert Decimal(n / 10) == Decimal(n / 100) + [Digit(n / 10)];
    }
  }

  lemma {:induction false} PaddedOneMore(width: nat, s: string)
    ensures |s| <= width ==> Padded(width + 1, s) == ['0'] + Padded(width, s)
    decreases width - |s|
  {
    if |s| < width {
      PaddedOneMore(width, ['0'] + s);
    }
  }

  lemma {:induction false} DecimalLength(n: nat, k: nat)
    requires k >= 1
    ensures |Decimal(n)| <= k <==> n < PowerOfTen(k)
    decreases k
  {
    if k > 1 && n >= 10 {
      DecimalLength(n / 10, k - 1);
      assert PowerOfTen(k) == 10 * PowerOfTen(k - 1);
    } else if k == 1 {
      assert PowerOfTen(1) == 10;
      if n >= 10 {
        assert |Decimal(n / 10)| >= 1;
      }
    } else {
      assert PowerOfTen(k) >= 10 by { PowerAtLeast(k); }
    }
  }

  lemma {:induction false} PowerAtLeast(k: nat)
    requires k >= 1
    ensures PowerOfTen(k) >= 10
  {
    if k > 1 {
      PowerAtLeast(k - 1);
    }
  }

  lemma ClockParts(second: nat)
    ensures (second / 3600 * 60 + second / 60 % 60) * 60 + second % 60 == second
  {
    assert second / 60 / 60 == second / 3600;
    var minutes := second / 60;
    assert minutes == minutes / 60 * 60 + minutes % 60;
  }

  lemma StampSeconds(days: int, second: nat, m: nat)
    ensures Seconds(Stamp(FromDayNumber(days), second / 3600, second / 60 % 60, second % 60,
                          [m / 100, m / 10 % 10, m % 10], Utc)) == days * 86400 + second
  {
    ClockParts(second);
  }

  lemma ThreeDigitNumber(m: nat)
    requires m < 1000
    ensures (m / 100 * 10 + m / 10 % 10) * 10 + m % 10 == m
  {
    var tens := m / 10;
    assert tens / 10 == m / 100;
    assert tens == tens / 10 * 10 + tens % 10;
  }

  lemma ScaledThree(f: seq<nat>)
    requires |f| == 3
    ensures Scaled(f, 3) == (f[0] * 10 + f[1]) * 10 + f[2] && !RoundsUp(f)
  {
    assert Scaled(f, 1) == f[0];
    assert Scaled(f, 2) == f[0] * 10 + f[1];
  }

  lemma StampOfMilliseconds(ms: int)
    ensures Milliseconds(StampOf(ms)) == ms
  {
    var days, rest := ms / 86_400_000, ms % 86_400_000;
    var second, m := rest / 1000, rest % 1000;
    StampSeconds(days, second, m);
    ScaledThree([m / 100, m / 10 % 10, m % 10]);
    ThreeDigitNumber(m);
  }

  lemma DateTextFixed(d: Date)
    requires Calendar.Valid(d) && 0 <= d.year <= 9999
    ensures var y, mo, dd := d.year, d.month, d.day;
            DateText(d) == [Digit(y / 1000), Digit(y / 100), Digit(y / 10), Digit(y), '-', Digit(mo / 10), Digit(mo),
                            '-',
                            Digit(dd / 10), Digit(dd)]
  {
    PaddedFour(d.year);
    PaddedTwo(d.month);
    PaddedTwo(d.day);
  }

  lemma ClockTextFixed(second: nat)
    requires second < 86400
    ensures var h, m, s := second / 3600, second / 60 % 60, second % 60;
            ClockText(second) == [Digit(h / 10), Digit(h), ':', Digit(m / 10), Digit(m), ':', Digit(s / 10), Digit(s)]
  {
    PaddedTwo(second / 3600);
    PaddedTwo(second / 60 % 60);
    PaddedTwo(second % 60);
  }

  lemma MillisecondText(m: nat)
    requires m < 1000
    ensures ['.'] + Padded(3, Decimal(m)) == FractionText([m / 100, m / 10 % 10, m % 10])
  {
    PaddedThree(m);
    ThreeDigits(m);
  }

  lemma Regroup(a: string, b: string, c: string, d: string, e: string, f: string)
    ensures a + (b + c + d + e + f) == a + b + c + ((d + e) + f)
  {
  }

  /** Inside the four-digit years the printed text is the rendered timestamp. */
  lemma TimestampRenders(ms: int)
    requires 0 <= StampOf(ms).date.year <= 9999
    ensures Timestamp(ms) == Render(StampOf(ms))
  {
    var t := StampOf(ms);
    var rest := ms % 86_400_000;
    var m := rest % 1000;
    DateTextFixed(t.date);
    ClockTextFixed(rest / 1000);
    MillisecondText(m);
    var date, clock := DateText(t.date), ClockText(rest / 1000);
    assert DateHead(t) == date && ClockHead(t) == ['T'] + clock;
    assert Head(t) == date + ['T'] + clock;
    Regroup(date, ['T'], clock, ['.'], Padded(3, Decimal(m)), ['Z']);
  }

  lemma ThreeDigits(m: nat)
    ensures Digit(m / 10 % 10) == Digit(m / 10) && Digit(m % 10) == Digit(m)
  {
  }

  lemma {:induction false} DecimalIsDigits(n: nat)
    ensures |Decimal(n)| >= 1 && forall i :: 0 <= i < |Decimal(n)| ==> IsDigit(Decimal(n)[i])
  {
    if n >= 10 {
      DecimalIsDigits(n / 10);
    }
  }

  lemma {:induction false} PaddedEnds(width: nat, s: string)
    ensures |Padded(width, s)| == Max(width, |s|)
    ensures Padded(width, s)[|Padded(width, s)| - |s|..] == s
    decreases width - |s|
  {
    if |s| < width {
      PaddedEnds(width, ['0'] + s);
    }
  }

  /** Outside the four-digit years the fifth character is a digit or one of the first four is a minus. */
  lemma YearText(year: int)
    ensures var head := Padded(4, SignedDecimal(year));
            && |head| >= 4
            && (year > 9999 ==> |head| >= 5 && IsDigit(head[4]))
            && (year < 0 ==> exists k :: 0 <= k < 4 && head[k] == '-')
  {
    var head := Padded(4, SignedDecimal(year));
    PaddedEnds(4, SignedDecimal(year));
    if year > 9999 {
      DecimalLength(year, 4);
      DecimalIsDigits(year);
      assert PowerOfTen(4) == 10_000;
    } else if year < 0 {
      DecimalIsDigits(-year);
      var k := |head| - |SignedDecimal(year)|;
      assert head[k] == head[k..][0];
    }
  }

  lemma YearComesFirst(ms: int)
    ensures Padded(4, SignedDecimal(StampOf(ms).date.year)) <= Timestamp(ms)
  {
    assert Padded(4, SignedDecimal(StampOf(ms).date.year)) <= DateText(StampOf(ms).date);
  }

  lemma LateYear(text: string)
    requires |text| >= 5 && IsDigit(text[4])
    ensures ParseHead(text).None?
  {
  }

  lemma SignedYear(text: string, k: nat)
    requires k < 4 <= |text| && text[k] == '-'
    ensures ParseHead(text).None?
  {
    assert Four(text, 0).None?;
  }

  lemma YearZero(text: string)
    requires |text| >= 4 && text[..4] == Padded(4, Decimal(0))
    ensures ParseHead(text).None?
  {
    PaddedFour(0);
    assert forall i :: 0 <= i < 4 ==> text[i] == text[..4][i];
    TwoRendered(0, text, 0);
    TwoRendered(0, text, 2);
    assert Four(text, 0) == Some(0);
  }

  /** Outside the years 1 to 9999 the printed text is refused. */
  lemma TimestampOutside(ms: int)
    requires !(1 <= StampOf(ms).date.year <= 9999)
    ensures Parse(Timestamp(ms)).None?
  {
    var text, year := Timestamp(ms), StampOf(ms).date.year;
    YearText(year);
    YearComesFirst(ms);
    var head := Padded(4, SignedDecimal(year));
    assert text[..|head|] == head;
    if year > 9999 {
      assert text[4] == head[4];
      LateYear(text);
    } else if year < 0 {
      var k :| 0 <= k < 4 && head[k] == '-';
      assert text[k] == head[k];
      SignedYear(text, k);
    } else {
      PaddedFour(0);
      YearZero(text);
    }
  }

  /**
   Printing an instant and reading it back gives the instant for exactly the years 1 to 9999;
   every other instant prints as a text that is refused.
   */
  lemma RoundTrip(ms: int)
    ensures var back := Parse(Timestamp(ms));
            if 1 <= StampOf(ms).date.year <= 9999
            then back == Some(StampOf(ms)) && Milliseconds(back.value) == ms
            else back.None?
  {
    if 1 <= StampOf(ms).date.year <= 9999 {
      TimestampRenders(ms);
      ParseRendered(StampOf(ms));
      StampOfMilliseconds(ms);
    } else {
      TimestampOutside(ms);
    }
  }

  /** The same range in milliseconds: from 0001-01-01 to the end of 9999. */
  lemma RoundTripRange(ms: int)
    ensures 1 <= StampOf(ms).date.year <= 9999 <==> -62_135_596_800_000 <= ms < 253_402_300_800_000
  {
    var d := StampOf(ms).date;
    var n := ms / 86_400_000;
    assert DayNumber(d) == n;
    assert Date(1, 1, 1).year == 1 && DaysBeforeYear(1) == 0 && DaysBeforeYear(10_000) == 3_652_059;
    WithinYear(d);
    if d.year < 1 {
      YearsApart(d.year, 1);
    } else if d.year > 9999 {
      if d.year > 10_000 { YearsApart(10_000, d.year); }
    } else {
      YearsApart(d.year, 10_000);
      if d.year > 1 { YearsApart(1, d.year); }
    }
  }
}
