/**
  JSON strings and numbers as `json.dumps` writes them and `json.loads` reads them
  (sections 6 and 7 of RFC 8259).

  Every writer takes the bytes that follow, so that a reader of what was written gives back
  exactly those bytes.
 */
module JsonText {
  import opened Prelude
  import opened Texts

  type Byte = b: int | 0 <= b < 256
  type Bytes = seq<Byte>

  const QUOTE: Byte := 34
  const BACKSLASH: Byte := 92
  const NEWLINE: Byte := 10

  // Strings

  predicate HighSurrogate(c: int) {
    0xD800 <= c < 0xDC00
  }

  predicate LowSurrogate(c: int) {
    0xDC00 <= c < 0xE000
  }

  function HexDigit(n: int): Byte
    requires 0 <= n < 16
  {
    if n < 10 then 48 + n else 87 + n
  }

  function HexValue(b: Byte): (n: Option<int>)
    ensures n.Some? ==> 0 <= n.value < 16
  {
    if 48 <= b <= 57 then Some(b - 48)
    else if 97 <= b <= 102 then Some(b - 87)
    else if 65 <= b <= 70 then Some(b - 55)
    else None
  }

  function Digit(c: int, unit: int): (d: int)
    requires unit > 0
    ensures 0 <= d < 16
  {
    c / unit % 16
  }

  /** `\uXXXX` */
  function UnicodeEscape(c: int): (b: Bytes)
    requires 0 <= c < 0x1_0000
    ensures |b| == 6
  {
    [BACKSLASH, 117, HexDigit(Digit(c, 4096)), HexDigit(Digit(c, 256)), HexDigit(Digit(c, 16)), HexDigit(Digit(c, 1))]
  }

  /** The surrogates of a character beyond the basic plane. */
  function HighHalf(c: CodePoint): (h: int)
    requires c >= 0x1_0000
    ensures HighSurrogate(h)
  {
    0xD800 + (c - 0x1_0000) / 1024
  }

  function LowHalf(c: CodePoint): (l: int)
    requires c >= 0x1_0000
    ensures LowSurrogate(l)
  {
    0xDC00 + (c - 0x1_0000) % 1024
  }

  function JoinPair(h: int, l: int): (c: CodePoint)
    requires HighSurrogate(h) && LowSurrogate(l)
    ensures c >= 0x1_0000
  {
    0x1_0000 + (h - 0xD800) * 1024 + (l - 0xDC00)
  }

  lemma JoinHalves(c: CodePoint)
    requires c >= 0x1_0000
    ensures JoinPair(HighHalf(c), LowHalf(c)) == c
  {
  }

  /** The letter of a short escape. */
  function ShortLetter(c: CodePoint): Option<Byte> {
    if c == 34 then Some(34)
    else if c == 92 then Some(92)
    else if c == 10 then Some(110)
    else if c == 13 then Some(114)
    else if c == 9 then Some(116)
    else if c == 12 then Some(102)
    else if c == 8 then Some(98)
    else None
  }

  /** One character with `ensure_ascii`: a short escape, printable ASCII, or one or two `\uXXXX`. */
  function EscapeChar(c: CodePoint): (b: Bytes)
    ensures 1 <= |b|
  {
    match ShortLetter(c)
    case Some(letter) => [BACKSLASH, letter]
    case None =>
      if 32 <= c < 127 then [c]
      else if c < 0x1_0000 then UnicodeEscape(c)
      else UnicodeEscape(HighHalf(c)) + UnicodeEscape(LowHalf(c))
  }

  function Escape(t: Text, k: Bytes): (b: Bytes)
    ensures |b| >= |k|
  {
    if t == [] then k else EscapeChar(t[0]) + Escape(t[1..], k)
  }

  function PrintString(t: Text, k: Bytes): Bytes {
    [QUOTE] + Escape(t, [QUOTE] + k)
  }

  /** The code unit of a `\uXXXX` escape at the start of `s`. */
  function ParseUnit(s: Bytes): (r: Option<int>)
    ensures r.Some? ==> |s| >= 6 && 0 <= r.value < 0x1_0000
  {
    if |s| < 6 || s[0] != BACKSLASH || s[1] != 117 then None else
      match (HexValue(s[2]), HexValue(s[3]), HexValue(s[4]), HexValue(s[5]))
      case (Some(a), Some(b), Some(c), Some(d)) => Some(((a * 16 + b) * 16 + c) * 16 + d)
      case _ => None
  }

  function ShortEscape(b: Byte): Option<CodePoint> {
    if b == 34 || b == 92 || b == 47 then Some(b)
    else if b == 98 then Some(8)
    else if b == 102 then Some(12)
    else if b == 110 then Some(10)
    else if b == 114 then Some(13)
    else if b == 116 then Some(9)
    else None
  }

  /** One character of a string, and how many bytes it takes; two escaped surrogates make one character. */
  function ParseChar(s: Bytes): (r: Option<(CodePoint, nat)>)
    ensures r.Some? ==> 1 <= r.value.1 <= |s|
  {
    if s == [] then None
    else if s[0] == BACKSLASH then
      match ParseUnit(s)
      case Some(unit) =>
        var next := ParseUnit(s[6..]);
        if HighSurrogate(unit) && next.Some? && LowSurrogate(next.value) then
          Some((JoinPair(unit, next.value), 12))
        else Some((unit, 6))
      case None =>
        if |s| < 2 then None else
          match ShortEscape(s[1])
          case Some(c) => Some((c, 2))
          case None => None
    else if 32 <= s[0] < 128 then Some((s[0], 1))
    else None
  }

  /** The rest of a string after its opening quote, and what follows the closing one. */
  function ParseString(s: Bytes): (r: Option<(Text, Bytes)>)
    ensures r.Some? ==> |r.value.1| < |s|
  {
    if s == [] then None
    else if s[0] == QUOTE then Some(([], s[1..]))
    else
      match ParseChar(s)
      case None => None
      case Some((c, n)) =>
        match ParseString(s[n..])
        case None => None
        case Some((t, rest)) => Some(([c] + t, rest))
  }

  /** What a string becomes when each high surrogate directly before a low one is joined with it. */
  function Joined(t: Text): Text {
    if t == [] then []
    else if |t| >= 2 && HighSurrogate(t[0]) && LowSurrogate(t[1]) then
      [JoinPair(t[0], t[1])] + Joined(t[2..])
    else [t[0]] + Joined(t[1..])
  }

  predicate NoSurrogatePair(t: Text) {
    forall i :: 0 <= i < |t| - 1 ==> !(HighSurrogate(t[i]) && LowSurrogate(t[i + 1]))
  }

  lemma HexRoundTrip(n: int)
    requires 0 <= n < 16
    ensures HexValue(HexDigit(n)) == Some(n)
  {
  }

  lemma DigitsMakeUnit(c: int)
    requires 0 <= c < 0x1_0000
    ensures ((Digit(c, 4096) * 16 + Digit(c, 256)) * 16 + Digit(c, 16)) * 16 + Digit(c, 1) == c
  {
    assert c / 4096 == c / 256 / 16 && c / 256 == c / 16 / 16;
  }

  lemma UnitRoundTrip(c: int, k: Bytes)
    requires 0 <= c < 0x1_0000
    ensures ParseUnit(UnicodeEscape(c) + k) == Some(c)
  {
    var d3, d2, d1, d0 := Digit(c, 4096), Digit(c, 256), Digit(c, 16), Digit(c, 1);
    HexRoundTrip(d3);
    HexRoundTrip(d2);
    HexRoundTrip(d1);
    HexRoundTrip(d0);
    UnitFromDigits(d3, d2, d1, d0, k);
    DigitsMakeUnit(c);
  }

  lemma UnitFromDigits(d3: int, d2: int, d1: int, d0: int, k: Bytes)
    requires 0 <= d3 < 16 && 0 <= d2 < 16 && 0 <= d1 < 16 && 0 <= d0 < 16
    ensures ParseUnit([BACKSLASH, 117, HexDigit(d3), HexDigit(d2), HexDigit(d1), HexDigit(d0)] + k)
          == Some(((d3 * 16 + d2) * 16 + d1) * 16 + d0)
  {
  }

  /** What follows a character is read as a low surrogate only if it was written as one. */
  lemma UnitAfter(t: Text, k: Bytes)
    ensures var r := ParseUnit(Escape(t, [QUOTE] + k));
            if t != [] && LowSurrogate(t[0]) then r == Some(t[0]) else r.None? || !LowSurrogate(r.value)
  {
    if t != [] {
      var c, rest := t[0], Escape(t[1..], [QUOTE] + k);
      match ShortLetter(c)
      case Some(letter) =>
        assert (EscapeChar(c) + rest)[1] == letter != 117;
      case None =>
        if 32 <= c < 127 {
          assert (EscapeChar(c) + rest)[0] == c;
        } else if c < 0x1_0000 {
          UnitRoundTrip(c, rest);
        } else {
          var high, low := UnicodeEscape(HighHalf(c)), UnicodeEscape(LowHalf(c));
          assert high + low + rest == high + (low + rest);
          UnitRoundTrip(HighHalf(c), low + rest);
        }
    }
  }

  /** A character written as one `\uXXXX`, followed by something that is not its low half. */
  lemma UnicodeCharRoundTrip(c: int, rest: Bytes)
    requires 0 <= c < 0x1_0000
    requires HighSurrogate(c) ==> ParseUnit(rest).None? || !LowSurrogate(ParseUnit(rest).value)
    ensures ParseChar(UnicodeEscape(c) + rest) == Some((c, 6))
  {
    var s := UnicodeEscape(c) + rest;
    UnitRoundTrip(c, rest);
    assert s[6..] == rest;
  }

  lemma PairCharRoundTrip(h: int, l: int, rest: Bytes)
    requires HighSurrogate(h) && LowSurrogate(l)
    ensures ParseChar(UnicodeEscape(h) + (UnicodeEscape(l) + rest)) == Some((JoinPair(h, l), 12))
  {
    var s := UnicodeEscape(h) + (UnicodeEscape(l) + rest);
    UnitRoundTrip(h, UnicodeEscape(l) + rest);
    UnitRoundTrip(l, rest);
    assert s[6..] == UnicodeEscape(l) + rest;
  }

  lemma ShortRoundTrip(c: CodePoint, rest: Bytes)
    requires ShortLetter(c).Some?
    ensures ParseChar(EscapeChar(c) + rest) == Some((c, 2))
  {
    var s := EscapeChar(c) + rest;
    assert s[0] == BACKSLASH && s[1] == ShortLetter(c).value;
  }

  /** Reading back one character that is not the first half of a surrogate pair. */
  lemma CharRoundTrip(t: Text, k: Bytes)
    requires t != [] && !(|t| >= 2 && HighSurrogate(t[0]) && LowSurrogate(t[1]))
    ensures Escape(t, [QUOTE] + k)[0] != QUOTE
    ensures ParseChar(Escape(t, [QUOTE] + k)) == Some((t[0], |EscapeChar(t[0])|))
  {
    var c, rest := t[0], Escape(t[1..], [QUOTE] + k);
    match ShortLetter(c)
    case Some(_) =>
      ShortRoundTrip(c, rest);
    case None =>
      if c >= 0x1_0000 {
        var high, low := UnicodeEscape(HighHalf(c)), UnicodeEscape(LowHalf(c));
        assert high + low + rest == high + (low + rest);
        PairCharRoundTrip(HighHalf(c), LowHalf(c), rest);
        JoinHalves(c);
      } else if c < 32 || 127 <= c {
        UnitAfter(t[1..], k);
        UnicodeCharRoundTrip(c, rest);
      }
  }

  lemma PairRoundTrip(t: Text, k: Bytes)
    requires |t| >= 2 && HighSurrogate(t[0]) && LowSurrogate(t[1])
    ensures var s := Escape(t, [QUOTE] + k);
            && s != [] && s[0] != QUOTE
            && ParseChar(s) == Some((JoinPair(t[0], t[1]), 12))
            && s[12..] == Escape(t[2..], [QUOTE] + k)
  {
    var rest := Escape(t[2..], [QUOTE] + k);
    assert t[1..][1..] == t[2..];
    PairCharRoundTrip(t[0], t[1], rest);
    assert Escape(t, [QUOTE] + k) == UnicodeEscape(t[0]) + (UnicodeEscape(t[1]) + rest);
  }

  /** A written string reads back as its joined form. */
  lemma {:induction false} StringRoundTrip(t: Text, k: Bytes)
    ensures ParseString(Escape(t, [QUOTE] + k)) == Some((Joined(t), k))
    decreases |t|
  {
    if t == [] {
      assert ([QUOTE] + k)[1..] == k;
    } else if |t| >= 2 && HighSurrogate(t[0]) && LowSurrogate(t[1]) {
      PairRoundTrip(t, k);
      StringRoundTrip(t[2..], k);
    } else {
      CharRoundTrip(t, k);
      StringRoundTrip(t[1..], k);
      var s := Escape(t, [QUOTE] + k);
      assert s[|EscapeChar(t[0])|..] == Escape(t[1..], [QUOTE] + k);
    }
  }

  lemma {:induction false} JoinedIffNoPair(t: Text)
    ensures Joined(t) == t <==> NoSurrogatePair(t)
    ensures |Joined(t)| <= |t|
    ensures NoSurrogatePair(t) || |Joined(t)| < |t|
    decreases |t|
  {
    if t == [] {
    } else if |t| >= 2 && HighSurrogate(t[0]) && LowSurrogate(t[1]) {
      JoinedIffNoPair(t[2..]);
    } else {
      JoinedIffNoPair(t[1..]);
      assert t == [t[0]] + t[1..];
      assert forall i :: 0 <= i < |t[1..]| ==> t[1..][i] == t[i + 1];
      if !NoSurrogatePair(t) {
        var i :| 0 <= i < |t| - 1 && HighSurrogate(t[i]) && LowSurrogate(t[i + 1]);
        assert i > 0;
        assert HighSurrogate(t[1..][i - 1]) && LowSurrogate(t[1..][i]);
      }
    }
  }

  /** Joining leaves no surrogate pair behind. */
  lemma {:induction false} JoinedHasNoPair(t: Text)
    ensures NoSurrogatePair(Joined(t))
    ensures Joined(t) != [] && LowSurrogate(Joined(t)[0]) ==> LowSurrogate(t[0])
    decreases |t|
  {
    if t == [] {
    } else if |t| >= 2 && HighSurrogate(t[0]) && LowSurrogate(t[1]) {
      JoinedHasNoPair(t[2..]);
    } else {
      JoinedHasNoPair(t[1..]);
    }
  }

  // Numbers

  predicate IsDigit(b: Byte) {
    48 <= b <= 57
  }

  /** The number of digits at the start of `s`. */
  function DigitCount(s: Bytes): (n: nat)
    ensures n <= |s|
  {
    if s == [] || !IsDigit(s[0]) then 0 else 1 + DigitCount(s[1..])
  }

  lemma {:induction false} DigitCountStops(s: Bytes)
    ensures forall i :: 0 <= i < DigitCount(s) ==> IsDigit(s[i])
    ensures DigitCount(s) < |s| ==> !IsDigit(s[DigitCount(s)])
  {
    if s != [] && IsDigit(s[0]) {
      DigitCountStops(s[1..]);
    }
  }

  /** The length of an integer part: a single zero, or digits that do not start with one. */
  function IntegerPart(s: Bytes): (n: nat)
    ensures n <= |s|
  {
    if s == [] || !IsDigit(s[0]) then 0
    else if s[0] == 48 then 1
    else DigitCount(s)
  }

  /** The length of `.digits`, or zero. */
  function FractionPart(s: Bytes): (n: nat)
    ensures n <= |s|
  {
    if s != [] && s[0] == 46 && DigitCount(s[1..]) > 0 then 1 + DigitCount(s[1..]) else 0
  }

  /** The length of `e`, an optional sign and digits, or zero. */
  function ExponentPart(s: Bytes): (n: nat)
    ensures n <= |s|
  {
    if s != [] && (s[0] == 101 || s[0] == 69) then
      var signed := |s| > 1 && (s[1] == 43 || s[1] == 45);
      var skip := if signed then 2 else 1;
      if DigitCount(s[skip..]) > 0 then skip + DigitCount(s[skip..]) else 0
    else 0
  }

  datatype NumberMatch = NumberMatch(length: nat, float: bool)

  function MatchUnsigned(s: Bytes): (m: NumberMatch)
    ensures m.length <= |s|
  {
    var whole := IntegerPart(s);
    if whole == 0 then NumberMatch(0, false) else
      var fraction := FractionPart(s[whole..]);
      var exponent := ExponentPart(s[whole..][fraction..]);
      NumberMatch(whole + fraction + exponent, fraction + exponent > 0)
  }

  /** The longest prefix of `s` that is a JSON number, and whether it has a fraction or an exponent. */
  function MatchNumber(s: Bytes): (m: NumberMatch)
    ensures m.length <= |s|
  {
    if s != [] && s[0] == 45 then
      var m := MatchUnsigned(s[1..]);
      if m.length == 0 then m else m.(length := m.length + 1)
    else MatchUnsigned(s)
  }

  /** The value of a string of digits. */
  function DigitsValue(ds: Bytes): int {
    if ds == [] then 0 else DigitsValue(ds[..|ds| - 1]) * 10 + (ds[|ds| - 1] as int - 48)
  }

  function IntegerValue(s: Bytes): int {
    if s != [] && s[0] == 45 then -DigitsValue(s[1..]) else DigitsValue(s)
  }

  function Digits(n: nat): (ds: Bytes)
    ensures ds != [] && forall i :: 0 <= i < |ds| ==> IsDigit(ds[i])
    ensures n > 0 ==> ds[0] != 48
    ensures n == 0 ==> ds == [48]
  {
    if n < 10 then [48 + n] else Digits(n / 10) + [48 + n % 10]
  }

  /** `str(i)` */
  function IntegerText(i: int): (b: Bytes)
    ensures b != []
  {
    if i < 0 then [45] + Digits(-i) else Digits(i)
  }

  /** What may follow a number without becoming part of it. */
  predicate EndsNumber(k: Bytes) {
    k == [] || !(IsDigit(k[0]) || k[0] == 43 || k[0] == 45 || k[0] == 46 || k[0] == 69 || k[0] == 101)
  }

  lemma {:induction false} DigitsRoundTrip(n: nat)
    ensures DigitsValue(Digits(n)) == n
  {
    if n >= 10 {
      DigitsRoundTrip(n / 10);
      var ds := Digits(n);
      assert ds[..|ds| - 1] == Digits(n / 10);
    }
  }

  lemma {:induction false} DigitCountAll(ds: Bytes, k: Bytes)
    requires forall i :: 0 <= i < |ds| ==> IsDigit(ds[i])
    requires k == [] || !IsDigit(k[0])
    ensures DigitCount(ds + k) == |ds|
  {
    if ds == [] {
      assert ds + k == k;
    } else {
      assert (ds + k)[1..] == ds[1..] + k;
      DigitCountAll(ds[1..], k);
    }
  }

  /** A written integer is matched exactly and has the value it was written for. */
  lemma {:induction false} IntegerRoundTrip(i: int, k: Bytes)
    requires EndsNumber(k)
    ensures MatchNumber(IntegerText(i) + k) == NumberMatch(|IntegerText(i)|, false)
    ensures IntegerValue(IntegerText(i)) == i
  {
    if i < 0 {
      NegativeRoundTrip(-i, k);
    } else {
      DigitsRoundTrip(i);
      DigitsMatched(i, k);
    }
  }

  lemma {:induction false} NegativeRoundTrip(n: nat, k: Bytes)
    requires EndsNumber(k)
    ensures MatchNumber([45] + Digits(n) + k) == NumberMatch(1 + |Digits(n)|, false)
    ensures IntegerValue([45] + Digits(n)) == -(n as int)
  {
    var ds := Digits(n);
    DigitsRoundTrip(n);
    DigitsMatched(n, k);
    assert ([45] + ds + k)[1..] == ds + k;
    assert ([45] + ds)[1..] == ds;
  }

  lemma {:induction false} DigitsMatched(n: nat, k: Bytes)
    requires EndsNumber(k)
    ensures MatchUnsigned(Digits(n) + k) == NumberMatch(|Digits(n)|, false)
  {
    var ds := Digits(n);
    DigitCountAll(ds, k);
    assert (ds + k)[0] == ds[0];
    assert (ds + k)[|ds|..] == k;
    assert IntegerPart(ds + k) == |ds|;
  }

  /** Python's text for a finite float: a JSON number with a fraction or an exponent. */
  ghost predicate FloatText(b: Bytes) {
    MatchNumber(b) == NumberMatch(|b|, true)
  }

  /** Counting digits does not look past the first byte that is none. */
  lemma DigitCountLocal(s: Bytes, k: Bytes)
    requires EndsNumber(k)
    ensures DigitCount(s + k) == DigitCount(s)
  {
    DigitCountStops(s);
    var n := DigitCount(s);
    var ds := s[..n];
    var more := s[n..] + k;
    assert s + k == ds + more;
    DigitCountAll(ds, more);
  }

  lemma IntegerPartLocal(s: Bytes, k: Bytes)
    requires EndsNumber(k)
    ensures IntegerPart(s + k) == IntegerPart(s)
  {
    DigitCountLocal(s, k);
  }

  lemma FractionPartLocal(s: Bytes, k: Bytes)
    requires EndsNumber(k)
    ensures FractionPart(s + k) == FractionPart(s)
  {
    if s != [] {
      assert (s + k)[1..] == s[1..] + k;
      DigitCountLocal(s[1..], k);
    }
  }

  lemma ExponentPartLocal(s: Bytes, k: Bytes)
    requires EndsNumber(k)
    ensures ExponentPart(s + k) == ExponentPart(s)
  {
    if s != [] {
      assert (s + k)[1..] == s[1..] + k;
      DigitCountLocal(s[1..], k);
      if |s| > 1 {
        assert (s + k)[2..] == s[2..] + k;
        DigitCountLocal(s[2..], k);
      }
    }
  }

  /** A float is matched exactly, whatever follows it. */
  lemma FloatRoundTrip(b: Bytes, k: Bytes)
    requires FloatText(b) && EndsNumber(k)
    ensures b != [] && (b[0] == 45 || IsDigit(b[0]))
    ensures MatchNumber(b + k) == NumberMatch(|b|, true)
  {
    if b[0] == 45 {
      assert (b + k)[1..] == b[1..] + k;
      UnsignedLocal(b[1..], k);
    } else {
      UnsignedLocal(b, k);
    }
  }

  lemma UnsignedLocal(s: Bytes, k: Bytes)
    requires EndsNumber(k)
    ensures MatchUnsigned(s + k) == MatchUnsigned(s)
  {
    IntegerPartLocal(s, k);
    var whole := IntegerPart(s);
    var t := s[whole..];
    assert (s + k)[whole..] == t + k;
    FractionPartLocal(t, k);
    var fraction := FractionPart(t);
    assert (t + k)[fraction..] == t[fraction..] + k;
    ExponentPartLocal(t[fraction..], k);
  }

  // No newline is ever written, so a line holds exactly one value.

  lemma {:induction false} EscapeHasNoNewline(t: Text, k: Bytes)
    requires NEWLINE !in k
    ensures NEWLINE !in Escape(t, k)
  {
    if t != [] {
      EscapeHasNoNewline(t[1..], k);
    }
  }

  lemma IntegerHasNoNewline(i: int)
    ensures NEWLINE !in IntegerText(i)
  {
  }

  lemma FloatHasNoNewline(b: Bytes)
    requires FloatText(b)
    ensures NEWLINE !in b
  {
    if b[0] == 45 {
      UnsignedHasNoNewline(b[1..]);
      assert b == [b[0]] + b[1..];
    } else {
      UnsignedHasNoNewline(b);
    }
  }

  lemma UnsignedHasNoNewline(s: Bytes)
    requires MatchUnsigned(s).length == |s|
    ensures NEWLINE !in s
  {
    var whole := IntegerPart(s);
    if whole > 0 {
      var t := s[whole..];
      var fraction := FractionPart(t);
      var u := t[fraction..];
      DigitCountStops(s);
      assert NEWLINE !in s[..whole];
      FractionHasNoNewline(t);
      ExponentHasNoNewline(u);
      assert s == s[..whole] + (t[..fraction] + u);
    }
  }

  lemma FractionHasNoNewline(t: Bytes)
    ensures NEWLINE !in t[..FractionPart(t)]
  {
    var n := FractionPart(t);
    if n > 0 {
      DigitCountStops(t[1..]);
      assert t[..n] == [t[0]] + t[1..][..n - 1];
    }
  }

  lemma ExponentHasNoNewline(u: Bytes)
    ensures NEWLINE !in u[..ExponentPart(u)]
  {
    var n := ExponentPart(u);
    if n > 0 {
      var skip := if |u| > 1 && (u[1] == 43 || u[1] == 45) then 2 else 1;
      DigitCountStops(u[skip..]);
      assert u[..n] == u[..skip] + u[skip..][..n - skip];
    }
  }
}
