/**
 * Strings as sequences of UTF-16 code units, and the host's way of writing strings
 * and safe integers as JSON text (RFC 8785, section 3.2.2.2), each with a reader that
 * inverts it in front of any suffix.
 */
module Utf16Text {
  import opened Prelude

  /** One UTF-16 code unit. */
  type Unit = u: int | 0 <= u < 0x1_0000 witness 0

  type Text = seq<Unit>

  const QUOTE: Unit := 0x22
  const BACKSLASH: Unit := 0x5C
  const MINUS: Unit := 0x2D
  const ZERO: Unit := 0x30

  predicate IsHigh(u: Unit) { 0xD800 <= u <= 0xDBFF }
  predicate IsLow(u: Unit) { 0xDC00 <= u <= 0xDFFF }
  predicate IsSurrogate(u: Unit) { IsHigh(u) || IsLow(u) }

  /** A high surrogate here is followed by a low one, a low one here follows a high one. */
  ghost predicate PairedAt(s: Text, i: nat)
    requires i < |s|
  {
    && (IsHigh(s[i]) ==> i + 1 < |s| && IsLow(s[i + 1]))
    && (IsLow(s[i]) ==> 0 < i && IsHigh(s[i - 1]))
  }

  ghost predicate WellPaired(s: Text) {
    forall i | 0 <= i < |s| :: PairedAt(s, i)
  }

  // ---------------------------------------------------------------- writing strings

  function HexDigit(d: int): Unit
    requires 0 <= d < 16
  {
    if d < 10 then 0x30 + d else 0x61 + (d - 10)
  }

  /** The six-unit escape of one code unit, lower-case hexadecimal. */
  function HexEscape(u: Unit): Text {
    var a := u / 16;
    var b := a / 16;
    var c := b / 16;
    [BACKSLASH, 0x75, HexDigit(c), HexDigit(b % 16), HexDigit(a % 16), HexDigit(u % 16)]
  }

  /** How the host writes a code unit that is not a surrogate. */
  function EscapeUnit(u: Unit): Text {
    if u == 0x08 then [BACKSLASH, 0x62]
    else if u == 0x09 then [BACKSLASH, 0x74]
    else if u == 0x0A then [BACKSLASH, 0x6E]
    else if u == 0x0C then [BACKSLASH, 0x66]
    else if u == 0x0D then [BACKSLASH, 0x72]
    else if u == QUOTE || u == BACKSLASH then [BACKSLASH, u]
    else if u < 0x20 then HexEscape(u)
    else [u]
  }

  /** The body of a JSON string: surrogate pairs stay as they are, lone surrogates are escaped. */
  function Escape(s: Text): Text {
    if s == [] then []
    else if IsHigh(s[0]) && |s| > 1 && IsLow(s[1]) then s[..2] + Escape(s[2..])
    else if IsSurrogate(s[0]) then HexEscape(s[0]) + Escape(s[1..])
    else EscapeUnit(s[0]) + Escape(s[1..])
  }

  function Quote(s: Text): Text {
    [QUOTE] + Escape(s) + [QUOTE]
  }

  // ---------------------------------------------------------------- reading strings

  function HexValue(u: Unit): (r: Option<int>)
    ensures r.Some? ==> 0 <= r.value < 16
  {
    if 0x30 <= u <= 0x39 then Some(u - 0x30)
    else if 0x61 <= u <= 0x66 then Some(u - 0x61 + 10)
    else if 0x41 <= u <= 0x46 then Some(u - 0x41 + 10)
    else None
  }

  function ReadHex(t: Text): (r: Option<Unit>)
    requires |t| == 4
  {
    match (HexValue(t[0]), HexValue(t[1]), HexValue(t[2]), HexValue(t[3]))
    case (Some(a), Some(b), Some(c), Some(d)) => Some(a * 0x1000 + b * 0x100 + c * 0x10 + d)
    case _ => None
  }

  /** Reads one code unit of a string body. */
  function ReadUnit(t: Text): (r: Option<(Unit, Text)>)
    ensures r.Some? ==> |r.value.1| < |t|
  {
    if t == [] || t[0] < 0x20 || t[0] == QUOTE then None
    else if t[0] != BACKSLASH then Some((t[0], t[1..]))
    else if |t| < 2 then None
    else if t[1] == 0x62 then Some((0x08, t[2..]))
    else if t[1] == 0x74 then Some((0x09, t[2..]))
    else if t[1] == 0x6E then Some((0x0A, t[2..]))
    else if t[1] == 0x66 then Some((0x0C, t[2..]))
    else if t[1] == 0x72 then Some((0x0D, t[2..]))
    else if t[1] == QUOTE || t[1] == BACKSLASH || t[1] == 0x2F then Some((t[1], t[2..]))
    else if t[1] == 0x75 && |t| >= 6 then
      match ReadHex(t[2..6])
      case Some(u) => Some((u, t[6..]))
      case None => None
    else None
  }

  /** Reads a string body up to and including its closing quote. */
  function ReadChars(t: Text): (r: Option<(Text, Text)>)
    ensures r.Some? ==> |r.value.1| < |t|
    decreases |t|
  {
    if t != [] && t[0] == QUOTE then Some(([], t[1..]))
    else
      match ReadUnit(t)
      case None => None
      case Some((u, rest)) =>
        match ReadChars(rest)
        case None => None
        case Some((s, end)) => Some(([u] + s, end))
  }

  lemma HexDigitValue(d: int)
    requires 0 <= d < 16
    ensures HexValue(HexDigit(d)) == Some(d)
  {
  }

  lemma ReadHexDigits(u: Unit)
    ensures ReadHex(HexEscape(u)[2..6]) == Some(u)
  {
    var a := u / 16;
    var b := a / 16;
    var c := b / 16;
    assert u == a * 16 + u % 16 && a == b * 16 + a % 16 && b == c * 16 + b % 16;
    HexDigitValue(c);
    HexDigitValue(b % 16);
    HexDigitValue(a % 16);
    HexDigitValue(u % 16);
    assert HexEscape(u)[2..6] == [HexDigit(c), HexDigit(b % 16), HexDigit(a % 16), HexDigit(u % 16)];
  }

  lemma ReadHexEscape(u: Unit, rest: Text)
    ensures ReadUnit(HexEscape(u) + rest) == Some((u, rest))
  {
    var e := HexEscape(u);
    var t := e + rest;
    ReadHexDigits(u);
    assert |e| == 6 && t[0] == BACKSLASH && t[1] == 0x75;
    assert t[6..] == rest;
    assert t[2..6] == e[2..6];
  }

  lemma ReadEscapedUnit(u: Unit, rest: Text)
    ensures ReadUnit(EscapeUnit(u) + rest) == Some((u, rest))
  {
    var t := EscapeUnit(u) + rest;
    if u < 0x20 {
      ReadHexEscape(u, rest);
    }
    assert t[|EscapeUnit(u)|..] == rest;
  }

  /** One written unit in front of a body that reads back reads back too. */
  lemma ReadOneMore(written: Text, u: Unit, tail: Text, s: Text, rest: Text)
    requires written != [] && written[0] != QUOTE
    requires ReadUnit(written + tail) == Some((u, tail))
    requires ReadChars(tail) == Some((s, rest))
    ensures ReadChars(written + tail) == Some(([u] + s, rest))
  {
  }

  lemma ReadPair(high: Unit, low: Unit, tail: Text, s: Text, rest: Text)
    requires IsHigh(high) && IsLow(low)
    requires ReadChars(tail) == Some((s, rest))
    ensures ReadChars([high, low] + tail) == Some(([high, low] + s, rest))
  {
    ReadEscapedUnit(low, tail);
    ReadOneMore([low], low, tail, s, rest);
    ReadEscapedUnit(high, [low] + tail);
    ReadOneMore([high], high, [low] + tail, [low] + s, rest);
    assert [high] + ([low] + tail) == [high, low] + tail;
    assert [high] + ([low] + s) == [high, low] + s;
  }

  /** The first step of Escape: what is written, and how many units of the string it stands for. */
  lemma EscapeStep(s: Text, rest: Text) returns (written: Text, used: nat)
    requires s != []
    ensures 1 <= used <= |s| && used <= 2
    ensures Escape(s) + rest == written + (Escape(s[used..]) + rest)
    ensures used == 2 ==> IsHigh(s[0]) && IsLow(s[1]) && written == [s[0], s[1]]
    ensures used == 1 ==> written != [] && written[0] != QUOTE
    ensures used == 1 ==> forall tail :: ReadUnit(written + tail) == Some((s[0], tail))
  {
    if IsHigh(s[0]) && |s| > 1 && IsLow(s[1]) {
      written, used := s[..2], 2;
    } else {
      written, used := if IsSurrogate(s[0]) then HexEscape(s[0]) else EscapeUnit(s[0]), 1;
      forall tail
        ensures ReadUnit(written + tail) == Some((s[0], tail))
      {
        ReadHexEscape(s[0], tail);
        ReadEscapedUnit(s[0], tail);
      }
    }
  }

  /** Reading a written string body gives back the string and leaves the suffix alone. */
  lemma {:induction false} ReadCharsInverts(s: Text, rest: Text)
    ensures ReadChars(Escape(s) + ([QUOTE] + rest)) == Some((s, rest))
  {
    if s == [] {
      assert Escape(s) + ([QUOTE] + rest) == [QUOTE] + rest;
      assert ([QUOTE] + rest)[1..] == rest;
    } else {
      var written, used := EscapeStep(s, [QUOTE] + rest);
      var tail := Escape(s[used..]) + ([QUOTE] + rest);
      ReadCharsInverts(s[used..], rest);
      if used == 2 {
        ReadPair(s[0], s[1], tail, s[2..], rest);
        assert s == [s[0], s[1]] + s[2..];
      } else {
        ReadOneMore(written, s[0], tail, s[1..], rest);
        assert s == [s[0]] + s[1..];
      }
    }
  }

  // ---------------------------------------------------------------- integers

  predicate IsDigit(u: Unit) { 0x30 <= u <= 0x39 }

  /** The text does not go on with a digit, so a number in front of it ends there. */
  predicate NoDigitFirst(t: Text) { t == [] || !IsDigit(t[0]) }

  function Digits(n: nat): (t: Text)
    ensures |t| >= 1
    ensures forall i | 0 <= i < |t| :: IsDigit(t[i])
  {
    if n < 10 then [ZERO + n] else Digits(n / 10) + [ZERO + n % 10]
  }

  function PrintInt(n: int): Text {
    if n < 0 then [MINUS] + Digits(-n) else Digits(n)
  }

  /** Reads digits as long as there are any. */
  function ReadDigits(t: Text, acc: int): (r: (int, Text))
    requires 0 <= acc
    ensures 0 <= r.0
    ensures |r.1| <= |t|
    decreases |t|
  {
    if NoDigitFirst(t) then (acc, t) else ReadDigits(t[1..], acc * 10 + (t[0] - ZERO))
  }

  function ReadInt(t: Text): (r: Option<(int, Text)>)
    ensures r.Some? ==> |r.value.1| < |t|
  {
    if t == [] then None
    else if t[0] == MINUS then
      if NoDigitFirst(t[1..]) then None
      else var (n, rest) := ReadDigits(t[1..], 0); Some((-n, rest))
    else if !IsDigit(t[0]) then None
    else
      var (n, rest) := ReadDigits(t[1..], t[0] - ZERO);
      Some((n, rest))
  }

  lemma {:induction false} ReadDigitsInverts(n: nat, rest: Text)
    ensures ReadDigits(Digits(n) + rest, 0) == ReadDigits(rest, n)
  {
    if n < 10 {
      assert (Digits(n) + rest)[1..] == rest;
    } else {
      var d := [ZERO + n % 10];
      ReadDigitsInverts(n / 10, d + rest);
      assert Digits(n) + rest == Digits(n / 10) + (d + rest);
      assert (d + rest)[1..] == rest;
    }
  }

  /** Reading a written integer gives it back in front of any text that does not start with a digit. */
  lemma ReadIntInverts(n: int, rest: Text)
    requires NoDigitFirst(rest)
    ensures ReadInt(PrintInt(n) + rest) == Some((n, rest))
  {
    var m := if n < 0 then -n else n;
    ReadDigitsInverts(m, rest);
    var t := Digits(m) + rest;
    assert ReadDigits(t, 0) == (m, rest);
    if n < 0 {
      assert (PrintInt(n) + rest)[1..] == t;
    }
  }
}
