/**
 * Integers and strings of JSON text stated unit by unit in numbers (RFC 8785, sections 3.2.2.2 and
 * 3.2.2.3), and that the writer writes just these.
 */
module JsonSyntax {
  import opened Prelude
  import opened Utf16Text

  // ---------------------------------------------------------------- integers

  /** The number that decimal digits stand for. */
  function ValueOf(t: Text): int {
    if t == [] then 0 else 10 * ValueOf(Front(t)) - 48 + Last(t)
  }

  /** One or more decimal digits with no zero in front. */
  ghost predicate IsNatural(t: Text, n: nat) {
    && t != [] && (forall i | 0 <= i < |t| :: 48 <= t[i] <= 57)
    && (|t| > 1 ==> t[0] != 48)
    && ValueOf(t) == n
  }

  ghost predicate IsInteger(t: Text, n: int) {
    if n < 0 then t != [] && t[0] == 45 && IsNatural(t[1..], -n) else IsNatural(t, n)
  }

  lemma {:induction false} DigitsAreNatural(n: nat)
    ensures IsNatural(Digits(n), n)
    ensures n > 0 ==> Digits(n)[0] != 48
  {
    if n < 10 {
      assert Front(Digits(n)) == [];
    } else {
      DigitsAreNatural(n / 10);
      FrontLastSnoc(Digits(n / 10), 48 + n % 10);
    }
  }

  lemma PrintIntIsInteger(n: int)
    ensures IsInteger(PrintInt(n), n)
  {
    DigitsAreNatural(if n < 0 then -n else n);
    if n < 0 {
      assert PrintInt(n)[1..] == Digits(-n);
    }
  }

  // ---------------------------------------------------------------- strings

  /** A surrogate that is not half of a pair. */
  ghost predicate Lone(s: Text, i: nat)
    requires i < |s|
  {
    || (0xD800 <= s[i] <= 0xDBFF && !(i + 1 < |s| && 0xDC00 <= s[i + 1] <= 0xDFFF))
    || (0xDC00 <= s[i] <= 0xDFFF && !(0 < i && 0xD800 <= s[i - 1] <= 0xDBFF))
  }

  lemma WellPairedHasNoLone(s: Text)
    ensures WellPaired(s) <==> forall i: nat | i < |s| :: !Lone(s, i)
  {
    if forall i: nat | i < |s| :: !Lone(s, i) {
      forall i: nat | i < |s|
        ensures PairedAt(s, i)
      {
        assert !Lone(s, i);
      }
    }
    forall i: nat | i < |s| && PairedAt(s, i)
      ensures !Lone(s, i)
    {
    }
  }

  /** What follows the backslash of a short escape: b, t, n, f, r, the quote and the backslash itself. */
  function ShortEscape(u: int): Option<Unit> {
    match u
    case 8 => Some(98)
    case 9 => Some(116)
    case 10 => Some(110)
    case 12 => Some(102)
    case 13 => Some(114)
    case 34 => Some(34)
    case 92 => Some(92)
    case _ => None
  }

  /** The lower-case hexadecimal digits. */
  const HEX: Text := [48, 49, 50, 51, 52, 53, 54, 55, 56, 57, 97, 98, 99, 100, 101, 102]

  /** How a unit is written: the short escapes, units below 32 and lone surrogates in hexadecimal, others as they are. */
  function Written(u: Unit, lone: bool): Text {
    if ShortEscape(u).Some? then [92, ShortEscape(u).value]
    else if u < 32 || lone then [92, 117, HEX[u / 4096], HEX[u / 256 % 16], HEX[u / 16 % 16], HEX[u % 16]]
    else [u]
  }

  ghost function UnitText(s: Text, i: nat): Text
    requires i < |s|
  {
    Written(s[i], Lone(s, i))
  }

  /** The first `n` units, written one after the other. */
  ghost function UnitTexts(s: Text, n: nat): Text
    requires n <= |s|
  {
    if n == 0 then [] else UnitTexts(s, n - 1) + UnitText(s, n - 1)
  }

  ghost predicate IsString(t: Text, s: Text) {
    t == [34] + UnitTexts(s, |s|) + [34]
  }

  lemma HexDigitIs(d: int)
    requires 0 <= d < 16
    ensures HexDigit(d) == HEX[d]
  {
  }

  lemma HexEscapeIs(u: Unit)
    ensures HexEscape(u) == [92, 117, HEX[u / 4096], HEX[u / 256 % 16], HEX[u / 16 % 16], HEX[u % 16]]
  {
    assert u / 16 / 16 == u / 256 && u / 256 / 16 == u / 4096;
    HexDigitIs(u / 4096);
    HexDigitIs(u / 256 % 16);
    HexDigitIs(u / 16 % 16);
    HexDigitIs(u % 16);
  }

  /** The place in front of the i-th unit is not inside a pair. */
  ghost predicate Between(s: Text, i: nat) {
    i <= |s| && (0 < i < |s| ==> !(IsHigh(s[i - 1]) && IsLow(s[i])))
  }

  lemma EscapePair(s: Text, i: nat)
    requires i + 1 < |s| && IsHigh(s[i]) && IsLow(s[i + 1])
    ensures Escape(s[i..]) == (UnitText(s, i) + UnitText(s, i + 1)) + Escape(s[i + 2..])
    ensures Between(s, i + 2)
  {
    assert s[i..][..2] == [s[i]] + [s[i + 1]] && s[i..][2..] == s[i + 2..];
  }

  lemma EscapeUnitIs(u: Unit)
    ensures EscapeUnit(u) == Written(u, false)
  {
    if u < 32 {
      HexEscapeIs(u);
    }
  }

  lemma HexEscapeIsSingle(u: Unit)
    requires IsSurrogate(u)
    ensures HexEscape(u) == Written(u, true)
  {
    HexEscapeIs(u);
  }

  lemma UnitTextIs(s: Text, i: nat)
    requires i < |s| && Between(s, i) && !(IsHigh(s[i]) && i + 1 < |s| && IsLow(s[i + 1]))
    ensures UnitText(s, i) == if IsSurrogate(s[i]) then HexEscape(s[i]) else EscapeUnit(s[i])
  {
    assert Lone(s, i) <==> IsSurrogate(s[i]);
    if IsSurrogate(s[i]) {
      HexEscapeIsSingle(s[i]);
    } else {
      EscapeUnitIs(s[i]);
    }
  }

  lemma EscapeSingle(s: Text, i: nat)
    requires i < |s| && Between(s, i) && !(IsHigh(s[i]) && i + 1 < |s| && IsLow(s[i + 1]))
    ensures Escape(s[i..]) == UnitText(s, i) + Escape(s[i + 1..])
    ensures Between(s, i + 1)
  {
    UnitTextIs(s, i);
    var rest := s[i..];
    assert rest[0] == s[i] && rest[1..] == s[i + 1..];
    assert |rest| > 1 ==> rest[1] == s[i + 1];
  }

  /** From a place between pairs on, the rest is escaped as unit by unit. */
  lemma {:induction false} EscapeIs(s: Text, i: nat)
    requires Between(s, i)
    ensures UnitTexts(s, i) + Escape(s[i..]) == UnitTexts(s, |s|)
    decreases |s| - i
  {
    var done := UnitTexts(s, i);
    if i == |s| {
      assert done + [] == done;
    } else if IsHigh(s[i]) && i + 1 < |s| && IsLow(s[i + 1]) {
      EscapePair(s, i);
      EscapeIs(s, i + 2);
      Assoc(done, UnitText(s, i), UnitText(s, i + 1));
      Assoc(done, UnitText(s, i) + UnitText(s, i + 1), Escape(s[i + 2..]));
    } else {
      EscapeSingle(s, i);
      EscapeIs(s, i + 1);
      Assoc(done, UnitText(s, i), Escape(s[i + 1..]));
    }
  }

  lemma QuoteIsString(s: Text)
    ensures IsString(Quote(s), s)
  {
    EscapeIs(s, 0);
    assert s[0..] == s && UnitTexts(s, 0) == [];
    assert [] + Escape(s) == Escape(s);
  }
}
