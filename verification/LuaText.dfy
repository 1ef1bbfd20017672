/** Bytes, numbers and code points as the bundled Lua JSON codec reads and writes them. */
module LuaText {
  import opened Results
  import opened Decimals

  type byte = n: nat | n < 256
  type Bytes = seq<byte>

  const QUOTE: byte := 34
  const COMMA: byte := 44
  const MINUS: byte := 45
  const SLASH: byte := 47
  const COLON: byte := 58
  const LBRACKET: byte := 91
  const BACKSLASH: byte := 92
  const RBRACKET: byte := 93
  const LETTER_B: byte := 98
  const LETTER_F: byte := 102
  const LETTER_N: byte := 110
  const LETTER_R: byte := 114
  const LETTER_T: byte := 116
  const LETTER_U: byte := 117
  const LBRACE: byte := 123
  const RBRACE: byte := 125

  const TRUE: Bytes := [116, 114, 117, 101]
  const FALSE: Bytes := [102, 97, 108, 115, 101]
  const NULL: Bytes := [110, 117, 108, 108]

  predicate IsSpace(c: byte) { c == 32 || c == 9 || c == 13 || c == 10 }

  predicate IsDelim(c: byte) { IsSpace(c) || c == RBRACKET || c == RBRACE || c == COMMA }

  // ---------- decimal numbers ----------

  predicate IsDigit(c: byte) { 48 <= c <= 57 }

  predicate AllDigits(s: Bytes) { forall i :: 0 <= i < |s| ==> IsDigit(s[i]) }

  function DigitOf(c: byte): Digit
    requires IsDigit(c)
  {
    var n: int := c;
    n - 48
  }

  function DigitByte(d: Digit): byte {
    var n: int := d;
    n + 48
  }

  function DigitsText(n: nat): (s: Bytes)
    ensures s != [] && AllDigits(s)
  {
    var ds := Digits(n);
    seq(|ds|, i requires 0 <= i < |ds| => DigitByte(ds[i]))
  }

  function DigitsOf(s: Bytes): seq<Digit>
    requires AllDigits(s)
  {
    seq(|s|, i requires 0 <= i < |s| => DigitOf(s[i]))
  }

  function Decimal(n: int): Bytes {
    if n < 0 then [MINUS] + DigitsText(-n) else DigitsText(n)
  }

  // The integers among the texts that count as a number.
  function ToNumber(s: Bytes): Option<int> {
    if |s| >= 2 && s[0] == MINUS && AllDigits(s[1..]) then Some(0 - Value(DigitsOf(s[1..])) as int)
    else if |s| >= 1 && AllDigits(s) then Some(Value(DigitsOf(s)))
    else None
  }

  lemma DigitsTextRoundTrip(n: nat)
    ensures Value(DigitsOf(DigitsText(n))) == n
    ensures forall c :: c in DigitsText(n) ==> IsDigit(c)
  {
    hide Digits, Value;
    DigitsRoundTrip(n);
    assert DigitsOf(DigitsText(n)) == Digits(n);
  }

  lemma DecimalRoundTrip(n: int)
    ensures ToNumber(Decimal(n)) == Some(n)
    ensures Decimal(n) != [] && (IsDigit(Decimal(n)[0]) || Decimal(n)[0] == MINUS)
    ensures forall c :: c in Decimal(n) ==> !IsDelim(c)
  {
    hide DigitsText, DigitsOf, Value;
    if n < 0 {
      DigitsTextRoundTrip(-n);
      assert Decimal(n)[1..] == DigitsText(-n);
    } else {
      DigitsTextRoundTrip(n);
    }
  }

  // ---------- hexadecimal ----------

  function HexDigit(d: nat): byte
    requires d < 16
  {
    if d < 10 then 48 + d else 87 + d
  }

  function HexValue(c: byte): Option<nat> {
    if 48 <= c <= 57 then Some(c - 48)
    else if 97 <= c <= 102 then Some(c - 87)
    else if 65 <= c <= 70 then Some(c - 55)
    else None
  }

  predicate IsHex(c: byte) { HexValue(c).Some? }

  predicate IsHex4(s: Bytes) {
    |s| == 4 && IsHex(s[0]) && IsHex(s[1]) && IsHex(s[2]) && IsHex(s[3])
  }

  function Hex4Value(s: Bytes): (n: nat)
    requires IsHex4(s)
    ensures n <= 0xffff
  {
    HexValue(s[0]).value * 0x1000 + HexValue(s[1]).value * 0x100 + HexValue(s[2]).value * 0x10 + HexValue(s[3]).value
  }

  function Hex4(n: nat): Bytes
    requires n <= 0xffff
  {
    [HexDigit(n / 0x1000), HexDigit(n / 0x100 % 0x10), HexDigit(n / 0x10 % 0x10), HexDigit(n % 0x10)]
  }

  lemma HexDigitRoundTrip(d: nat)
    requires d < 16
    ensures HexValue(HexDigit(d)) == Some(d)
  {
  }

  lemma Nibbles(n: nat)
    ensures n == n / 0x10 * 0x10 + n % 0x10
    ensures n / 0x10 == n / 0x100 * 0x10 + n / 0x10 % 0x10
    ensures n / 0x100 == n / 0x1000 * 0x10 + n / 0x100 % 0x10
  {
  }

  lemma Hex4RoundTrip(n: nat)
    requires n <= 0xffff
    ensures IsHex4(Hex4(n)) && Hex4Value(Hex4(n)) == n
  {
    hide HexDigit, HexValue;
    var a, b, c, d := n / 0x1000, n / 0x100 % 0x10, n / 0x10 % 0x10, n % 0x10;
    Nibbles(n);
    assert n == a * 0x1000 + b * 0x100 + c * 0x10 + d;
    HexDigitRoundTrip(a);
    HexDigitRoundTrip(b);
    HexDigitRoundTrip(c);
    HexDigitRoundTrip(d);
  }

  /** A hexadecimal digit, in either case. */
  datatype Hex = Hex(worth: nat, upper: bool)

  predicate IsHexDigit(h: Hex) { h.worth < 16 }

  function HexChar(h: Hex): char
    requires IsHexDigit(h)
  {
    if h.upper then "0123456789ABCDEF"[h.worth] else "0123456789abcdef"[h.worth]
  }

  /** The four digits of a \u escape. */
  predicate IsUnit(digits: seq<Hex>) { |digits| == 4 && forall i :: 0 <= i < 4 ==> IsHexDigit(digits[i]) }

  function Unit(digits: seq<Hex>): nat
    requires IsUnit(digits)
  {
    digits[0].worth * 4096 + digits[1].worth * 256 + digits[2].worth * 16 + digits[3].worth
  }

  function UnitText(digits: seq<Hex>): Bytes
    requires IsUnit(digits)
  {
    [HexChar(digits[0]) as int, HexChar(digits[1]) as int, HexChar(digits[2]) as int, HexChar(digits[3]) as int]
  }

  lemma HexIsRead(h: Hex)
    requires IsHexDigit(h)
    ensures HexValue(HexChar(h) as int) == Some(h.worth)
  {
    var w := h.worth;
    assert w == 0 || w == 1 || w == 2 || w == 3 || w == 4 || w == 5 || w == 6 || w == 7 || w == 8 || w == 9
           || w == 10 || w == 11 || w == 12 || w == 13 || w == 14 || w == 15;
  }

  lemma UnitIsRead(digits: seq<Hex>)
    requires IsUnit(digits)
    ensures IsHex4(UnitText(digits)) && Hex4Value(UnitText(digits)) == Unit(digits)
  {
    hide HexValue, HexChar;
    HexIsRead(digits[0]);
    HexIsRead(digits[1]);
    HexIsRead(digits[2]);
    HexIsRead(digits[3]);
  }

  // ---------- UTF-8 ----------

  /** The bytes of a code point, or nothing beyond the last one. */
  function CodepointToUtf8(n: nat): Option<Bytes> {
    if n <= 0x7f then Some([n])
    else if n <= 0x7ff then Some([n / 64 + 192, n % 64 + 128])
    else if n <= 0xffff then Some([n / 4096 + 224, n % 4096 / 64 + 128, n % 64 + 128])
    else if n <= 0x10ffff then
      Some([n / 262144 + 240, n % 262144 / 4096 + 128, n % 4096 / 64 + 128, n % 64 + 128])
    else None
  }

  // The payload of a byte whose marker bits are known.
  function Payload(c: byte, marker: nat): int { c as int - marker }

  predicate IsTail(c: byte) { 0x80 <= c <= 0xbf }

  predicate IsSurrogate(n: nat) { 0xd800 <= n <= 0xdfff }

  /** The code point that a byte sequence encodes by the table in section 4 of RFC 3629:
      shortest form only, no surrogates, nothing beyond U+10FFFF. */
  function Utf8Decode(s: Bytes): Option<nat> {
    if |s| == 1 && s[0] <= 0x7f then Some(s[0])
    else if |s| == 2 && 0xc2 <= s[0] <= 0xdf && IsTail(s[1]) then
      Some(Payload(s[0], 0xc0) * 64 + Payload(s[1], 0x80))
    else if |s| == 3 && IsTail(s[1]) && IsTail(s[2])
            && ((s[0] == 0xe0 && 0xa0 <= s[1]) || 0xe1 <= s[0] <= 0xec || (s[0] == 0xed && s[1] <= 0x9f)
                || 0xee <= s[0] <= 0xef) then
      Some(Payload(s[0], 0xe0) * 4096 + Payload(s[1], 0x80) * 64 + Payload(s[2], 0x80))
    else if |s| == 4 && IsTail(s[1]) && IsTail(s[2]) && IsTail(s[3])
            && ((s[0] == 0xf0 && 0x90 <= s[1]) || 0xf1 <= s[0] <= 0xf3 || (s[0] == 0xf4 && s[1] <= 0x8f)) then
      Some(Payload(s[0], 0xf0) * 262144 + Payload(s[1], 0x80) * 4096 + Payload(s[2], 0x80) * 64 + Payload(s[3], 0x80))
    else None
  }

  /** The bytes made for a number decode to it exactly when it is a Unicode scalar value. */
  lemma Utf8RoundTrip(n: nat)
    ensures CodepointToUtf8(n).Some? <==> n <= 0x10ffff
    ensures n <= 0x10ffff ==>
      Utf8Decode(CodepointToUtf8(n).value) == if IsSurrogate(n) then None else Some(n)
  {
    hide Utf8Decode;
    if n <= 0x7f {
      OneByte(n);
    }
    if 0x7f < n <= 0x7ff {
      TwoBytes(n, n / 64, n % 64);
    } else if 0x7ff < n <= 0xffff {
      LowTwelve(n);
      ThreeBytes(n, n / 4096, n % 4096 / 64, n % 64);
    } else if 0xffff < n <= 0x10ffff {
      LowTwelve(n);
      LowEighteen(n);
      FourBytes(n, n / 262144, n % 262144 / 4096, n % 4096 / 64, n % 64);
    }
  }

  lemma LowTwelve(n: nat)
    ensures n % 4096 == n % 4096 / 64 * 64 + n % 64
  {
    Mod64(n, n / 4096 * 64 + n % 4096 / 64, n % 4096 % 64);
  }

  lemma LowEighteen(n: nat)
    ensures n % 262144 == n % 262144 / 4096 * 4096 + n % 4096
  {
    Mod4096(n, n / 262144 * 64 + n % 262144 / 4096, n % 262144 % 4096);
  }

  lemma Mod64(n: nat, q: nat, r: nat)
    requires n == q * 64 + r && r < 64
    ensures n % 64 == r
  {
  }

  lemma Mod4096(n: nat, q: nat, r: nat)
    requires n == q * 4096 + r && r < 4096
    ensures n % 4096 == r
  {
  }

  lemma OneByte(n: nat)
    requires n <= 0x7f
    ensures Utf8Decode([n]) == Some(n)
  {
  }

  lemma TwoBytes(n: nat, a: nat, b: nat)
    requires 0x7f < n <= 0x7ff && n == a * 64 + b && b < 64
    ensures a < 32 && Utf8Decode([a + 192, b + 128]) == Some(n)
  {
  }

  lemma ThreeBytes(n: nat, a: nat, b: nat, c: nat)
    requires 0x7ff < n <= 0xffff && n == a * 4096 + b * 64 + c && b < 64 && c < 64
    ensures a < 16 && Utf8Decode([a + 224, b + 128, c + 128]) == if IsSurrogate(n) then None else Some(n)
  {
  }

  lemma FourBytes(n: nat, a: nat, b: nat, c: nat, d: nat)
    requires 0xffff < n <= 0x10ffff && n == a * 262144 + b * 4096 + c * 64 + d && b < 64 && c < 64 && d < 64
    ensures a < 5 && Utf8Decode([a + 240, b + 128, c + 128, d + 128]) == Some(n)
  {
  }

  // ---------- \u escapes ----------

  predicate IsHighDigits(s: Bytes)
    requires |s| == 4
  {
    && (s[0] == 100 || s[0] == 68)
    && (s[1] == 56 || s[1] == 57 || s[1] == 97 || s[1] == 65 || s[1] == 98 || s[1] == 66)
    && IsHex(s[2]) && IsHex(s[3])
  }

  // The first four digits look like a high surrogate and another escape follows.
  predicate IsPairText(s: Bytes) {
    |s| == 10 && IsHighDigits(s[..4]) && s[4] == BACKSLASH && s[5] == LETTER_U && IsHex4(s[6..])
  }

  /** The number computed from the digits of one escape, or from those of two. */
  function EscapeValue(hex: Bytes): (n: nat)
    requires IsHex4(hex) || IsPairText(hex)
    ensures IsHex4(hex) ==> n == Hex4Value(hex)
  {
    if |hex| == 10
    then
      HighDigitsValue(hex[..4]);
      (Hex4Value(hex[..4]) - 0xd800) * 0x400 + 0x10000 + Hex4Value(hex[6..]) - 0xdc00
    else Hex4Value(hex)
  }

  lemma HighDigitsValue(s: Bytes)
    requires |s| == 4
    ensures IsHighDigits(s) <==> IsHex4(s) && 0xd800 <= Hex4Value(s) <= 0xdbff
  {
    if IsHex4(s) {
      var a, b := HexValue(s[0]).value, HexValue(s[1]).value;
      assert 0xd800 <= Hex4Value(s) <= 0xdbff <==> a == 13 && 8 <= b <= 11;
    }
  }

  function ParseUnicodeEscape(hex: Bytes): Option<Bytes>
    requires IsHex4(hex) || IsPairText(hex)
  {
    CodepointToUtf8(EscapeValue(hex))
  }

  /** The code point that section 7 of RFC 8259 gives to a surrogate pair. */
  function PairCodepoint(high: nat, low: nat): int {
    0x10000 + (high - 0xd800) * 0x400 + (low - 0xdc00)
  }

  /** A single escape becomes UTF-8 for its code point exactly when it is no surrogate. */
  lemma SingleEscape(digits: seq<Hex>)
    requires IsUnit(digits)
    ensures var hex := UnitText(digits);
      && IsHex4(hex) && ParseUnicodeEscape(hex) == CodepointToUtf8(Unit(digits)) && ParseUnicodeEscape(hex).Some?
      && Utf8Decode(ParseUnicodeEscape(hex).value) == if IsSurrogate(Unit(digits)) then None else Some(Unit(digits))
  {
    hide HexChar, CodepointToUtf8, Utf8Decode;
    UnitIsRead(digits);
    Utf8RoundTrip(Unit(digits));
  }

  // The digits of two escapes, up to the end of the second one.
  function PairText(high: seq<Hex>, low: seq<Hex>): Bytes
    requires IsUnit(high) && IsUnit(low)
  {
    UnitText(high) + [BACKSLASH, LETTER_U] + UnitText(low)
  }

  predicate IsHigh(n: nat) { 0xd800 <= n <= 0xdbff }

  predicate IsLow(n: nat) { 0xdc00 <= n <= 0xdfff }

  lemma PairIsSeen(high: seq<Hex>, low: seq<Hex>)
    requires IsUnit(high) && IsHigh(Unit(high)) && IsUnit(low)
    ensures IsPairText(PairText(high, low))
    ensures EscapeValue(PairText(high, low)) == (Unit(high) - 0xd800) * 0x400 + 0x10000 + Unit(low) - 0xdc00
  {
    hide HexChar;
    UnitIsRead(high);
    UnitIsRead(low);
    var hex := PairText(high, low);
    assert hex[..4] == UnitText(high) && hex[6..] == UnitText(low);
    HighDigitsValue(hex[..4]);
  }

  /** A proper pair of escapes becomes UTF-8 for the code point of the pair. */
  lemma PairedEscape(high: seq<Hex>, low: seq<Hex>)
    requires IsUnit(high) && IsHigh(Unit(high)) && IsUnit(low) && IsLow(Unit(low))
    ensures var hex := PairText(high, low);
      && IsPairText(hex) && ParseUnicodeEscape(hex) == CodepointToUtf8(PairCodepoint(Unit(high), Unit(low)))
      && ParseUnicodeEscape(hex).Some?
      && Utf8Decode(ParseUnicodeEscape(hex).value) == Some(PairCodepoint(Unit(high), Unit(low)))
  {
    hide PairText, CodepointToUtf8, Utf8Decode;
    PairIsSeen(high, low);
    Utf8RoundTrip(EscapeValue(PairText(high, low)));
  }

  /** A second escape that is no low surrogate is swallowed: whatever the two become
      together, it is not the character the second one stands for. */
  lemma ImproperPairLosesCharacter(high: seq<Hex>, low: seq<Hex>)
    requires IsUnit(high) && IsHigh(Unit(high)) && IsUnit(low) && !IsLow(Unit(low))
    ensures var hex := PairText(high, low);
      && IsPairText(hex)
      && (ParseUnicodeEscape(hex).Some? ==> Utf8Decode(ParseUnicodeEscape(hex).value) != Some(Unit(low)))
  {
    hide PairText, CodepointToUtf8, Utf8Decode;
    PairIsSeen(high, low);
    Utf8RoundTrip(EscapeValue(PairText(high, low)));
  }

  /** An improper pair: a high surrogate before an ordinary letter becomes U+2441. */
  lemma ImproperPair()
    ensures var hex: Bytes := [100, 56, 48, 48, BACKSLASH, LETTER_U, 48, 48, 52, 49];
      IsPairText(hex) && EscapeValue(hex) == 0x2441
  {
    var hex: Bytes := [100, 56, 48, 48, BACKSLASH, LETTER_U, 48, 48, 52, 49];
    assert hex[..4] == [100, 56, 48, 48] && hex[6..] == [48, 48, 52, 49];
  }
}
