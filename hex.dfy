/**
 * The cell-shading colour that `shade_cell` writes into a table header cell: the
 * Python format `f"{r:02x}{g:02x}{b:02x}"` (markdown_to_word.py:379).
 */
module Hex {
  const Digits: string := "0123456789abcdef"

  predicate IsHexDigit(c: char) { c in Digits }

  /** The lowercase digit that `:x` prints for a value below 16. */
  function DigitChar(d: nat): (c: char)
    requires d < 16
    ensures IsHexDigit(c)
  {
    Digits[d]
  }

  /** The value of a lowercase hexadecimal digit. */
  function DigitValue(c: char): (d: nat)
    requires IsHexDigit(c)
    ensures d < 16 && DigitChar(d) == c
  {
    if c == '0' then 0 else if c == '1' then 1 else if c == '2' then 2 else if c == '3' then 3
    else if c == '4' then 4 else if c == '5' then 5 else if c == '6' then 6 else if c == '7' then 7
    else if c == '8' then 8 else if c == '9' then 9 else if c == 'a' then 10 else if c == 'b' then 11
    else if c == 'c' then 12 else if c == 'd' then 13 else if c == 'e' then 14 else 15
  }

  lemma {:induction false} DigitRoundTrip(d: nat)
    requires d < 16
    ensures DigitValue(DigitChar(d)) == d
  {
  }

  /** `format(n, 'x')` for a non-negative `n`: the digits without leading zeros. */
  function HexDigits(n: nat): (s: string)
    ensures |s| >= 1
    ensures n >= 16 ==> |s| >= 2
    decreases n
  {
    if n < 16 then [DigitChar(n)] else HexDigits(n / 16) + [DigitChar(n % 16)]
  }

  /** The number a string of lowercase hexadecimal digits denotes. */
  function ParseHex(s: string): nat
    requires forall k :: 0 <= k < |s| ==> IsHexDigit(s[k])
  {
    if |s| == 0 then 0 else 16 * ParseHex(s[..|s| - 1]) + DigitValue(s[|s| - 1])
  }

  lemma {:induction false} HexDigitsAreDigits(n: nat)
    ensures forall k :: 0 <= k < |HexDigits(n)| ==> IsHexDigit(HexDigits(n)[k])
    decreases n
  {
    if n >= 16 {
      HexDigitsAreDigits(n / 16);
    }
  }

  /** Reading the printed digits back gives the number. */
  lemma {:induction false} HexDigitsRoundTrip(n: nat)
    ensures forall k :: 0 <= k < |HexDigits(n)| ==> IsHexDigit(HexDigits(n)[k])
    ensures ParseHex(HexDigits(n)) == n
    decreases n
  {
    HexDigitsAreDigits(n);
    var s := HexDigits(n);
    if n < 16 {
      DigitRoundTrip(n);
    } else {
      HexDigitsRoundTrip(n / 16);
      DigitRoundTrip(n % 16);
      assert s[..|s| - 1] == HexDigits(n / 16);
    }
  }

  /** Python's `f"{n:02x}"`: lowercase hexadecimal, zero-padded to two characters; a
      negative value is printed as '-' and the digits of its magnitude, which already
      fills the width. */
  function Format02x(n: int): (s: string)
    ensures |s| >= 2
  {
    if n < 0 then "-" + HexDigits(-n)
    else if n < 16 then "0" + HexDigits(n)
    else HexDigits(n)
  }

  /** A colour component in 0..255 is printed as exactly two digits, and they read back. */
  lemma {:induction false} ByteFormat(n: int)
    requires 0 <= n < 256
    ensures |Format02x(n)| == 2
    ensures IsHexDigit(Format02x(n)[0]) && IsHexDigit(Format02x(n)[1])
    ensures 16 * DigitValue(Format02x(n)[0]) + DigitValue(Format02x(n)[1]) == n
  {
    var s := Format02x(n);
    if n < 16 {
      assert s == ['0', DigitChar(n)];
      DigitRoundTrip(n);
    } else {
      assert HexDigits(n / 16) == [DigitChar(n / 16)];
      assert s == [DigitChar(n / 16), DigitChar(n % 16)];
      DigitRoundTrip(n / 16);
      DigitRoundTrip(n % 16);
    }
  }

  /** Values 256 and over print more than two digits: the field is then wider than the
      six characters a `w:fill` colour holds. */
  lemma {:induction false} WideComponent(n: int)
    requires n >= 256
    ensures |Format02x(n)| >= 3
  {
    assert HexDigits(n) == HexDigits(n / 16) + [DigitChar(n % 16)];
  }

  /** The `w:fill` attribute written by `shade_cell`. */
  function ShadeFill(r: int, g: int, b: int): (fill: string)
    ensures |fill| >= 6
  {
    Format02x(r) + Format02x(g) + Format02x(b)
  }

  /** The two digits at `at` read as one byte. */
  function PairAt(s: string, at: nat): nat
    requires at + 2 <= |s| && IsHexDigit(s[at]) && IsHexDigit(s[at + 1])
  {
    16 * DigitValue(s[at]) + DigitValue(s[at + 1])
  }

  /** For components in 0..255 the fill is six hexadecimal digits, and each pair reads
      back as its component: the encoding loses nothing. */
  lemma {:induction false} ShadeFillRoundTrip(r: int, g: int, b: int)
    requires 0 <= r < 256 && 0 <= g < 256 && 0 <= b < 256
    ensures |ShadeFill(r, g, b)| == 6
    ensures forall k :: 0 <= k < 6 ==> IsHexDigit(ShadeFill(r, g, b)[k])
    ensures PairAt(ShadeFill(r, g, b), 0) == r
    ensures PairAt(ShadeFill(r, g, b), 2) == g
    ensures PairAt(ShadeFill(r, g, b), 4) == b
  {
    ByteFormat(r);
    ByteFormat(g);
    ByteFormat(b);
    var fill := ShadeFill(r, g, b);
    var x, y, z := Format02x(r), Format02x(g), Format02x(b);
    assert fill[0] == x[0] && fill[1] == x[1];
    assert fill[2] == y[0] && fill[3] == y[1];
    assert fill[4] == z[0] && fill[5] == z[1];
  }

  /** Different colours in 0..255 give different fills. */
  lemma {:induction false} ShadeFillInjective(r: int, g: int, b: int, r2: int, g2: int, b2: int)
    requires 0 <= r < 256 && 0 <= g < 256 && 0 <= b < 256
    requires 0 <= r2 < 256 && 0 <= g2 < 256 && 0 <= b2 < 256
    requires ShadeFill(r, g, b) == ShadeFill(r2, g2, b2)
    ensures r == r2 && g == g2 && b == b2
  {
    ShadeFillRoundTrip(r, g, b);
    ShadeFillRoundTrip(r2, g2, b2);
  }

  /** The default header background (240, 240, 240) is written as "f0f0f0". */
  lemma {:induction false} DefaultHeaderFill()
    ensures ShadeFill(240, 240, 240) == "f0f0f0"
  {
    assert HexDigits(15) == "f";
    assert HexDigits(240) == "f0";
  }

  /** A negative component is printed with a sign, so the fill is not a colour. */
  lemma {:induction false} NegativeComponent()
    ensures ShadeFill(-1, 0, 0) == "-10000"
  {
    assert HexDigits(1) == "1";
    assert HexDigits(0) == "0";
  }
}
