/** The `"x16"` format of a 64-bit id: lower-case hexadecimal, zero-padded to sixteen digits. */
module Hex {
  import opened Spans

  const HexAlphabet: string := "0123456789abcdef"

  predicate IsHexDigit(c: char)
  {
    ('0' <= c <= '9') || ('a' <= c <= 'f')
  }

  function Digit(d: nat): (c: char)
    requires d < 16
    ensures IsHexDigit(c) && c == HexAlphabet[d]
  {
    if d < 10 then ('0' as int + d) as char else ('a' as int + d - 10) as char
  }

  /** The inverse of `Digit` on the sixteen digit characters. */
  function DigitValue(c: char): (d: nat)
    requires IsHexDigit(c)
    ensures d < 16 && Digit(d) == c
  {
    if c <= '9' then c as int - '0' as int else c as int - 'a' as int + 10
  }

  function Pow16(k: nat): (r: nat)
    ensures r > 0
  {
    if k == 0 then 1 else 16 * Pow16(k - 1)
  }

  /** The low `width` hexadecimal digits of `n`, most significant first. */
  function Format(n: nat, width: nat): string
  {
    if width == 0 then "" else Format(n / 16, width - 1) + [Digit(n % 16)]
  }

  /** The number a string of hexadecimal digits denotes. */
  function Parse(s: string): nat
    requires forall i :: 0 <= i < |s| ==> IsHexDigit(s[i])
  {
    if |s| == 0 then 0 else 16 * Parse(s[..|s| - 1]) + DigitValue(s[|s| - 1])
  }

  /** `ulong.ToString("x16")`. */
  function X16(n: UInt64): (r: string)
    ensures |r| == 16
    ensures forall i :: 0 <= i < |r| ==> IsHexDigit(r[i])
    ensures Parse(r) == n
  {
    Pow16Is2To64();
    FormatShape(n, 16);
    FormatParse(n, 16);
    Format(n, 16)
  }

  lemma {:induction false} FormatShape(n: nat, width: nat)
    ensures |Format(n, width)| == width
    ensures forall i :: 0 <= i < width ==> IsHexDigit(Format(n, width)[i])
  {
    if width > 0 {
      FormatShape(n / 16, width - 1);
    }
  }

  /** Parsing the formatted digits gives back any `n` that fits in `width` digits. */
  lemma {:induction false} FormatParse(n: nat, width: nat)
    requires n < Pow16(width)
    ensures forall i :: 0 <= i < |Format(n, width)| ==> IsHexDigit(Format(n, width)[i])
    ensures Parse(Format(n, width)) == n
  {
    FormatShape(n, width);
    if width > 0 {
      var s := Format(n, width);
      FormatParse(n / 16, width - 1);
      assert s[..|s| - 1] == Format(n / 16, width - 1);
      assert DigitValue(s[|s| - 1]) == n % 16;
    }
  }

  lemma Pow16Is2To64()
    ensures Pow16(16) == TwoTo64
  {
    assert Pow16(4) == 0x1_0000;
    assert Pow16(8) == 0x1_0000_0000;
    assert Pow16(12) == 0x1_0000_0000_0000;
  }

  /** Distinct ids get distinct `x16` strings. */
  lemma X16Injective(a: UInt64, b: UInt64)
    requires X16(a) == X16(b)
    ensures a == b
  {
  }
}
