/** The 64-digit hexadecimal strings in which tree elements are stored. */
module Hex {

  const WIDTH: nat := 64

  predicate IsDigit(c: char) {
    '0' <= c <= '9' || 'a' <= c <= 'f'
  }

  function DigitValue(c: char): (v: nat)
    requires IsDigit(c)
    ensures v < 16
  {
    if c <= '9' then c as int - '0' as int else c as int - 'a' as int + 10
  }

  function DigitChar(v: nat): (c: char)
    requires v < 16
    ensures IsDigit(c) && DigitValue(c) == v
  {
    if v < 10 then '0' + v as char else 'a' + (v - 10) as char
  }

  predicate AllDigits(s: string) {
    forall i :: 0 <= i < |s| ==> IsDigit(s[i])
  }

  /** `^[0-9a-f]{64}$`. */
  predicate IsHex64(s: string) {
    |s| == WIDTH && AllDigits(s)
  }

  /** `int(s, 16)`. */
  function Value(s: string): nat
    requires AllDigits(s)
  {
    if s == "" then 0 else 16 * Value(s[..|s| - 1]) + DigitValue(s[|s| - 1])
  }

  /** The low `width` digits of a number, most significant first. */
  function Digits(n: nat, width: nat): (s: string)
    ensures |s| == width && AllDigits(s)
  {
    if width == 0 then "" else Digits(n / 16, width - 1) + [DigitChar(n % 16)]
  }

  /** Printing what was read gives the same string back, so a string of known
      length and its number determine each other. */
  lemma {:induction false} PrintInvertsRead(s: string)
    requires AllDigits(s)
    ensures Digits(Value(s), |s|) == s
  {
    if s != "" {
      var last := |s| - 1;
      PrintInvertsRead(s[..last]);
      var head, digit := Value(s[..last]), DigitValue(s[last]);
      assert Value(s) / 16 == head && Value(s) % 16 == digit;
      assert DigitChar(digit) == s[last];
    }
  }

  function Pow16(width: nat): (p: nat)
    ensures p >= 1
  {
    if width == 0 then 1 else 16 * Pow16(width - 1)
  }

  /** Reading what was printed gives the number back, if it fits the width. */
  lemma {:induction false} ReadInvertsPrint(n: nat, width: nat)
    requires n < Pow16(width)
    ensures Value(Digits(n, width)) == n
  {
    if width > 0 {
      ReadInvertsPrint(n / 16, width - 1);
      assert Digits(n, width)[..width - 1] == Digits(n / 16, width - 1);
    }
  }

  lemma {:induction false} Pow16Splits(a: nat, b: nat)
    ensures Pow16(a + b) == Pow16(a) * Pow16(b)
  {
    if a > 0 {
      Pow16Splits(a - 1, b);
      assert 16 * (Pow16(a - 1) * Pow16(b)) == (16 * Pow16(a - 1)) * Pow16(b);
    }
  }

  lemma Pow16Doubles(width: nat, half: nat, p: nat)
    requires width == half + half && Pow16(half) == p
    ensures Pow16(width) == p * p
  {
    Pow16Splits(half, half);
  }

  /** 64 digits hold 256 bits. */
  lemma WidthIs256Bits()
    ensures Pow16(WIDTH) == 0x1_0000_0000_0000_0000_0000_0000_0000_0000_0000_0000_0000_0000_0000_0000_0000_0000
  {
    var w := WIDTH / 32;
    assert Pow16(w) == 0x100;
    Pow16Doubles(2 * w, w, 0x100);
    Pow16Doubles(4 * w, 2 * w, 0x1_0000);
    Pow16Doubles(8 * w, 4 * w, 0x1_0000_0000);
    Pow16Doubles(16 * w, 8 * w, 0x1_0000_0000_0000_0000);
    Pow16Doubles(32 * w, 16 * w, 0x1_0000_0000_0000_0000_0000_0000_0000_0000);
  }

  lemma ReadIsInjective(s: string, t: string)
    requires AllDigits(s) && AllDigits(t) && |s| == |t| && Value(s) == Value(t)
    ensures s == t
  {
    PrintInvertsRead(s);
    PrintInvertsRead(t);
  }
}
