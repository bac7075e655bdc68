/** Decimal numbers in text. */
module Digits {
  import opened Bytes

  predicate IsDigit(c: char) {
    '0' <= c <= '9'
  }

  predicate AllDigits(s: string) {
    forall i :: 0 <= i < |s| ==> IsDigit(s[i])
  }

  predicate IsNumber(s: string) {
    s != [] && AllDigits(s)
  }

  function DigitOf(n: nat): (c: char)
    requires n < 10
    ensures IsDigit(c) && c as int - '0' as int == n
  {
    '0' + n as char
  }

  function Number(s: string): nat
    requires AllDigits(s)
  {
    if s == [] then 0 else 10 * Number(s[..|s| - 1]) + (s[|s| - 1] as int - '0' as int)
  }

  function Pow10(n: nat): (p: nat)
    ensures p > 0
  {
    if n == 0 then 1 else 10 * Pow10(n - 1)
  }

  /** The number in `width` digits, or its last ones. */
  function Padded(n: nat, width: nat): (s: string)
    ensures |s| == width && AllDigits(s)
  {
    if width == 0 then [] else Padded(n / 10, width - 1) + [DigitOf(n % 10)]
  }

  lemma {:induction false} NumberPadded(n: nat, width: nat)
    requires n < Pow10(width)
    ensures Number(Padded(n, width)) == n
  {
    if width > 0 {
      NumberPadded(n / 10, width - 1);
      assert Padded(n, width)[..width - 1] == Padded(n / 10, width - 1);
    }
  }

  lemma {:induction false} PaddedNumber(s: string)
    requires AllDigits(s)
    ensures Padded(Number(s), |s|) == s
  {
    if s != [] {
      PaddedNumber(s[..|s| - 1]);
      assert Number(s) / 10 == Number(s[..|s| - 1]);
    }
  }

  /** How many digits a number takes. */
  function Width(n: nat): (w: nat)
    ensures w > 0 && n < Pow10(w)
  {
    if n < 10 then 1 else Width(n / 10) + 1
  }

  function Decimal(n: nat): (s: string)
    ensures IsNumber(s)
  {
    Padded(n, Width(n))
  }

  /** A number is read back from its digits, and different numbers have different digits. */
  lemma DecimalIsInjective(m: nat, n: nat)
    ensures Number(Decimal(m)) == m
    ensures Decimal(m) == Decimal(n) <==> m == n
  {
    NumberPadded(m, Width(m));
    NumberPadded(n, Width(n));
  }

  /** The number in digits of exactly `width`. */
  function PartitionNumber(s: string, width: nat): Option<nat> {
    if |s| == width && IsNumber(s) then Some(Number(s)) else None
  }

  lemma PartitionNumberPadded(n: nat, width: nat)
    requires n < Pow10(width) && width > 0
    ensures PartitionNumber(Padded(n, width), width) == Some(n)
  {
    NumberPadded(n, width);
  }

  lemma PartitionNumberIsInjective(s: string, t: string, width: nat)
    requires PartitionNumber(s, width).Some? && PartitionNumber(s, width) == PartitionNumber(t, width)
    ensures s == t
  {
    PaddedNumber(s);
    PaddedNumber(t);
  }

  lemma Pow10Values()
    ensures Pow10(2) == 100 && Pow10(4) == 10_000
  {
    assert Pow10(2) == 100;
  }
}
