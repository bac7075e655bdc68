/** Octets, big-endian integers and the result of a `nom` parser. */
module Bytes {

  type byte = x: int | 0 <= x < 0x100
  type bytes = seq<byte>
  type u8 = byte
  type u16 = x: int | 0 <= x < 0x1_0000
  type u32 = x: int | 0 <= x < 0x1_0000_0000
  type u64 = x: int | 0 <= x < 0x1_0000_0000_0000_0000
  type i8 = x: int | -0x80 <= x < 0x80
  type i16 = x: int | -0x8000 <= x < 0x8000
  type i32 = x: int | -0x8000_0000 <= x < 0x8000_0000
  type i64 = x: int | -0x8000_0000_0000_0000 <= x < 0x8000_0000_0000_0000

  datatype Option<+T> = None | Some(value: T)

  /** The rest of the input and a value, or a recoverable error. */
  datatype Parse<+T> = Ok(rest: bytes, value: T) | Err
  {
    predicate IsFailure() {
      Err?
    }

    function PropagateFailure<U>(): Parse<U>
      requires Err?
    {
      Err
    }

    function Extract(): (bytes, T)
      requires Ok?
    {
      (rest, value)
    }
  }

  function Min(a: int, b: int): int {
    if a < b then a else b
  }

  /** 256 to the power `n`. */
  function Pow256(n: nat): (p: nat)
    ensures p >= 1
  {
    if n == 0 then 1 else 256 * Pow256(n - 1)
  }

  lemma Pow256Values()
    ensures Pow256(1) == 0x100 && Pow256(2) == 0x1_0000 && Pow256(3) == 0x100_0000
    ensures Pow256(4) == 0x1_0000_0000 && Pow256(5) == 0x100_0000_0000
    ensures Pow256(6) == 0x1_0000_0000_0000 && Pow256(7) == 0x100_0000_0000_0000
    ensures Pow256(8) == 0x1_0000_0000_0000_0000
  {
    assert Pow256(2) == 0x1_0000;
    assert Pow256(4) == 0x1_0000_0000;
    assert Pow256(6) == 0x1_0000_0000_0000;
  }

  /** The `n` low-order octets of `v`, most significant first. */
  function ToBE(v: nat, n: nat): (b: bytes)
    ensures |b| == n
  {
    if n == 0 then [] else ToBE(v / 256, n - 1) + [v % 256]
  }

  function FromBE(b: bytes): (v: nat)
    ensures v < Pow256(|b|)
  {
    if b == [] then 0 else 256 * FromBE(b[..|b| - 1]) + b[|b| - 1]
  }

  lemma {:induction false} FromToBE(v: nat, n: nat)
    requires v < Pow256(n)
    ensures FromBE(ToBE(v, n)) == v
  {
    if n > 0 {
      FromToBE(v / 256, n - 1);
      assert ToBE(v, n)[..n - 1] == ToBE(v / 256, n - 1);
    }
  }

  lemma {:induction false} ToFromBE(b: bytes)
    ensures ToBE(FromBE(b), |b|) == b
  {
    if b != [] {
      ToFromBE(b[..|b| - 1]);
      assert FromBE(b) / 256 == FromBE(b[..|b| - 1]) && FromBE(b) % 256 == b[|b| - 1];
    }
  }

  /** `n` octets in two's complement. */
  function Signed(v: nat, n: nat): int {
    if 2 * v >= Pow256(n) then v - Pow256(n) else v
  }

  /** The two's complement of `v` in `n` octets, as an unsigned number. */
  function Unsigned(v: int, n: nat): nat {
    v % Pow256(n)
  }

  /** `v` fits `n` octets of two's complement. */
  predicate FitsSigned(v: int, n: nat) {
    0 <= 2 * v + Pow256(n) && 2 * v < Pow256(n)
  }

  lemma SignedUnsigned(v: int, n: nat)
    requires n > 0 && FitsSigned(v, n)
    ensures Unsigned(v, n) < Pow256(n) && Signed(Unsigned(v, n), n) == v
  {
    var p := Pow256(n);
    if v < 0 {
      assert v % p == (v + p) % p by { ModAdd(v, p); }
      ModSmall(v + p, p);
    } else {
      ModSmall(v, p);
    }
  }

  lemma ModSmall(a: nat, p: nat)
    requires a < p
    ensures a % p == a
  {
  }

  lemma ModAdd(a: int, p: nat)
    requires p > 0
    ensures (a + p) % p == a % p
  {
    assert a + p == p * (a / p + 1) + a % p;
    ModUnique(a + p, p, a / p + 1, a % p);
  }

  lemma ModUnique(a: int, p: nat, q: int, r: int)
    requires p > 0 && 0 <= r < p && a == p * q + r
    ensures a % p == r && a / p == q
  {
    var d, m := a / p - q, a % p;
    assert p * (a / p) == p * q + p * d;
    assert p * d == r - m;
    if d >= 1 {
      MulAtLeast(p, d);
    } else if d <= -1 {
      MulAtLeast(p, -d);
    }
  }

  lemma CeilingStep(n: int, d: nat)
    requires d > 0
    ensures (n + d) / d == (n + d - 1) / d + if n % d == 0 then 1 else 0
  {
    var q, r := n / d, n % d;
    assert d * (q + 1) == d * q + d;
    ModUnique(n + d, d, q + 1, r);
    if r == 0 {
      ModUnique(n + d - 1, d, q, d - 1);
    } else {
      ModUnique(n + d - 1, d, q + 1, r - 1);
    }
  }

  lemma Monotone(a: int, b: int, p: nat)
    requires a <= b
    ensures a * p <= b * p
  {
  }

  lemma {:induction false} Pow256Times(a: nat, b: nat)
    ensures Pow256(a) * Pow256(b) == Pow256(a + b)
  {
    if a > 0 {
      Pow256Times(a - 1, b);
      assert 256 * Pow256(a - 1) * Pow256(b) == 256 * (Pow256(a - 1) * Pow256(b));
    }
  }

  lemma MulAtLeast(p: nat, k: int)
    requires k >= 1
    ensures p * k >= p && p * (-k) + p <= 0
  {
  }

  /** Zero octets. */
  function Zeros(n: nat): (b: bytes)
    ensures |b| == n && forall i :: 0 <= i < n ==> b[i] == 0
  {
    seq(n, _ => 0)
  }

  // Parsers

  function Take(n: nat, input: bytes): (r: Parse<bytes>) {
    if |input| < n then Err else Ok(input[n..], input[..n])
  }

  /** `be_u8`, `be_u16`, `be_u32` and `be_u64`: an unsigned integer of `n` octets. */
  function BeUint(n: nat, input: bytes): (r: Parse<nat>)
    ensures r.Ok? ==> r.value < Pow256(n) && |input| >= n && r.rest == input[n..]
  {
    if |input| < n then Err else Ok(input[n..], FromBE(input[..n]))
  }

  function BeU8(input: bytes): (r: Parse<u8>) {
    if |input| < 1 then Err else Ok(input[1..], input[0])
  }

  function BeU16(input: bytes): (r: Parse<u16>)
    ensures r.Ok? <==> |input| >= 2
    ensures r.Ok? ==> r.rest == input[2..]
  {
    Pow256Values();
    var (rest, v) :- BeUint(2, input);
    Ok(rest, v)
  }

  function BeU32(input: bytes): (r: Parse<u32>)
    ensures r.Ok? <==> |input| >= 4
    ensures r.Ok? ==> r.rest == input[4..]
  {
    Pow256Values();
    var (rest, v) :- BeUint(4, input);
    Ok(rest, v)
  }

  lemma TakeConcat(a: bytes, rest: bytes)
    ensures (a + rest)[..|a|] == a && (a + rest)[|a|..] == rest
    ensures Take(|a|, a + rest) == Ok(rest, a)
  {
  }

  lemma U8Concat(v: u8, rest: bytes)
    ensures BeU8([v] + rest) == Ok(rest, v)
  {
    assert ([v] + rest)[1..] == rest;
  }

  lemma U16Concat(v: u16, rest: bytes)
    ensures BeU16(ToBE(v, 2) + rest) == Ok(rest, v)
  {
    Pow256Values();
    FromToBE(v, 2);
    TakeConcat(ToBE(v, 2), rest);
  }

  lemma U32Concat(v: u32, rest: bytes)
    ensures BeU32(ToBE(v, 4) + rest) == Ok(rest, v)
  {
    Pow256Values();
    FromToBE(v, 4);
    TakeConcat(ToBE(v, 4), rest);
  }
}
