/** Crypto-PAn: prefix-preserving anonymization of addresses. */
module CryptoPans {

  const BITS: nat := 128

  /** A 128-bit word, most significant bit first. */
  type Word = w: seq<bool> | |w| == BITS witness seq(BITS, _ => false)

  type Bits = seq<bool>

  function Zeros(n: nat): (z: Bits)
    ensures |z| == n && forall i :: 0 <= i < n ==> !z[i]
  {
    seq(n, _ => false)
  }

  const ZERO: Word := Zeros(BITS)
  const MAX: Word := Not(ZERO)

  function Not(a: Word): (r: Word)
    ensures forall i :: 0 <= i < BITS ==> r[i] == !a[i]
  {
    seq(BITS, i requires 0 <= i < BITS => !a[i])
  }

  function And(a: Word, b: Word): (r: Word)
    ensures forall i :: 0 <= i < BITS ==> r[i] == (a[i] && b[i])
  {
    seq(BITS, i requires 0 <= i < BITS => a[i] && b[i])
  }

  function Or(a: Word, b: Word): (r: Word)
    ensures forall i :: 0 <= i < BITS ==> r[i] == (a[i] || b[i])
  {
    seq(BITS, i requires 0 <= i < BITS => a[i] || b[i])
  }

  function Xor(a: Word, b: Word): (r: Word)
    ensures forall i :: 0 <= i < BITS ==> r[i] == (a[i] != b[i])
  {
    seq(BITS, i requires 0 <= i < BITS => a[i] != b[i])
  }

  function ShiftLeft(a: Word, n: nat): Word
    requires n <= BITS
  {
    a[n..] + Zeros(n)
  }

  /** The word of one bit. */
  function OneBit(bit: bool): Word {
    Zeros(BITS - 1) + [bit]
  }

  // What the loop computes

  /** The first bit of the encrypted block of a prefix and padding. */
  function Flip(cipher: Word -> Word, pad: Word, prefix: Bits): bool
    requires |prefix| <= BITS
  {
    cipher(prefix + pad[|prefix|..])[0]
  }

  /** Each of the first bits, flipped or not as the bits before it say. */
  function Anonymized(cipher: Word -> Word, pad: Word, addr: Bits): (r: Bits)
    requires |addr| <= BITS
    ensures |r| == |addr|
  {
    seq(|addr|, i requires 0 <= i < |addr| => addr[i] != Flip(cipher, pad, addr[..i]))
  }

  lemma Masked(addr: Word, pad: Word, i: nat)
    requires i < BITS
    ensures var mask := if i == 0 then ZERO else ShiftLeft(MAX, BITS - i);
            Or(And(addr, mask), And(pad, Not(mask))) == addr[..i] + pad[i..]
  {
    var mask := if i == 0 then ZERO else ShiftLeft(MAX, BITS - i);
    assert forall j :: 0 <= j < BITS ==> mask[j] == (j < i);
  }

  /** The word has at most one bit set, the i-th. */
  ghost predicate OnlyBit(w: Word, i: nat, bit: bool) {
    forall j :: 0 <= j < BITS ==> w[j] == (j == i && bit)
  }

  lemma Shifted(bit: bool, i: nat)
    requires i < BITS
    ensures OnlyBit(ShiftLeft(OneBit(bit), BITS - 1 - i), i, bit)
  {
    var one, n := OneBit(bit), BITS - 1 - i;
    assert forall j :: 0 <= j < BITS - n ==> ShiftLeft(one, n)[j] == one[n + j];
  }

  lemma FlipsPrefix(cipher: Word -> Word, pad: Word, addr: Word, i: nat)
    requires i < BITS
    ensures cipher(addr[..i] + pad[i..])[0] == Flip(cipher, pad, addr[..i])
  {
  }

  /** The first bits anonymized, the others kept. */
  method AnonymizeBits(cipher: Word -> Word, pad: Word, addr: Word, bits: nat) returns (out: Word)
    requires bits <= BITS
    ensures out == Anonymized(cipher, pad, addr[..bits]) + addr[bits..]
  {
    hide ShiftLeft, OneBit, Or, And, Not, Flip;
    var flips := ZERO;
    for i := 0 to bits
      invariant forall j :: 0 <= j < BITS ==> flips[j] == (j < i && Flip(cipher, pad, addr[..j]))
    {
      var prefixMask := if i == 0 then ZERO else ShiftLeft(MAX, BITS - i);
      var input := Or(And(addr, prefixMask), And(pad, Not(prefixMask)));
      Masked(addr, pad, i);
      var block := cipher(input);
      var flip := OneBit(block[0]);
      FlipsPrefix(cipher, pad, addr, i);
      Shifted(block[0], i);
      flips := Or(flips, ShiftLeft(flip, BITS - 1 - i));
    }
    out := Xor(addr, flips);
    assert forall j :: 0 <= j < bits ==> addr[..bits][..j] == addr[..j];
  }

  method AnonymizeV6(cipher: Word -> Word, pad: Word, addr: Word) returns (out: Word)
    ensures out == Anonymized(cipher, pad, addr)
  {
    assert addr[..BITS] == addr;
    out := AnonymizeBits(cipher, pad, addr, BITS);
  }

  /** An IPv4 address leads the block, and zeros follow it. */
  function Widened(addr: Bits): Word
    requires |addr| == 32
  {
    addr + Zeros(96)
  }

  /** Narrowing the result to 32 bits loses nothing. */
  method AnonymizeV4(cipher: Word -> Word, pad: Word, addr: Bits) returns (out: Bits)
    requires |addr| == 32
    ensures |out| == 32 && out == Anonymized(cipher, pad, addr)
    ensures Widened(out) == Anonymized(cipher, pad, addr) + Widened(addr)[32..]
  {
    assert Widened(addr)[..32] == addr;
    var wide := AnonymizeBits(cipher, pad, Widened(addr), 32);
    out := wide[..32];
  }

  /** A bit is flipped if and only if the block of the bits before it, completed with the padding, encrypts to one whose
      first bit is set. */
  lemma BitFlipped(cipher: Word -> Word, pad: Word, addr: Bits, i: nat, block: Word)
    requires i < |addr| <= BITS
    requires forall j :: 0 <= j < BITS ==> block[j] == if j < i then addr[j] else pad[j]
    ensures Anonymized(cipher, pad, addr)[i] == if cipher(block)[0] then !addr[i] else addr[i]
  {
    assert block == addr[..i] + pad[i..];
  }

  // Prefixes

  /** How many first bits two addresses share. */
  function Shared(a: Bits, b: Bits): (n: nat)
    requires |a| == |b|
    ensures n <= |a| && a[..n] == b[..n] && (n < |a| ==> a[n] != b[n])
  {
    if a == [] || a[0] != b[0] then 0
    else
      var n := Shared(a[1..], b[1..]);
      assert a[1..][..n] == a[1..n + 1] && b[1..][..n] == b[1..n + 1];
      assert a[..n + 1] == [a[0]] + a[1..n + 1] && b[..n + 1] == [b[0]] + b[1..n + 1];
      n + 1
  }

  lemma SharedIs(a: Bits, b: Bits, n: nat)
    requires |a| == |b| && n <= |a| && a[..n] == b[..n] && (n < |a| ==> a[n] != b[n])
    ensures Shared(a, b) == n
  {
    var m := Shared(a, b);
    assert forall i :: 0 <= i < n ==> a[i] == a[..n][i] == b[..n][i] == b[i];
    assert forall i :: 0 <= i < m ==> a[i] == a[..m][i] == b[..m][i] == b[i];
  }

  /** Two addresses share just as many first bits as their anonymized forms, whatever the cipher and the key. */
  lemma PrefixPreserved(cipher: Word -> Word, pad: Word, a: Bits, b: Bits)
    requires |a| == |b| <= BITS
    ensures Shared(Anonymized(cipher, pad, a), Anonymized(cipher, pad, b)) == Shared(a, b)
  {
    var n, x, y := Shared(a, b), Anonymized(cipher, pad, a), Anonymized(cipher, pad, b);
    forall i | 0 <= i < n
      ensures x[i] == y[i]
    {
      assert a[..n][i] == b[..n][i];
      assert a[..i] == a[..n][..i] == b[..n][..i] == b[..i];
    }
    assert x[..n] == y[..n];
    SharedIs(x, y, n);
  }

  /** So different addresses stay different. */
  lemma Injective(cipher: Word -> Word, pad: Word, a: Bits, b: Bits)
    requires |a| == |b| <= BITS
    ensures Anonymized(cipher, pad, a) == Anonymized(cipher, pad, b) <==> a == b
  {
    PrefixPreserved(cipher, pad, a, b);
    assert a[..|a|] == a && b[..|b|] == b;
    if Anonymized(cipher, pad, a) == Anonymized(cipher, pad, b) {
      SharedIs(Anonymized(cipher, pad, a), Anonymized(cipher, pad, b), |a|);
    }
  }

  /** And every address is the anonymized form of one. */
  function Original(cipher: Word -> Word, pad: Word, out: Bits): (addr: Bits)
    requires |out| <= BITS
    ensures |addr| == |out| && Anonymized(cipher, pad, addr) == out
  {
    if out == [] then []
    else
      var n := |out| - 1;
      var before := Original(cipher, pad, out[..n]);
      var addr := before + [out[n] != Flip(cipher, pad, before)];
      assert forall i :: 0 <= i <= n ==> addr[..i] == before[..i];
      assert before[..n] == before;
      assert forall i :: 0 <= i < n ==> Anonymized(cipher, pad, before)[i] == out[..n][i];
      addr
  }
}
