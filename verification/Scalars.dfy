/** Parsing one value that is not a list: each data type's parser on the input, and what the octets mean. */
module Scalars {
  import opened Bytes
  import opened Ipfix
  import Timestamps
  import Utf8

  // What octets mean

  function ParseString(data: bytes): (v: FieldValue)
    ensures v.String? || v.Null?
  {
    if Utf8.Valid(data) then String(Utf8.TrimNuls(data)) else Null
  }

  function ParseMillis(v: nat): (r: FieldValue)
    ensures r.DateTimeMilliseconds? || r.Null?
  {
    if v / 1000 <= Timestamps.MAX_SECONDS then DateTimeMilliseconds(v * Timestamps.MILLISECOND) else Null
  }

  function ParseNtp(data: bytes): Time
    requires |data| == 8
  {
    Pow256Values();
    Timestamps.NtpToTime(FromBE(data[..4]), FromBE(data[4..]))
  }

  /** A value that is not a list, from exactly the octets it spans. */
  function Scalar(dataType: DataType, data: bytes): (v: FieldValue)
    ensures !v.BasicList? && !v.SubTemplateList? && !v.SubTemplateMultiList?
  {
    Pow256Values();
    var n := |data|;
    match dataType
    case BooleanType =>
      if n != 1 then OctetArray(data)
      else if data[0] == 1 then Boolean(true)
      else if data[0] == 2 then Boolean(false)
      else Null
    case UnsignedType =>
      var v := FromBE(data);
      if n == 1 then Unsigned8(v)
      else if n == 2 then Unsigned16(v)
      else if n == 3 || n == 4 then Unsigned32(v)
      else if 5 <= n <= 8 then Unsigned64(v)
      else OctetArray(data)
    case SignedType =>
      var v := Signed(FromBE(data), n);
      if n == 1 then Signed8(v)
      else if n == 2 then Signed16(v)
      else if n == 3 || n == 4 then Signed32(v)
      else if 5 <= n <= 8 then Signed64(v)
      else OctetArray(data)
    case FloatType =>
      if n == 4 then Float32(FromBE(data)) else if n == 8 then Float64(FromBE(data)) else OctetArray(data)
    case MacAddressType => if n == 6 then MacAddress(data) else OctetArray(data)
    case Ipv4AddressType => if n == 4 then Ipv4Address(data) else OctetArray(data)
    case Ipv6AddressType => if n == 16 then Ipv6Address(data) else OctetArray(data)
    case StringType => ParseString(data)
    case DateTimeSecondsType =>
      if n == 4 then DateTimeSeconds(FromBE(data) * Timestamps.SECOND) else OctetArray(data)
    case DateTimeMillisecondsType => if n == 8 then ParseMillis(FromBE(data)) else OctetArray(data)
    case DateTimeMicrosecondsType => if n == 8 then DateTimeMicroseconds(ParseNtp(data)) else OctetArray(data)
    case DateTimeNanosecondsType => if n == 8 then DateTimeNanoseconds(ParseNtp(data)) else OctetArray(data)
    case _ => OctetArray(data)
  }

  // Machine words

  const TWO63: int := 0x8000_0000_0000_0000
  const TWO64: int := 0x1_0000_0000_0000_0000

  function AsI8(v: u8): i8 {
    if v < 0x80 then v else v - 0x100
  }

  function AsI16(v: u16): i16 {
    if v < 0x8000 then v else v - 0x1_0000
  }

  function AsI32(v: u32): i32 {
    if v < 0x8000_0000 then v else v - 0x1_0000_0000
  }

  function AsI64(v: u64): i64 {
    if v < TWO63 then v else v - TWO64
  }

  function Pow2(n: nat): (p: nat)
    ensures p > 0
  {
    if n == 0 then 1 else 2 * Pow2(n - 1)
  }

  function TimesWrapping(v: i64, p: nat): i64 {
    AsI64(v * p % TWO64)
  }

  function Over(v: i64, p: nat): i64
    requires p > 0
  {
    ShrInRange(v, p);
    v / p
  }

  /** The bits pushed out on the left are lost; a shift by the width or more wraps. */
  function WrappingShl(v: i64, shift: nat): i64 {
    TimesWrapping(v, Pow2(shift % 64))
  }

  /** The sign is shifted in on the left. */
  function WrappingShr(v: i64, shift: nat): i64 {
    Over(v, Pow2(shift % 64))
  }

  lemma ShrInRange(v: i64, p: nat)
    requires p > 0
    ensures -TWO63 <= v / p < TWO63
  {
    var q := v / p;
    assert p * q <= v < p * q + p;
    if q < 0 {
      TimesMore(p, -1 - q);
      assert p * q == -(p * (-1 - q)) - p;
    } else {
      TimesMore(p, q);
    }
  }

  lemma TimesMore(p: nat, k: nat)
    requires p > 0
    ensures p * k >= k
  {
  }

  // Integers octet by octet

  /** `acc << 8 | octet` in 64 bits. */
  function ShiftIn(acc: u64, octet: byte): u64 {
    acc * 256 % TWO64 + octet
  }

  function Fold(acc: u64, b: bytes): u64
    decreases |b|
  {
    if b == [] then acc else Fold(ShiftIn(acc, b[0]), b[1..])
  }

  lemma {:induction false} FrontOctet(b: bytes)
    requires b != []
    ensures FromBE(b) == b[0] * Pow256(|b| - 1) + FromBE(b[1..])
  {
    var n := |b| - 1;
    if n > 0 {
      FrontOctet(b[..n]);
      assert b[..n][1..] == b[1..][..n - 1];
      Distribute256(b[0], Pow256(n - 1), FromBE(b[1..][..n - 1]), b[n]);
    }
  }

  lemma Distribute256(h: nat, p: nat, t: nat, last: nat)
    ensures 256 * (h * p + t) + last == h * (256 * p) + (256 * t + last)
  {
  }

  /** Shifting eight octets or fewer into a word loses none of them. */
  lemma {:induction false} FoldIsBigEndian(acc: u64, b: bytes)
    requires acc * Pow256(|b|) + Pow256(|b|) <= TWO64
    ensures Fold(acc, b) == acc * Pow256(|b|) + FromBE(b)
    decreases |b|
  {
    if b != [] {
      var p := Pow256(|b| - 1);
      assert Pow256(|b|) == 256 * p;
      assert (acc * 256 + 256) * p == acc * (256 * p) + 256 * p;
      Smaller(acc * 256 + 256, p);
      assert ShiftIn(acc, b[0]) == acc * 256 + b[0];
      assert (acc * 256 + b[0]) * p + p == (acc * 256 + b[0] + 1) * p;
      Monotone(acc * 256 + b[0] + 1, acc * 256 + 256, p);
      FoldIsBigEndian(acc * 256 + b[0], b[1..]);
      FrontOctet(b);
      assert (acc * 256 + b[0]) * p == acc * (256 * p) + b[0] * p;
    }
  }

  lemma Smaller(a: nat, p: nat)
    requires p > 0
    ensures a <= a * p
  {
  }

  // Parsers on the input

  /** `be_u24` and `be_u64`, beside those of `Bytes`. */
  function BeU24(input: bytes): Parse<u32> {
    Pow256Values();
    var (rest, v) :- BeUint(3, input);
    Ok(rest, v)
  }

  function BeU64(input: bytes): Parse<u64> {
    Pow256Values();
    var (rest, v) :- BeUint(8, input);
    Ok(rest, v)
  }

  /** An unsigned integer of any length, octet by octet. */
  function BeUintOf(length: nat, input: bytes): Parse<u64> {
    var (rest, data) :- Take(length, input);
    Ok(rest, Fold(0, data))
  }

  /** The sign is extended by shifting it to the top and back. */
  function BeInt(length: nat, input: bytes): Parse<i64> {
    var (rest, v) :- BeUintOf(length, input);
    var shift := if 8 * length < 64 then 64 - 8 * length else 0;
    Ok(rest, WrappingShr(WrappingShl(AsI64(v), shift), shift))
  }

  function Vector(length: nat, input: bytes): Parse<FieldValue> {
    var (rest, data) :- Take(length, input);
    Ok(rest, OctetArray(data))
  }

  function BooleanOf(input: bytes): Parse<FieldValue> {
    var (rest, v) :- BeU8(input);
    Ok(rest, if v == 1 then Boolean(true) else if v == 2 then Boolean(false) else Null)
  }

  function UnsignedOf(length: nat, input: bytes): Parse<FieldValue> {
    match length
    case 1 => var (rest, v) :- BeU8(input); Ok(rest, Unsigned8(v))
    case 2 => var (rest, v) :- BeU16(input); Ok(rest, Unsigned16(v))
    case 4 => var (rest, v) :- BeU32(input); Ok(rest, Unsigned32(v))
    case 8 => var (rest, v) :- BeU64(input); Ok(rest, Unsigned64(v))
    case 3 => var (rest, v) :- BeU24(input); Ok(rest, Unsigned32(v))
    case _ =>
      if 5 <= length <= 7 then
        var (rest, v) :- BeUintOf(length, input);
        Ok(rest, Unsigned64(v))
      else Vector(length, input)
  }

  function SignedOf(length: nat, input: bytes): Parse<FieldValue> {
    match length
    case 1 => var (rest, v) :- BeU8(input); Ok(rest, Signed8(AsI8(v)))
    case 2 => var (rest, v) :- BeU16(input); Ok(rest, Signed16(AsI16(v)))
    case 4 => var (rest, v) :- BeU32(input); Ok(rest, Signed32(AsI32(v)))
    case 8 => var (rest, v) :- BeU64(input); Ok(rest, Signed64(AsI64(v)))
    case 3 => var (rest, v) :- BeU24(input); Ok(rest, Signed32(if v < 0x80_0000 then v else v - 0x100_0000))
    case _ =>
      if 5 <= length <= 7 then
        var (rest, v) :- BeInt(length, input);
        Ok(rest, Signed64(v))
      else Vector(length, input)
  }

  function FloatOf(length: nat, input: bytes): Parse<FieldValue> {
    match length
    case 4 => var (rest, v) :- BeU32(input); Ok(rest, Float32(v))
    case 8 => var (rest, v) :- BeU64(input); Ok(rest, Float64(v))
    case _ => Vector(length, input)
  }

  function AddressOf(dataType: DataType, length: nat, input: bytes): Parse<FieldValue> {
    if dataType.MacAddressType? && length == 6 then
      var (rest, data) :- Take(6, input);
      Ok(rest, MacAddress(data))
    else if dataType.Ipv4AddressType? && length == 4 then
      var (rest, v) :- BeU32(input);
      Ok(rest, Ipv4Address(ToBE(v, 4)))
    else if dataType.Ipv6AddressType? && length == 16 then
      var (rest, data) :- Take(16, input);
      Ok(rest, Ipv6Address(data))
    else Vector(length, input)
  }

  function NtpOf(input: bytes): Parse<Time> {
    var (rest, seconds) :- BeU32(input);
    var (rest, fraction) :- BeU32(rest);
    Ok(rest, Timestamps.NtpToTime(seconds, fraction))
  }

  function TimeOf(dataType: DataType, length: nat, input: bytes): Parse<FieldValue> {
    if dataType.DateTimeSecondsType? && length == 4 then
      var (rest, v) :- BeU32(input);
      Ok(rest, DateTimeSeconds(v * Timestamps.SECOND))
    else if dataType.DateTimeMillisecondsType? && length == 8 then
      var (rest, v) :- BeU64(input);
      Ok(rest, if v < TWO63 then ParseMillis(v) else Null)
    else if dataType.DateTimeMicrosecondsType? && length == 8 then
      var (rest, t) :- NtpOf(input);
      Ok(rest, DateTimeMicroseconds(t))
    else if dataType.DateTimeNanosecondsType? && length == 8 then
      var (rest, t) :- NtpOf(input);
      Ok(rest, DateTimeNanoseconds(t))
    else Vector(length, input)
  }

  /** A value that is not decoded as a list, by its type and length. */
  function ParseScalar(dataType: DataType, length: nat, input: bytes): Parse<FieldValue> {
    match dataType
    case BooleanType => if length == 1 then BooleanOf(input) else Vector(length, input)
    case UnsignedType => UnsignedOf(length, input)
    case SignedType => SignedOf(length, input)
    case FloatType => FloatOf(length, input)
    case MacAddressType => AddressOf(dataType, length, input)
    case Ipv4AddressType => AddressOf(dataType, length, input)
    case Ipv6AddressType => AddressOf(dataType, length, input)
    case StringType =>
      var (rest, data) :- Take(length, input);
      Ok(rest, ParseString(data))
    case DateTimeSecondsType => TimeOf(dataType, length, input)
    case DateTimeMillisecondsType => TimeOf(dataType, length, input)
    case DateTimeMicrosecondsType => TimeOf(dataType, length, input)
    case DateTimeNanosecondsType => TimeOf(dataType, length, input)
    case _ => Vector(length, input)
  }

  // Every parser takes its declared length, and what it makes of it is what the octets mean

  /** What a parser gives when it takes exactly `length` octets and they mean what they should. */
  function Taken(dataType: DataType, length: nat, input: bytes): Parse<FieldValue> {
    if |input| < length then Err else Ok(input[length..], Scalar(dataType, input[..length]))
  }

  lemma {:induction false} Pow2Octets(k: nat)
    ensures Pow2(8 * k) == Pow256(k)
  {
    if k > 0 {
      Pow2Octets(k - 1);
      var n := 8 * (k - 1);
      assert Pow2(n + 2) == 4 * Pow2(n);
      assert Pow2(n + 4) == 4 * Pow2(n + 2);
      assert Pow2(n + 6) == 4 * Pow2(n + 4);
      assert Pow2(n + 8) == 4 * Pow2(n + 6);
    }
  }

  /** Shifting to the top and back is the two's complement of the octets taken. */
  lemma ShiftsExtendSign(v: u64, n: nat)
    requires 1 <= n <= 8 && v < Pow256(n)
    ensures var shift := 64 - 8 * n; WrappingShr(WrappingShl(AsI64(v), shift), shift) == Signed(v, n)
  {
    hide WrappingShl, WrappingShr;
    var shift, p, q := 64 - 8 * n, Pow256(n), Pow256(8 - n);
    Pow256Times(n, 8 - n);
    Pow256Values();
    Pow2Octets(8 - n);
    assert shift == 8 * (8 - n) && Pow2(shift) == q;
    ShiftedUp(v, p, q);
    ShiftsAre(v, shift);
  }

  lemma ShiftsAre(v: u64, shift: nat)
    requires shift < 64
    ensures WrappingShr(WrappingShl(AsI64(v), shift), shift) == Over(TimesWrapping(AsI64(v), Pow2(shift)), Pow2(shift))
  {
    hide TimesWrapping, Over, Pow2, AsI64;
    assert shift % 64 == shift;
  }

  lemma ShiftedUp(v: u64, p: nat, q: nat)
    requires p * q == TWO64 && v < p && q > 0
    ensures Over(TimesWrapping(AsI64(v), q), q) == if 2 * v >= p then v - p else v
  {
    Wrapped(v, p, q);
    if 2 * v < p {
      Monotone(2 * v + 1, p, q);
      assert (2 * v + 1) * q == 2 * (v * q) + q;
      Quotient(v, q);
    } else {
      Monotone(p, 2 * v, q);
      assert 2 * v * q == 2 * (v * q);
      assert (v - p) * q == v * q - p * q;
      Quotient(v - p, q);
    }
  }

  lemma Wrapped(v: u64, p: nat, q: nat)
    requires p * q == TWO64 && v < p && q > 0
    ensures 0 <= v * q < TWO64 && TimesWrapping(AsI64(v), q) == AsI64(v * q)
  {
    var x := AsI64(v);
    Monotone(v + 1, p, q);
    assert (v + 1) * q == v * q + q;
    if x == v {
      ModUnique(v * q, TWO64, 0, v * q);
    } else {
      var times: int := q;
      assert (v - TWO64) * times == TWO64 * (-times) + v * times;
      ModUnique(x * q, TWO64, -times, v * q);
    }
  }

  lemma Quotient(v: int, q: nat)
    requires q > 0
    ensures v * q / q == v
  {
    ModUnique(v * q, q, v, 0);
  }

  lemma FoldTaken(data: bytes)
    requires |data| <= 8
    ensures Fold(0, data) == FromBE(data)
  {
    Pow256Times(|data|, 8 - |data|);
    Pow256Values();
    Smaller(Pow256(|data|), Pow256(8 - |data|));
    FoldIsBigEndian(0, data);
  }

  lemma OneOctet(input: bytes)
    ensures |input| >= 1 ==> FromBE(input[..1]) == input[0]
  {
  }

  lemma UnsignedTaken(length: nat, input: bytes)
    ensures UnsignedOf(length, input) == Taken(UnsignedType, length, input)
  {
    hide FromBE, Fold;
    Pow256Values();
    OneOctet(input);
    if 5 <= length <= 7 && length <= |input| {
      FoldTaken(input[..length]);
    }
  }

  lemma SignedTaken(length: nat, input: bytes)
    ensures SignedOf(length, input) == Taken(SignedType, length, input)
  {
    hide FromBE, Fold, WrappingShl, WrappingShr;
    Pow256Values();
    OneOctet(input);
    if 5 <= length <= 7 && length <= |input| {
      var data := input[..length];
      FoldTaken(data);
      Pow256Times(length, 8 - length);
      Smaller(Pow256(length), Pow256(8 - length));
      ShiftsExtendSign(FromBE(data), length);
    }
  }

  lemma NtpTaken(input: bytes)
    ensures NtpOf(input) == if |input| < 8 then Err else Ok(input[8..], ParseNtp(input[..8]))
  {
    hide FromBE;
    Pow256Values();
    if |input| >= 8 {
      assert input[..8][..4] == input[..4] && input[..8][4..] == input[4..][..4];
      assert input[4..][4..] == input[8..];
    }
  }

  lemma TimeTaken(dataType: DataType, length: nat, input: bytes)
    requires dataType.DateTimeSecondsType? || dataType.DateTimeMillisecondsType?
             || dataType.DateTimeMicrosecondsType? || dataType.DateTimeNanosecondsType?
    ensures TimeOf(dataType, length, input) == Taken(dataType, length, input)
  {
    hide FromBE, ParseNtp, NtpOf;
    Pow256Values();
    NtpTaken(input);
  }

  lemma AddressTaken(dataType: DataType, length: nat, input: bytes)
    requires dataType.MacAddressType? || dataType.Ipv4AddressType? || dataType.Ipv6AddressType?
    ensures AddressOf(dataType, length, input) == Taken(dataType, length, input)
  {
    hide FromBE, ToBE;
    if length == 4 && length <= |input| {
      ToFromBE(input[..4]);
    }
  }

  /** Whatever its type, a value takes exactly its declared length, and is what those octets mean. */
  lemma ScalarTaken(dataType: DataType, length: nat, input: bytes)
    ensures ParseScalar(dataType, length, input) == Taken(dataType, length, input)
  {
    hide UnsignedOf, SignedOf, TimeOf, AddressOf, FromBE;
    Pow256Values();
    match dataType
    case UnsignedType => UnsignedTaken(length, input);
    case SignedType => SignedTaken(length, input);
    case MacAddressType => AddressTaken(dataType, length, input);
    case Ipv4AddressType => AddressTaken(dataType, length, input);
    case Ipv6AddressType => AddressTaken(dataType, length, input);
    case DateTimeSecondsType => TimeTaken(dataType, length, input);
    case DateTimeMillisecondsType => TimeTaken(dataType, length, input);
    case DateTimeMicrosecondsType => TimeTaken(dataType, length, input);
    case DateTimeNanosecondsType => TimeTaken(dataType, length, input);
    case _ =>
  }
}
