/** The encoder as it runs: octets appended to a buffer. */
module Encoder {
  import opened Bytes
  import opened Ipfix
  import opened Encoding
  import Timestamps
  import Utf8

  // `to_be_bytes`, cut to the low-order octets or extended

  lemma {:induction false} LowOctets(v: nat, n: nat, k: nat)
    requires k <= n
    ensures ToBE(v, n)[n - k..] == ToBE(v, k)
  {
    if k > 0 {
      LowOctets(v / 256, n - 1, k - 1);
      assert ToBE(v, n)[n - k..] == ToBE(v / 256, n - 1)[n - 1 - (k - 1)..] + [v % 256];
    }
  }

  lemma {:induction false} ZeroExtended(v: nat, n: nat, k: nat)
    requires v < Pow256(n)
    ensures ToBE(v, n + k) == Zeros(k) + ToBE(v, n)
  {
    if n == 0 {
      AllZero(k);
      assert Zeros(k) + [] == Zeros(k);
    } else {
      ZeroExtended(v / 256, n - 1, k);
      assert ToBE(v, n + k) == ToBE(v / 256, n - 1 + k) + [v % 256];
      assert Zeros(k) + (ToBE(v / 256, n - 1) + [v % 256]) == Zeros(k) + ToBE(v / 256, n - 1) + [v % 256];
    }
  }

  lemma {:induction false} AllZero(k: nat)
    ensures ToBE(0, k) == Zeros(k)
  {
    if k > 0 {
      AllZero(k - 1);
      assert Zeros(k - 1) + [0] == Zeros(k);
    }
  }

  /** `n` octets of 0xff. */
  function Ones(n: nat): (b: bytes)
    ensures |b| == n && forall i :: 0 <= i < n ==> b[i] == 0xFF
  {
    seq(n, _ => 0xFF)
  }

  lemma {:induction false} OnesExtended(v: nat, n: nat, k: nat)
    requires v < Pow256(n)
    ensures ToBE(v + Pow256(n) * (Pow256(k) - 1), n + k) == Ones(k) + ToBE(v, n)
    decreases n, k
  {
    if n == 0 {
      AllOnes(k);
      assert Ones(k) + [] == Ones(k);
    } else {
      var high := Pow256(n - 1) * (Pow256(k) - 1);
      assert Pow256(n) * (Pow256(k) - 1) == 256 * high by {
        MulAssociates(256, Pow256(n - 1), Pow256(k) - 1);
      }
      OnesExtended(v / 256, n - 1, k);
      assert (v + 256 * high) / 256 == v / 256 + high && (v + 256 * high) % 256 == v % 256;
      assert Ones(k) + (ToBE(v / 256, n - 1) + [v % 256]) == Ones(k) + ToBE(v / 256, n - 1) + [v % 256];
    }
  }

  lemma MulAssociates(a: nat, b: nat, c: nat)
    ensures a * b * c == a * (b * c)
  {
  }

  lemma {:induction false} AllOnes(k: nat)
    ensures ToBE(Pow256(k) - 1, k) == Ones(k)
  {
    if k > 0 {
      AllOnes(k - 1);
      assert (Pow256(k) - 1) / 256 == Pow256(k - 1) - 1 && (Pow256(k) - 1) % 256 == 255;
      assert Ones(k - 1) + [255] == Ones(k);
    }
  }

  lemma DigitOf(v: nat, m: int, r: nat)
    requires v == 256 * m + r
    ensures v / 256 == m + r / 256 && v % 256 == r % 256
  {
  }

  lemma Quotient(v: nat, p: nat) returns (q: nat, r: nat)
    requires p > 0
    ensures v == p * q + r && r < p && r == v % p
  {
    q, r := v / p, v % p;
  }

  lemma DigitOfModulo(v: nat, p: nat)
    requires p > 0
    ensures v / 256 % p == v % (256 * p) / 256 && v % 256 == v % (256 * p) % 256
  {
    var q, r := Quotient(v, 256 * p);
    MulAssociates(256, p, q);
    DigitOf(v, p * q, r);
    ModUnique(v / 256, p, q, r / 256);
  }

  /** The low-order octets of the wider two's complement are the narrower one. */
  lemma {:induction false} LowOctetsModulo(v: nat, n: nat)
    ensures ToBE(v, n) == ToBE(v % Pow256(n), n)
  {
    if n > 0 {
      DigitOfModulo(v, Pow256(n - 1));
      LowOctetsModulo(v / 256, n - 1);
    }
  }

  lemma SignedOctets(v: i64, n: nat)
    ensures n <= 8 ==> ToBE(Unsigned(v, 8), 8)[8 - n..] == ToBE(Unsigned(v, n), n)
    ensures n > 8 ==> (if v < 0 then Ones(n - 8) else Zeros(n - 8)) + ToBE(Unsigned(v, 8), 8) == ToBE(Unsigned(v, n), n)
  {
    Pow256Values();
    if n <= 8 {
      LowOctets(Unsigned(v, 8), 8, n);
      LowOctetsModulo(Unsigned(v, 8), n);
      Pow256Times(n, 8 - n);
      ModOfMod(v, Pow256(n), Pow256(8 - n));
    } else {
      Pow256Times(8, n - 8);
      var p, k := Pow256(8), Pow256(n - 8);
      if v < 0 {
        ModUnique(v, p, -1, v + p);
        assert p * k >= p by { MulAtLeast(p, k); }
        ModUnique(v, p * k, -1, v + p * k);
        assert v + p * k == (v + p) + p * (k - 1) by { Distribute(p, k); }
        OnesExtended(v + p, 8, n - 8);
      } else {
        ModSmall(v, p);
        assert p * k >= p by { MulAtLeast(p, k); }
        ModSmall(v, p * k);
        ZeroExtended(v, 8, n - 8);
      }
    }
  }

  lemma Distribute(p: nat, k: nat)
    ensures p * (k - 1) == p * k - p
  {
  }

  lemma ModOfMod(v: int, p: nat, k: nat)
    requires p > 0 && k > 0 && p * k > 0
    ensures v % (p * k) % p == v % p
  {
    var q, r := v / (p * k), v % (p * k);
    assert v == p * k * q + r;
    assert p * k * q == p * (k * q);
    ModUnique(v, p, k * q + r / p, r % p);
  }

  class Buffer {
    var octets: bytes

    constructor ()
      ensures octets == []
    {
      octets := [];
    }

    method PutSlice(b: bytes)
      modifies this
      ensures octets == old(octets) + b
    {
      octets := octets + b;
    }

    method PutUint(value: u64, length: nat)
      modifies this
      ensures octets == old(octets) + ToBE(value, length)
    {
      Pow256Values();
      var be := ToBE(value, 8);
      if length <= 8 {
        LowOctets(value, 8, length);
        PutSlice(be[8 - length..]);
      } else {
        ZeroExtended(value, 8, length - 8);
        PutSlice(Zeros(length - 8));
        PutSlice(be);
      }
    }

    method PutInt(value: i64, length: nat)
      modifies this
      ensures octets == old(octets) + ToBE(Unsigned(value, length), length)
    {
      SignedOctets(value, length);
      var be := ToBE(Unsigned(value, 8), 8);
      if length <= 8 {
        PutSlice(be[8 - length..]);
      } else {
        PutSlice(if value < 0 then Ones(length - 8) else Zeros(length - 8));
        PutSlice(be);
      }
    }

    method PutCut(b: bytes, length: nat)
      modifies this
      ensures octets == old(octets) + PutFixed(b, length)
    {
      var cut := b[..Min(|b|, length)];
      PutSlice(cut);
      PutSlice(Zeros(length - |cut|));
    }

    method PutSpecifier(f: FieldSpecifier)
      modifies this
      ensures octets == old(octets) + EncodeSpecifier(f)
    {
      PutSlice(ToBE(if f.enterpriseBit && f.id < 0x8000 then f.id + 0x8000 else f.id, 2));
      PutSlice(ToBE(f.length, 2));
      if f.enterpriseNumber.Some? {
        PutSlice(ToBE(f.enterpriseNumber.value, 4));
      }
    }

    method PutSpecifiers(fields: seq<FieldSpecifier>)
      modifies this
      ensures octets == old(octets) + EncodeSpecifiers(fields)
    {
      hide EncodeSpecifier;
      for i := 0 to |fields|
        invariant octets + EncodeSpecifiers(fields[i..]) == old(octets) + EncodeSpecifiers(fields)
      {
        assert fields[i..][0] == fields[i] && fields[i..][1..] == fields[i + 1..];
        PutSpecifier(fields[i]);
      }
    }

    // Values

    method PutValue(v: FieldValue)
      modifies this
      ensures octets == old(octets) + EncodeValue(v)
      decreases v, 0
    {
      hide EncodeSpecifier, EncodeElements, EncodeDataRecords, EncodeItems;
      match v
      case BasicList(semantic, field, content) =>
        PutSlice([SemanticCode(semantic)]);
        PutSpecifier(field);
        PutElements(content, field.length);
      case SubTemplateList(semantic, id, data) =>
        PutSlice([SemanticCode(semantic)]);
        PutSlice(ToBE(id, 2));
        PutDataRecords(data);
      case SubTemplateMultiList(semantic, items) =>
        PutSlice([SemanticCode(semantic)]);
        PutItems(items);
      case _ =>
        PutSlice(EncodeValue(v));
    }

    method PutFieldValue(v: FieldValue, length: u16)
      modifies this
      ensures octets == old(octets) + EncodeFieldValue(v, length)
      decreases v, 2
    {
      hide ToBE, Unsigned, Utf8.FloorBoundary;
      if length == VARIABLE_LENGTH {
        var value := new Buffer();
        value.PutValue(v);
        var n := |value.octets|;
        if n < 255 {
          PutSlice([n]);
        } else {
          PutSlice([255]);
          PutSlice(ToBE(n, 2));
        }
        PutSlice(value.octets);
      } else if length == 0 {
        PutValue(v);
      } else {
        PutAtWidth(v, length);
      }
    }

    /** Writes a value as wide as asked. */
    method PutAtWidth(v: FieldValue, length: u16)
      requires length > 0
      modifies this
      ensures octets == old(octets) + EncodeFixed(v, length)
      decreases v, 1
    {
      hide ToBE, Unsigned, Utf8.FloorBoundary;
      match v {
        case Unsigned8(x) => PutUint(x, length);
        case Unsigned16(x) => PutUint(x, length);
        case Unsigned32(x) => PutUint(x, length);
        case Unsigned64(x) => PutUint(x, length);
        case Signed8(x) => PutInt(x, length);
        case Signed16(x) => PutInt(x, length);
        case Signed32(x) => PutInt(x, length);
        case Signed64(x) => PutInt(x, length);
        case OctetArray(b) => PutCut(b, length);
        case String(b) => PutCut(b[..Utf8.FloorBoundary(b, length)], length);
        case Null => PutSlice(Zeros(length));
        case _ => PutValue(v);
      }
    }

    method PutElements(vs: seq<FieldValue>, length: u16)
      modifies this
      ensures octets == old(octets) + EncodeElements(vs, length)
      decreases vs, 0
    {
      hide EncodeFieldValue;
      for i := 0 to |vs|
        invariant octets + EncodeElements(vs[i..], length) == old(octets) + EncodeElements(vs, length)
      {
        assert vs[i..][0] == vs[i] && vs[i..][1..] == vs[i + 1..];
        PutFieldValue(vs[i], length);
      }
    }

    method PutDataRecord(r: DataRecord)
      modifies this
      ensures octets == old(octets) + EncodeDataRecord(r)
      decreases r, 0
    {
      hide EncodeFieldValue;
      var n := Min(|r.fields|, |r.values|);
      for i := 0 to n
        invariant octets + EncodeFields(r.fields[i..], r.values[i..]) == old(octets) + EncodeFields(r.fields, r.values)
      {
        assert r.fields[i..][0] == r.fields[i] && r.fields[i..][1..] == r.fields[i + 1..];
        assert r.values[i..][0] == r.values[i] && r.values[i..][1..] == r.values[i + 1..];
        PutFieldValue(r.values[i], r.fields[i].spec.length);
      }
    }

    method PutDataRecords(rs: seq<DataRecord>)
      modifies this
      ensures octets == old(octets) + EncodeDataRecords(rs)
      decreases rs, 0
    {
      hide EncodeDataRecord;
      for i := 0 to |rs|
        invariant octets + EncodeDataRecords(rs[i..]) == old(octets) + EncodeDataRecords(rs)
      {
        assert rs[i..][0] == rs[i] && rs[i..][1..] == rs[i + 1..];
        PutDataRecord(rs[i]);
      }
    }

    method PutItems(items: seq<MultiItem>)
      modifies this
      ensures octets == old(octets) + EncodeItems(items)
      decreases items, 0
    {
      hide EncodeDataRecords;
      for i := 0 to |items|
        invariant octets + EncodeItems(items[i..]) == old(octets) + EncodeItems(items)
      {
        assert items[i..][0] == items[i] && items[i..][1..] == items[i + 1..];
        PutSlice(ToBE(items[i].templateId, 2));
        PutSlice(ToBE(items[i].length, 2));
        PutDataRecords(items[i].data);
      }
    }

    // Messages

    method PutRecord(r: Record)
      modifies this
      ensures octets == old(octets) + EncodeRecord(r)
    {
      hide EncodeSpecifiers, EncodeDataRecord;
      match r
      case Template(t) =>
        PutSlice(ToBE(t.templateId, 2));
        PutSlice(ToBE(t.fieldCount, 2));
        PutSpecifiers(t.fields);
      case OptionsTemplate(t) =>
        PutSlice(ToBE(t.templateId, 2));
        PutSlice(ToBE(t.fieldCount, 2));
        PutSlice(ToBE(t.scopeFieldCount, 2));
        PutSpecifiers(t.fields);
      case Data(d) => PutDataRecord(d);
      case OptionsData(d) => PutDataRecord(d);
    }

    /** A set's length is known only once its records are encoded. */
    method PutSet(s: Set)
      modifies this
      ensures octets == old(octets) + EncodeSet(s)
    {
      hide EncodeRecord;
      var body := new Buffer();
      for i := 0 to |s.records|
        invariant fresh(body) && octets == old(octets)
        invariant body.octets + EncodeRecords(s.records[i..]) == EncodeRecords(s.records)
      {
        assert s.records[i..][0] == s.records[i] && s.records[i..][1..] == s.records[i + 1..];
        body.PutRecord(s.records[i]);
      }
      PutSlice(ToBE(s.id, 2));
      PutSlice(ToBE(SET_HEADER_SIZE + |body.octets|, 2));
      PutSlice(body.octets);
    }

    method PutPacket(p: Packet)
      modifies this
      ensures octets == old(octets) + EncodePacket(p)
    {
      hide EncodeSet;
      var body := new Buffer();
      for i := 0 to |p.sets|
        invariant fresh(body) && octets == old(octets)
        invariant body.octets + EncodeSets(p.sets[i..]) == EncodeSets(p.sets)
      {
        assert p.sets[i..][0] == p.sets[i] && p.sets[i..][1..] == p.sets[i + 1..];
        body.PutSet(p.sets[i]);
      }
      PutSlice(ToBE(p.header.version, 2));
      PutSlice(ToBE(HEADER_SIZE + |body.octets|, 2));
      PutSlice(ToBE(Timestamps.Seconds(p.header.exportTime) % Pow256(4), 4));
      PutSlice(ToBE(p.header.sequenceNumber, 4));
      PutSlice(ToBE(p.header.domain, 4));
      PutSlice(body.octets);
    }
  }
}
