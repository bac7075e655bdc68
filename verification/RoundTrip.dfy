/** Decoding an encoded value gives the value back. */
module RoundTrip {
  import opened Bytes
  import opened Ipfix
  import opened Scalars
  import opened Decoding
  import opened Encoding
  import Timestamps
  import Utf8

  // Which values a field of a given type and width can carry

  /** Widths at which the parser keeps a value of the type as plain octets. */
  predicate Undecoded(dataType: DataType, n: nat) {
    match dataType
    case UnsignedType => n == 0 || n > 8
    case SignedType => n == 0 || n > 8
    case FloatType => n != 4 && n != 8
    case BooleanType => n != 1
    case MacAddressType => n != 6
    case Ipv4AddressType => n != 4
    case Ipv6AddressType => n != 16
    case StringType => false
    case DateTimeSecondsType => n != 4
    case DateTimeMillisecondsType => n != 8
    case DateTimeMicrosecondsType => n != 8
    case DateTimeNanosecondsType => n != 8
    case _ => true
  }

  predicate IsScalar(v: FieldValue) {
    !v.BasicList? && !v.SubTemplateList? && !v.SubTemplateMultiList?
  }

  predicate NtpExact(t: Time) {
    0 <= Timestamps.Seconds(t) + Timestamps.NTP_UNIX_EPOCH_DIFF < Timestamps.TWO32
    && Timestamps.ExactInNtp(Timestamps.SubsecNanos(t))
  }

  /** A field of `n` octets can carry the value without loss. */
  predicate ScalarTyped(dataType: DataType, n: nat, v: FieldValue)
    requires IsScalar(v)
  {
    match v
    case Unsigned8(x) => dataType.UnsignedType? && n == 1
    case Unsigned16(x) => dataType.UnsignedType? && n == 2
    case Unsigned32(x) => dataType.UnsignedType? && (n == 3 || n == 4) && x < Pow256(n)
    case Unsigned64(x) => dataType.UnsignedType? && 5 <= n <= 8 && x < Pow256(n)
    case Signed8(x) => dataType.SignedType? && n == 1
    case Signed16(x) => dataType.SignedType? && n == 2
    case Signed32(x) => dataType.SignedType? && (n == 3 || n == 4) && FitsSigned(x, n)
    case Signed64(x) => dataType.SignedType? && 5 <= n <= 8 && FitsSigned(x, n)
    case Float32(bits) => dataType.FloatType? && n == 4
    case Float64(bits) => dataType.FloatType? && n == 8
    case Boolean(_) => dataType.BooleanType? && n == 1
    case Null => dataType.BooleanType? && n == 1
    case MacAddress(b) => dataType.MacAddressType? && n == 6 == |b|
    case Ipv4Address(b) => dataType.Ipv4AddressType? && n == 4 == |b|
    case Ipv6Address(b) => dataType.Ipv6AddressType? && n == 16 == |b|
    case OctetArray(b) => Undecoded(dataType, n) && |b| == n
    case String(b) => dataType.StringType? && |b| <= n && Utf8.Valid(b) && (b == [] || b[|b| - 1] != 0)
    case DateTimeSeconds(t) =>
      dataType.DateTimeSecondsType? && n == 4
      && t % Timestamps.SECOND == 0 && 0 <= Timestamps.Seconds(t) < Timestamps.TWO32
    case DateTimeMilliseconds(t) =>
      dataType.DateTimeMillisecondsType? && n == 8
      && t % Timestamps.MILLISECOND == 0 && 0 <= t && Timestamps.Seconds(t) <= Timestamps.MAX_SECONDS
    case DateTimeMicroseconds(t) => dataType.DateTimeMicrosecondsType? && n == 8 && NtpExact(t)
    case DateTimeNanoseconds(t) => dataType.DateTimeNanosecondsType? && n == 8 && NtpExact(t)
  }

  lemma SecondsRoundTrip(t: Time)
    ensures FromBE(ToBE(Timestamps.Seconds(t) % Pow256(4), 4)) * Timestamps.SECOND == t
            <==> t % Timestamps.SECOND == 0 && 0 <= Timestamps.Seconds(t) < Timestamps.TWO32
  {
    Pow256Values();
    FromToBE(Timestamps.Seconds(t) % Pow256(4), 4);
  }

  lemma MillisRoundTrip(t: Time)
    ensures ParseMillis(FromBE(ToBE(Timestamps.Millis(t) % Pow256(8), 8))) == DateTimeMilliseconds(t)
            <==> t % Timestamps.MILLISECOND == 0 && 0 <= t && Timestamps.Seconds(t) <= Timestamps.MAX_SECONDS
  {
    Pow256Values();
    FromToBE(Timestamps.Millis(t) % Pow256(8), 8);
  }

  lemma NtpRoundTrip(t: Time)
    ensures |EncodeNtp(t)| == 8
    ensures ParseNtp(EncodeNtp(t)) == t <==> NtpExact(t)
  {
    Pow256Values();
    var s, f := Timestamps.NtpSeconds(t), Timestamps.NtpFraction(Timestamps.SubsecNanos(t));
    TakeConcat(ToBE(s, 4), ToBE(f, 4));
    FromToBE(s, 4);
    FromToBE(f, 4);
    Timestamps.FractionRoundTrip(Timestamps.SubsecNanos(t));
  }

  lemma StringRoundTrip(b: bytes, n: nat)
    ensures ParseString(EncodeFixed(String(b), n)) == String(b)
            <==> |b| <= n && Utf8.Valid(b) && (b == [] || b[|b| - 1] != 0)
  {
    hide Utf8.CharLen;
    var data := EncodeFixed(String(b), n);
    if |b| <= n {
      assert b[..|b|] == b;
      assert data == b + Zeros(n - |b|);
      if b == [] || b[|b| - 1] != 0 {
        Utf8.TrimPadded(b, n - |b|);
        if Utf8.Valid(b) {
          Utf8.ValidPadded(b, n - |b|);
        } else if Utf8.Valid(data) {
          UnpaddedValid(b, n - |b|);
        }
      } else {
        TrimmedEnd(data);
      }
    } else {
      TrimmedEnd(data);
    }
  }

  lemma {:induction false} UnpaddedValid(b: bytes, k: nat)
    requires Utf8.Valid(b + Zeros(k))
    ensures Utf8.Valid(b)
  {
    var z := b + Zeros(k);
    if b != [] {
      var c := Utf8.CharLen(z);
      assert forall i: nat :: i < |b| ==> z[i] == b[i];
      assert forall i: nat :: |b| <= i < |z| ==> z[i] == 0;
      assert c <= |b| && Utf8.CharLen(b) == c;
      assert z[c..] == b[c..] + Zeros(k);
      UnpaddedValid(b[c..], k);
    }
  }

  lemma {:induction false} TrimmedEnd(b: bytes)
    ensures var t := Utf8.TrimNuls(b); |t| <= |b| && (t == [] || t[|t| - 1] != 0)
  {
    if b != [] && b[|b| - 1] == 0 {
      TrimmedEnd(b[..|b| - 1]);
    }
  }

  lemma UnsignedRoundTrip(x: nat, n: nat)
    ensures FromBE(ToBE(x, n)) == x <==> x < Pow256(n)
  {
    if x < Pow256(n) {
      FromToBE(x, n);
    }
  }

  lemma SignedRoundTrip(x: int, n: nat)
    requires n > 0
    ensures Signed(FromBE(ToBE(Unsigned(x, n), n)), n) == x <==> FitsSigned(x, n)
  {
    assert Unsigned(x, n) < Pow256(n);
    FromToBE(Unsigned(x, n), n);
    if FitsSigned(x, n) {
      SignedUnsigned(x, n);
    }
  }

  predicate Carried(dataType: DataType, n: nat, v: FieldValue) {
    |EncodeFixed(v, n)| == n && Scalar(dataType, EncodeFixed(v, n)) == v
  }

  lemma UnsignedCarried(dataType: DataType, n: nat, v: FieldValue)
    requires v.Unsigned8? || v.Unsigned16? || v.Unsigned32? || v.Unsigned64?
    ensures Carried(dataType, n, v) <==> ScalarTyped(dataType, n, v)
  {
    hide FromBE, ToBE, Signed, Unsigned, ParseMillis, ParseNtp, ParseString;
    Pow256Values();
    match v
    case Unsigned8(x) => UnsignedRoundTrip(x, n);
    case Unsigned16(x) => UnsignedRoundTrip(x, n);
    case Unsigned32(x) => UnsignedRoundTrip(x, n);
    case Unsigned64(x) => UnsignedRoundTrip(x, n);
  }

  lemma SignedCarried(dataType: DataType, n: nat, v: FieldValue)
    requires v.Signed8? || v.Signed16? || v.Signed32? || v.Signed64?
    ensures Carried(dataType, n, v) <==> ScalarTyped(dataType, n, v)
  {
    hide FromBE, ToBE, Signed, Unsigned, ParseMillis, ParseNtp, ParseString;
    Pow256Values();
    if n > 0 {
      match v
      case Signed8(x) => SignedRoundTrip(x, n);
      case Signed16(x) => SignedRoundTrip(x, n);
      case Signed32(x) => SignedRoundTrip(x, n);
      case Signed64(x) => SignedRoundTrip(x, n);
    }
  }

  lemma FloatCarried(dataType: DataType, n: nat, v: FieldValue)
    requires v.Float32? || v.Float64?
    ensures Carried(dataType, n, v) <==> ScalarTyped(dataType, n, v)
  {
    Pow256Values();
    assert EncodeFixed(v, n) == EncodeValue(v);
    match v
    case Float32(x) => UnsignedRoundTrip(x, 4);
    case Float64(x) => UnsignedRoundTrip(x, 8);
  }

  lemma SecondsCarried(dataType: DataType, n: nat, t: Time)
    ensures Carried(dataType, n, DateTimeSeconds(t)) <==> ScalarTyped(dataType, n, DateTimeSeconds(t))
  {
    hide FromBE, ToBE, ParseMillis, ParseNtp, ParseString, Signed, Unsigned, Pow256;
    Pow256Values();
    assert EncodeFixed(DateTimeSeconds(t), n) == EncodeValue(DateTimeSeconds(t));
    SecondsRoundTrip(t);
  }

  lemma MillisCarried(dataType: DataType, n: nat, t: Time)
    ensures Carried(dataType, n, DateTimeMilliseconds(t)) <==> ScalarTyped(dataType, n, DateTimeMilliseconds(t))
  {
    hide FromBE, ToBE, ParseNtp, ParseString, Signed, Unsigned, Pow256;
    Pow256Values();
    assert EncodeFixed(DateTimeMilliseconds(t), n) == EncodeValue(DateTimeMilliseconds(t));
    MillisRoundTrip(t);
  }

  lemma NtpCarried(dataType: DataType, n: nat, v: FieldValue)
    requires v.DateTimeMicroseconds? || v.DateTimeNanoseconds?
    ensures Carried(dataType, n, v) <==> ScalarTyped(dataType, n, v)
  {
    hide FromBE, ToBE, ParseMillis, ParseNtp, NtpExact;
    assert EncodeFixed(v, n) == EncodeValue(v);
    match v
    case DateTimeMicroseconds(t) => NtpRoundTrip(t);
    case DateTimeNanoseconds(t) => NtpRoundTrip(t);
  }

  lemma {:induction false} ZeroIsZero(n: nat)
    ensures FromBE(Zeros(n)) == 0
  {
    if n > 0 {
      assert Zeros(n)[..n - 1] == Zeros(n - 1);
      ZeroIsZero(n - 1);
    }
  }

  lemma ZerosRead(n: nat)
    ensures ParseString(Zeros(n)).String? && ParseMillis(0) != Null
  {
    Utf8.ValidPadded([], n);
    assert [] + Zeros(n) == Zeros(n);
  }

  lemma NullCarried(dataType: DataType, n: nat)
    ensures Carried(dataType, n, Null) <==> ScalarTyped(dataType, n, Null)
  {
    hide FromBE, ParseNtp, ParseMillis, ParseString, Signed;
    ZeroIsZero(n);
    ZerosRead(n);
  }

  lemma FixedOctetsCarried(dataType: DataType, n: nat, v: FieldValue)
    requires v.Boolean? || v.MacAddress? || v.Ipv4Address? || v.Ipv6Address?
    ensures Carried(dataType, n, v) <==> ScalarTyped(dataType, n, v)
  {
    assert EncodeFixed(v, n) == EncodeValue(v);
  }

  lemma OctetsCarried(dataType: DataType, n: nat, v: FieldValue)
    requires v.OctetArray? || v.String?
    ensures Carried(dataType, n, v) <==> ScalarTyped(dataType, n, v)
  {
    hide FromBE, ToBE, ParseNtp, ParseMillis, ParseString, Signed, Unsigned, Utf8.Valid;
    match v
    case OctetArray(b) => assert |b| == n ==> b + Zeros(0) == b;
    case String(b) => StringRoundTrip(b, n);
  }

  /** A field carries a value through the wire exactly when it is typed for it. */
  lemma ScalarRoundTrip(dataType: DataType, n: nat, v: FieldValue)
    requires IsScalar(v)
    ensures Carried(dataType, n, v) <==> ScalarTyped(dataType, n, v)
  {
    hide Carried, ScalarTyped;
    match v
    case Unsigned8(_) => UnsignedCarried(dataType, n, v);
    case Unsigned16(_) => UnsignedCarried(dataType, n, v);
    case Unsigned32(_) => UnsignedCarried(dataType, n, v);
    case Unsigned64(_) => UnsignedCarried(dataType, n, v);
    case Signed8(_) => SignedCarried(dataType, n, v);
    case Signed16(_) => SignedCarried(dataType, n, v);
    case Signed32(_) => SignedCarried(dataType, n, v);
    case Signed64(_) => SignedCarried(dataType, n, v);
    case Float32(_) => FloatCarried(dataType, n, v);
    case Float64(_) => FloatCarried(dataType, n, v);
    case OctetArray(_) => OctetsCarried(dataType, n, v);
    case String(_) => OctetsCarried(dataType, n, v);
    case DateTimeSeconds(t) => SecondsCarried(dataType, n, t);
    case DateTimeMilliseconds(t) => MillisCarried(dataType, n, t);
    case DateTimeMicroseconds(_) => NtpCarried(dataType, n, v);
    case DateTimeNanoseconds(_) => NtpCarried(dataType, n, v);
    case Null => NullCarried(dataType, n);
    case _ => FixedOctetsCarried(dataType, n, v);
  }

  // Typed values, lists included

  predicate SpecifierOk(f: FieldSpecifier) {
    f.enterpriseBit == f.enterpriseNumber.Some? && f.id < 0x8000
  }

  /** The value is one the parser can give for a field of the type spanning `n` octets. */
  predicate Typed(view: View, dataType: DataType, n: nat, v: FieldValue, depth: nat)
    decreases v, 0
  {
    if IsScalar(v) then ScalarTyped(dataType, n, v) && (dataType.IsList() ==> depth >= MAX_LIST_DEPTH)
    else
      && depth < MAX_LIST_DEPTH
      && n == |EncodeValue(v)|
      && match v
         case BasicList(_, field, content) =>
           dataType.BasicListType? && SpecifierOk(field) && (field.length == 0 ==> content == [])
           && TypedElements(view, field, content, depth + 1)
         case SubTemplateList(_, id, data) =>
           dataType.SubTemplateListType? && TypedTemplated(view, id, data, depth + 1)
         case SubTemplateMultiList(_, items) =>
           dataType.SubTemplateMultiListType? && TypedItems(view, items, depth + 1)
  }

  /** The octets a field of this length spans, its length prefix aside. */
  function Width(v: FieldValue, length: u16): nat {
    if length == VARIABLE_LENGTH then |EncodeValue(v)| else length
  }

  predicate TypedField(view: View, dataType: DataType, length: u16, v: FieldValue, depth: nat)
    decreases v, 1
  {
    Width(v, length) <= 0xFFFF && Typed(view, dataType, Width(v, length), v, depth)
  }

  predicate TypedElements(view: View, field: FieldSpecifier, vs: seq<FieldValue>, depth: nat)
    decreases vs, 0
  {
    vs == [] || (TypedField(view, view.TypeOf(field), field.length, vs[0], depth)
                 && TypedElements(view, field, vs[1..], depth))
  }

  predicate TypedValues(view: View, fields: Fields, vs: seq<FieldValue>, depth: nat)
    decreases vs, 0
  {
    if vs == [] then fields == []
    else fields != []
         && TypedField(view, fields[0].dataType, fields[0].spec.length, vs[0], depth)
         && TypedValues(view, fields[1..], vs[1..], depth)
  }

  predicate TypedRecords(view: View, fields: Fields, rs: seq<DataRecord>, depth: nat)
    decreases rs, 0
  {
    rs == [] || (rs[0].fields == fields && TypedValues(view, fields, rs[0].values, depth)
                 && TypedRecords(view, fields, rs[1..], depth))
  }

  /** Some field takes up octets, so no record is empty. */
  predicate Consuming(fields: Fields) {
    fields != [] && (fields[0].spec.length != 0 || Consuming(fields[1..]))
  }

  predicate TypedTemplated(view: View, id: u16, rs: seq<DataRecord>, depth: nat)
    decreases rs, 1
  {
    match view.FieldsOf(id)
    case None => rs == []
    case Some(fields) =>
      if fields == [] then rs == [] else Consuming(fields) && TypedRecords(view, fields, rs, depth)
  }

  predicate TypedItems(view: View, items: seq<MultiItem>, depth: nat)
    decreases items, 0
  {
    items == []
    || (4 < items[0].length == 4 + |EncodeDataRecords(items[0].data)|
        && TypedTemplated(view, items[0].templateId, items[0].data, depth)
        && TypedItems(view, items[1..], depth))
  }

  // The round trips

  lemma ParsedSpecifierOk(input: bytes)
    ensures var r := ParseSpecifier(input); r.Ok? ==> SpecifierOk(r.value)
  {
    hide FromBE;
  }

  lemma RawRead(raw: u16, length: u16, rest: bytes)
    ensures ParseSpecifier(ToBE(raw, 2) + (ToBE(length, 2) + rest))
         == if raw < 0x8000 then Ok(rest, FieldSpecifier(false, raw, length, None))
            else
              var number := BeU32(rest);
              if number.Err? then Err
              else Ok(number.rest, FieldSpecifier(true, raw % 0x8000, length, Some(number.value)))
  {
    hide FromBE, ToBE, BeU32;
    U16Concat(raw, ToBE(length, 2) + rest);
    U16Concat(length, rest);
  }

  /** A specifier comes back exactly when it has its bit where it has a number, and an ID that leaves room for it. */
  lemma SpecifierRoundTrip(f: FieldSpecifier, rest: bytes)
    ensures ParseSpecifier(EncodeSpecifier(f) + rest) == Ok(rest, f) <==> SpecifierOk(f)
  {
    hide ParseSpecifier, ToBE, BeU32;
    ParsedSpecifierOk(EncodeSpecifier(f) + rest);
    if SpecifierOk(f) {
      var raw := if f.enterpriseBit then f.id + 0x8000 else f.id;
      var number := match f.enterpriseNumber case Some(n) => ToBE(n, 4) case None => [];
      assert EncodeSpecifier(f) + rest == ToBE(raw, 2) + (ToBE(f.length, 2) + (number + rest));
      RawRead(raw, f.length, number + rest);
      match f.enterpriseNumber
      case Some(n) => U32Concat(n, rest);
      case None => assert number + rest == rest;
    }
  }

  lemma NaturalWidth(view: View, dataType: DataType, v: FieldValue, depth: nat)
    requires Typed(view, dataType, |EncodeValue(v)|, v, depth)
    ensures EncodeFixed(v, |EncodeValue(v)|) == EncodeValue(v)
  {
    hide FromBE, ToBE, Signed, Unsigned, Utf8.Valid, NtpExact;
    match v
    case OctetArray(b) => assert b + Zeros(0) == b;
    case String(b) => assert b[..|b|] == b && b + Zeros(0) == b;
    case _ =>
  }

  lemma NoWidth(view: View, dataType: DataType, v: FieldValue, depth: nat)
    requires Typed(view, dataType, 0, v, depth)
    ensures EncodeValue(v) == [] == EncodeFixed(v, 0)
  {
    if IsScalar(v) {
      ScalarRoundTrip(dataType, 0, v);
    }
  }

  /** The parser finds the length of an encoded value, and then its octets. */
  lemma LengthRoundTrip(view: View, dataType: DataType, length: u16, v: FieldValue, depth: nat, rest: bytes)
    requires TypedField(view, dataType, length, v, depth)
    ensures var n := Width(v, length);
            ParseFieldLength(EncodeFieldValue(v, length) + rest, length) == Ok(EncodeFixed(v, n) + rest, n)
  {
    hide FromBE, ToBE, Typed;
    var n := Width(v, length);
    if length == VARIABLE_LENGTH {
      NaturalWidth(view, dataType, v, depth);
      var e := EncodeValue(v) + rest;
      assert EncodeFieldValue(v, length) + rest == EncodeLength(n) + e;
      if n < 255 {
        U8Concat(n, e);
      } else {
        assert EncodeLength(n) + e == [255] + (ToBE(n, 2) + e);
        U8Concat(255, ToBE(n, 2) + e);
        U16Concat(n, e);
      }
    } else if length == 0 {
      NoWidth(view, dataType, v, depth);
    }
  }

  /** A typed value is encoded in exactly its width and decodes to itself, whatever follows it. */
  lemma {:induction false} ValueRoundTrip(
      view: View, dataType: DataType, n: nat, v: FieldValue, depth: nat, rest: bytes)
    requires Typed(view, dataType, n, v, depth)
    ensures |EncodeFixed(v, n)| == n
    ensures ParseFieldValue(view, EncodeFixed(v, n) + rest, dataType, n, depth) == Ok(rest, v)
    decreases v, 0
  {
    hide Scalar, ScalarTyped, FromBE, ToBE, ParseElements, ParseTemplated, ParseItems, EncodeElements,
      EncodeDataRecords, EncodeItems, EncodeSpecifier, ParseSpecifier;
    if IsScalar(v) {
      ScalarRoundTrip(dataType, n, v);
      TakeConcat(EncodeFixed(v, n), rest);
    } else {
      var data := EncodeValue(v);
      TakeConcat(data, rest);
      match v
      case BasicList(semantic, field, content) =>
        var elements := EncodeElements(content, field.length);
        assert data == [SemanticCode(semantic)] + (EncodeSpecifier(field) + elements);
        U8Concat(SemanticCode(semantic), EncodeSpecifier(field) + elements);
        SpecifierRoundTrip(field, elements);
        ElementsRoundTrip(view, field, content, depth + 1);
      case SubTemplateList(semantic, id, records) =>
        var body := EncodeDataRecords(records);
        assert data == [SemanticCode(semantic)] + (ToBE(id, 2) + body);
        U8Concat(SemanticCode(semantic), ToBE(id, 2) + body);
        U16Concat(id, body);
        TemplatedRoundTrip(view, id, records, depth + 1);
      case SubTemplateMultiList(semantic, items) =>
        U8Concat(SemanticCode(semantic), EncodeItems(items));
        ItemsRoundTrip(view, items, depth + 1);
    }
  }

  lemma {:induction false} FieldRoundTrip(view: View, field: ResolvedField, v: FieldValue, depth: nat, rest: bytes)
    requires TypedField(view, field.dataType, field.spec.length, v, depth)
    ensures ParseField(view, field, EncodeFieldValue(v, field.spec.length) + rest, depth) == Ok(rest, v)
    decreases v, 1
  {
    LengthRoundTrip(view, field.dataType, field.spec.length, v, depth, rest);
    ValueRoundTrip(view, field.dataType, Width(v, field.spec.length), v, depth, rest);
  }

  lemma {:induction false} ElementsRoundTrip(view: View, field: FieldSpecifier, vs: seq<FieldValue>, depth: nat)
    requires TypedElements(view, field, vs, depth) && (field.length == 0 ==> vs == [])
    ensures ParseElements(view, field, EncodeElements(vs, field.length), depth) == Ok([], vs)
    decreases vs, 0
  {
    hide Scalar, FromBE, ToBE, EncodeFixed, EncodeFieldValue, EncodeValue, Typed, ParseFieldLength, ParseFieldValue;
    if vs != [] {
      var v, n := vs[0], Width(vs[0], field.length);
      var rest := EncodeElements(vs[1..], field.length);
      LengthRoundTrip(view, view.TypeOf(field), field.length, v, depth, rest);
      ValueRoundTrip(view, view.TypeOf(field), n, v, depth, rest);
      ElementsRoundTrip(view, field, vs[1..], depth);
      assert EncodeElements(vs, field.length) == EncodeFieldValue(v, field.length) + rest;
      assert |EncodeFieldValue(v, field.length)| > 0;
      assert vs == [v] + vs[1..];
    }
  }

  lemma {:induction false} ValuesRoundTrip(
      view: View, fields: Fields, vs: seq<FieldValue>, depth: nat, rest: bytes)
    requires TypedValues(view, fields, vs, depth)
    ensures ParseFields(view, fields, EncodeFields(fields, vs) + rest, depth) == Ok(rest, vs)
    decreases vs, 0
  {
    hide EncodeFieldValue, ParseField, TypedField;
    if vs != [] {
      var more := EncodeFields(fields[1..], vs[1..]);
      assert EncodeFields(fields, vs) + rest == EncodeFieldValue(vs[0], fields[0].spec.length) + (more + rest);
      FieldRoundTrip(view, fields[0], vs[0], depth, more + rest);
      ValuesRoundTrip(view, fields[1..], vs[1..], depth, rest);
      assert vs == [vs[0]] + vs[1..];
    } else {
      assert [] + rest == rest;
    }
  }

  lemma {:induction false} ConsumingNeedsInput(view: View, fields: Fields, depth: nat)
    requires Consuming(fields)
    ensures ParseFields(view, fields, [], depth).Err?
  {
    if fields[0].spec.length == 0 {
      ConsumingNeedsInput(view, fields[1..], depth);
    }
  }

  lemma {:induction false} ConsumingTakesInput(view: View, fields: Fields, input: bytes, depth: nat)
    requires Consuming(fields)
    ensures var r := ParseFields(view, fields, input, depth); r.Ok? ==> |r.rest| < |input|
  {
    if fields[0].spec.length == 0 {
      var r := ParseField(view, fields[0], input, depth);
      if r.Ok? {
        ConsumingTakesInput(view, fields[1..], r.rest, depth);
      }
    }
  }

  lemma {:induction false} DataRecordsRoundTrip(view: View, fields: Fields, rs: seq<DataRecord>, depth: nat)
    requires Consuming(fields) && TypedRecords(view, fields, rs, depth)
    ensures ParseDataRecords(view, fields, EncodeDataRecords(rs), depth) == Ok([], rs)
    decreases rs, 0
  {
    hide EncodeFields, ParseFields, TypedValues;
    if rs == [] {
      ConsumingNeedsInput(view, fields, depth);
    } else {
      var rest := EncodeDataRecords(rs[1..]);
      ValuesRoundTrip(view, fields, rs[0].values, depth, rest);
      ConsumingTakesInput(view, fields, EncodeDataRecords(rs), depth);
      DataRecordsRoundTrip(view, fields, rs[1..], depth);
      assert rs == [DataRecord(fields, rs[0].values)] + rs[1..];
    }
  }

  lemma {:induction false} TemplatedRoundTrip(view: View, id: u16, rs: seq<DataRecord>, depth: nat)
    requires TypedTemplated(view, id, rs, depth)
    ensures ParseTemplated(view, EncodeDataRecords(rs), id, depth) == Ok([], rs)
    decreases rs, 1
  {
    match view.FieldsOf(id)
    case None =>
    case Some(fields) =>
      if fields != [] {
        DataRecordsRoundTrip(view, fields, rs, depth);
      }
  }

  lemma ItemRoundTrip(view: View, item: MultiItem, depth: nat, rest: bytes)
    requires 4 < item.length == 4 + |EncodeDataRecords(item.data)|
    requires ParseTemplated(view, EncodeDataRecords(item.data), item.templateId, depth) == Ok([], item.data)
    ensures ParseItems(view, EncodeItem(item) + rest, depth) == Prepend([item], ParseItems(view, rest, depth))
  {
    hide FromBE, ToBE, ParseTemplated, EncodeDataRecords;
    var body := EncodeDataRecords(item.data);
    assert EncodeItem(item) + rest == ToBE(item.templateId, 2) + (ToBE(item.length, 2) + (body + rest));
    U16Concat(item.templateId, ToBE(item.length, 2) + (body + rest));
    U16Concat(item.length, body + rest);
    TakeConcat(body, rest);
  }

  lemma {:induction false} ItemsRoundTrip(view: View, items: seq<MultiItem>, depth: nat)
    requires TypedItems(view, items, depth)
    ensures ParseItems(view, EncodeItems(items), depth) == Ok([], items)
    decreases items, 0
  {
    hide EncodeItem, ParseTemplated, EncodeDataRecords, TypedTemplated;
    if items != [] {
      TemplatedRoundTrip(view, items[0].templateId, items[0].data, depth);
      ItemRoundTrip(view, items[0], depth, EncodeItems(items[1..]));
      ItemsRoundTrip(view, items[1..], depth);
      assert items == [items[0]] + items[1..];
    }
  }
}
