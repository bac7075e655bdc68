/** The octets of each IPFIX entity. */
module Encoding {
  import opened Bytes
  import opened Ipfix
  import Timestamps
  import Utf8

  function EncodeSpecifier(f: FieldSpecifier): bytes {
    ToBE(if f.enterpriseBit && f.id < 0x8000 then f.id + 0x8000 else f.id, 2)
    + ToBE(f.length, 2)
    + (match f.enterpriseNumber case Some(n) => ToBE(n, 4) case None => [])
  }

  function EncodeSpecifiers(fields: seq<FieldSpecifier>): bytes {
    if fields == [] then [] else EncodeSpecifier(fields[0]) + EncodeSpecifiers(fields[1..])
  }

  function EncodeTemplate(t: TemplateRecord): bytes {
    ToBE(t.templateId, 2) + ToBE(t.fieldCount, 2) + EncodeSpecifiers(t.fields)
  }

  function EncodeOptionsTemplate(t: OptionsTemplateRecord): bytes {
    ToBE(t.templateId, 2) + ToBE(t.fieldCount, 2) + ToBE(t.scopeFieldCount, 2) + EncodeSpecifiers(t.fields)
  }

  /** Exactly `n` octets: the first ones, or all of them and then zeros. */
  function PutFixed(b: bytes, n: nat): (r: bytes)
    ensures |r| == n
  {
    if |b| <= n then b + Zeros(n - |b|) else b[..n]
  }

  function EncodeNtp(t: Time): bytes {
    ToBE(Timestamps.NtpSeconds(t), 4) + ToBE(Timestamps.NtpFraction(Timestamps.SubsecNanos(t)), 4)
  }

  /** A value as wide as its own type. */
  function EncodeValue(v: FieldValue): bytes
    decreases v, 0
  {
    match v
    case Unsigned8(n) => ToBE(n, 1)
    case Unsigned16(n) => ToBE(n, 2)
    case Unsigned32(n) => ToBE(n, 4)
    case Unsigned64(n) => ToBE(n, 8)
    case Signed8(n) => ToBE(Unsigned(n, 1), 1)
    case Signed16(n) => ToBE(Unsigned(n, 2), 2)
    case Signed32(n) => ToBE(Unsigned(n, 4), 4)
    case Signed64(n) => ToBE(Unsigned(n, 8), 8)
    case Float32(bits) => ToBE(bits, 4)
    case Float64(bits) => ToBE(bits, 8)
    case Boolean(b) => if b then [1] else [2]
    case MacAddress(b) => b
    case OctetArray(b) => b
    case String(b) => b
    case DateTimeSeconds(t) => ToBE(Timestamps.Seconds(t) % Pow256(4), 4)
    case DateTimeMilliseconds(t) => ToBE(Timestamps.Millis(t) % Pow256(8), 8)
    case DateTimeMicroseconds(t) => EncodeNtp(t)
    case DateTimeNanoseconds(t) => EncodeNtp(t)
    case Ipv4Address(b) => b
    case Ipv6Address(b) => b
    case BasicList(semantic, field, content) =>
      [SemanticCode(semantic)] + EncodeSpecifier(field) + EncodeElements(content, field.length)
    case SubTemplateList(semantic, id, data) =>
      [SemanticCode(semantic)] + ToBE(id, 2) + EncodeDataRecords(data)
    case SubTemplateMultiList(semantic, items) =>
      [SemanticCode(semantic)] + EncodeItems(items)
    case Null => []
  }

  /** A value in exactly `n` octets: reduced or extended integers, cut or padded octets and strings. */
  function EncodeFixed(v: FieldValue, n: nat): bytes
    decreases v, 1
  {
    match v
    case Unsigned8(x) => ToBE(x, n)
    case Unsigned16(x) => ToBE(x, n)
    case Unsigned32(x) => ToBE(x, n)
    case Unsigned64(x) => ToBE(x, n)
    case Signed8(x) => ToBE(Unsigned(x, n), n)
    case Signed16(x) => ToBE(Unsigned(x, n), n)
    case Signed32(x) => ToBE(Unsigned(x, n), n)
    case Signed64(x) => ToBE(Unsigned(x, n), n)
    case OctetArray(b) => PutFixed(b, n)
    case String(b) => PutFixed(b[..Utf8.FloorBoundary(b, n)], n)
    case Null => Zeros(n)
    case _ => EncodeValue(v)
  }

  /** RFC 7011 section 7. */
  function EncodeLength(n: nat): bytes {
    if n < 255 then [n] else [255] + ToBE(n, 2)
  }

  function EncodeFieldValue(v: FieldValue, length: u16): bytes
    decreases v, 2
  {
    if length == VARIABLE_LENGTH then EncodeLength(|EncodeValue(v)|) + EncodeValue(v)
    else if length == 0 then EncodeValue(v)
    else EncodeFixed(v, length)
  }

  /** The elements of a list, each at the width of the list's field. */
  function EncodeElements(vs: seq<FieldValue>, length: u16): bytes
    decreases vs, 0
  {
    if vs == [] then [] else EncodeFieldValue(vs[0], length) + EncodeElements(vs[1..], length)
  }

  /** Values at their fields' widths, as far as both go. */
  function EncodeFields(fields: seq<ResolvedField>, vs: seq<FieldValue>): bytes
    decreases vs, 0
  {
    if fields == [] || vs == [] then []
    else EncodeFieldValue(vs[0], fields[0].spec.length) + EncodeFields(fields[1..], vs[1..])
  }

  function EncodeDataRecord(r: DataRecord): bytes
    decreases r, 0
  {
    EncodeFields(r.fields, r.values)
  }

  function EncodeDataRecords(rs: seq<DataRecord>): bytes
    decreases rs, 0
  {
    if rs == [] then [] else EncodeDataRecord(rs[0]) + EncodeDataRecords(rs[1..])
  }

  function EncodeItem(item: MultiItem): bytes
    decreases item, 0
  {
    ToBE(item.templateId, 2) + ToBE(item.length, 2) + EncodeDataRecords(item.data)
  }

  function EncodeItems(items: seq<MultiItem>): bytes
    decreases items, 0
  {
    if items == [] then [] else EncodeItem(items[0]) + EncodeItems(items[1..])
  }

  function EncodeRecord(r: Record): bytes {
    match r
    case Template(t) => EncodeTemplate(t)
    case OptionsTemplate(t) => EncodeOptionsTemplate(t)
    case Data(d) => EncodeDataRecord(d)
    case OptionsData(d) => EncodeDataRecord(d)
  }

  function EncodeRecords(rs: seq<Record>): bytes {
    if rs == [] then [] else EncodeRecord(rs[0]) + EncodeRecords(rs[1..])
  }

  function EncodeSet(s: Set): bytes {
    var body := EncodeRecords(s.records);
    ToBE(s.id, 2) + ToBE(SET_HEADER_SIZE + |body|, 2) + body
  }

  function EncodeSets(sets: seq<Set>): bytes {
    if sets == [] then [] else EncodeSet(sets[0]) + EncodeSets(sets[1..])
  }

  function EncodeHeader(h: Header, length: nat): (b: bytes)
    ensures |b| == HEADER_SIZE
  {
    ToBE(h.version, 2) + ToBE(length, 2) + ToBE(Timestamps.Seconds(h.exportTime) % Pow256(4), 4)
    + ToBE(h.sequenceNumber, 4) + ToBE(h.domain, 4)
  }

  /** Lengths are computed, and kept modulo 2^16. */
  function EncodePacket(p: Packet): bytes {
    var body := EncodeSets(p.sets);
    EncodeHeader(p.header, HEADER_SIZE + |body|) + body
  }
}
