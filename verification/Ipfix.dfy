/** The entities of IPFIX (RFC 7011) and its structured data (RFC 6313). */
module Ipfix {
  import opened Bytes

  const IPFIX_VERSION: u16 := 10
  const TEMPLATE_SET_ID: u16 := 2
  const OPTIONS_TEMPLATE_SET_ID: u16 := 3
  const FIRST_TEMPLATE_ID: u16 := 256
  const VARIABLE_LENGTH: u16 := 0xFFFF
  const SET_HEADER_SIZE: nat := 4
  const HEADER_SIZE: nat := 16
  const MAX_LIST_DEPTH: nat := 8

  datatype DataType =
    | UnsignedType | SignedType | FloatType | BooleanType | MacAddressType | OctetArrayType | StringType
    | DateTimeSecondsType | DateTimeMillisecondsType | DateTimeMicrosecondsType | DateTimeNanosecondsType
    | Ipv4AddressType | Ipv6AddressType | BasicListType | SubTemplateListType | SubTemplateMultiListType
  {
    predicate IsList() {
      BasicListType? || SubTemplateListType? || SubTemplateMultiListType?
    }
  }

  datatype FieldSpecifier = FieldSpecifier(
    enterpriseBit: bool, id: u16, length: u16, enterpriseNumber: Option<u32>)

  /** What tells one element from another. */
  datatype ElementKey = ElementKey(id: u16, enterpriseNumber: Option<u32>)

  /** A registered name, or the number printed for an unknown element. */
  datatype Name = Registered(text: bytes) | Numbered(key: ElementKey)

  datatype IEDefinition = IEDefinition(name: Name, dataType: DataType)

  type Registry = map<ElementKey, IEDefinition>

  datatype ResolvedField = ResolvedField(spec: FieldSpecifier, dataType: DataType, name: Name)

  /** A point in time, in nanoseconds since the Unix epoch. */
  type Time = int

  datatype Semantic = NoneOf | ExactlyOneOf | OneOrMoreOf | AllOf | Ordered | Undefined

  /** Floats are their bits; addresses and strings are their octets. */
  datatype FieldValue =
    | Unsigned8(u8) | Unsigned16(u16) | Unsigned32(u32) | Unsigned64(u64)
    | Signed8(i8) | Signed16(i16) | Signed32(i32) | Signed64(i64)
    | Float32(u32) | Float64(u64)
    | Boolean(bool)
    | MacAddress(bytes)
    | OctetArray(bytes)
    | String(bytes)
    | DateTimeSeconds(Time) | DateTimeMilliseconds(Time) | DateTimeMicroseconds(Time) | DateTimeNanoseconds(Time)
    | Ipv4Address(bytes) | Ipv6Address(bytes)
    | BasicList(semantic: Semantic, field: FieldSpecifier, content: seq<FieldValue>)
    | SubTemplateList(semantic: Semantic, templateId: u16, data: seq<DataRecord>)
    | SubTemplateMultiList(semantic: Semantic, items: seq<MultiItem>)
    | Null

  datatype MultiItem = MultiItem(templateId: u16, length: u16, data: seq<DataRecord>)

  datatype DataRecord = DataRecord(fields: seq<ResolvedField>, values: seq<FieldValue>)

  datatype TemplateRecord = TemplateRecord(templateId: u16, fieldCount: u16, fields: seq<FieldSpecifier>)

  datatype OptionsTemplateRecord = OptionsTemplateRecord(
    templateId: u16, fieldCount: u16, scopeFieldCount: u16, fields: seq<FieldSpecifier>)

  datatype Record =
    | Template(template: TemplateRecord)
    | OptionsTemplate(options: OptionsTemplateRecord)
    | Data(record: DataRecord)
    | OptionsData(record: DataRecord)

  datatype Set = Set(id: u16, length: u16, records: seq<Record>)

  datatype Header = Header(
    version: u16, length: u16, exportTime: Time, sequenceNumber: u32, domain: u32)

  datatype Packet = Packet(header: Header, sets: seq<Set>)

  function SemanticOf(b: u8): Semantic {
    match b
    case 0 => NoneOf
    case 1 => ExactlyOneOf
    case 2 => OneOrMoreOf
    case 3 => AllOf
    case 4 => Ordered
    case _ => Undefined
  }

  function SemanticCode(s: Semantic): (b: u8)
    ensures SemanticOf(b) == s
  {
    match s
    case NoneOf => 0
    case ExactlyOneOf => 1
    case OneOrMoreOf => 2
    case AllOf => 3
    case Ordered => 4
    case Undefined => 0xFF
  }
}
