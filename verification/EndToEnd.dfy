/** What is exported is what a collector decodes. */
module EndToEnd {
  import opened Bytes
  import opened Ipfix
  import opened Decoding
  import opened Encoding
  import opened RoundTrip
  import opened TemplateCaching
  import opened TwoLevels
  import opened Collecting
  import opened MessageRoundTrip
  import opened Exporting
  import opened Sequences
  import opened Flows
  import Timestamps
  import IpfixParsing

  // Flows and their records

  const FLOW_IPV4_TEMPLATE_ID: u16 := 256
  const FLOW_IPV6_TEMPLATE_ID: u16 := 257
  const OPTIONS_TEMPLATE_ID: u16 := 258

  predicate IsV4(f: FlowData) {
    f.sourceIp.V4?
  }

  predicate AddressOk(a: Address) {
    |a.octets| == if a.V4? then 4 else 16
  }

  /** Both addresses of one family, and times a date at or after the epoch can hold. */
  predicate FlowOk(f: FlowData) {
    && AddressOk(f.sourceIp) && AddressOk(f.destinationIp) && f.sourceIp.V4? == f.destinationIp.V4?
    && 0 <= f.start && Timestamps.Seconds(f.start) <= Timestamps.MAX_SECONDS
    && 0 <= f.end && Timestamps.Seconds(f.end) <= Timestamps.MAX_SECONDS
  }

  function AddressValue(a: Address): FieldValue {
    match a
    case V4(b) => Ipv4Address(b)
    case V6(b) => Ipv6Address(b)
  }

  function Values(f: FlowData): (vs: seq<FieldValue>)
    ensures |vs| == 12
  {
    [AddressValue(f.sourceIp), AddressValue(f.destinationIp), Unsigned8(if IsV4(f) then 4 else 6),
     Unsigned8(f.protocol), Unsigned16(f.sourcePort), Unsigned16(f.destinationPort), Unsigned64(f.octetCount),
     Unsigned64(f.packetCount), Unsigned16(f.tcpFlags), DateTimeMilliseconds(f.start), DateTimeMilliseconds(f.end),
     Unsigned8(f.endReason)]
  }

  /** `DataRecord::new`: placeholder fields, so every value is written at its natural width. */
  function NewRecord(vs: seq<FieldValue>): DataRecord {
    DataRecord(
      seq(|vs|, i requires 0 <= i < |vs| => ResolvedField(FieldSpecifier(false, 0, 0, None), OctetArrayType, Registered([]))),
      vs)
  }

  function TemplateId(f: FlowData): u16 {
    if IsV4(f) then FLOW_IPV4_TEMPLATE_ID else FLOW_IPV6_TEMPLATE_ID
  }

  function ToOutgoing(f: FlowData): Outgoing {
    Outgoing(TemplateId(f), NewRecord(Values(f)))
  }

  function Iana(id: u16, length: u16): FieldSpecifier {
    FieldSpecifier(false, id, length, None)
  }

  function FlowSpecifiers(v4: bool): (r: seq<FieldSpecifier>)
    ensures |r| == 12
  {
    (if v4 then [Iana(8, 4), Iana(12, 4)] else [Iana(27, 16), Iana(28, 16)])
    + [Iana(60, 1), Iana(4, 1), Iana(7, 2), Iana(11, 2), Iana(1, 8), Iana(2, 8), Iana(6, 2),
       Iana(152, 8), Iana(153, 8), Iana(136, 1)]
  }

  function FlowTemplate(v4: bool): TemplateRecord {
    TemplateRecord(if v4 then FLOW_IPV4_TEMPLATE_ID else FLOW_IPV6_TEMPLATE_ID, 12, FlowSpecifiers(v4))
  }

  const SAMPLING_TEMPLATE: OptionsTemplateRecord :=
    OptionsTemplateRecord(OPTIONS_TEMPLATE_ID, 5, 1, [Iana(149, 4), Iana(34, 4), Iana(304, 2), Iana(305, 4), Iana(306, 4)])

  /** The data types of the templates' elements. */
  function FlowTypes(v4: bool): (r: seq<DataType>)
    ensures |r| == 12
  {
    (if v4 then [Ipv4AddressType, Ipv4AddressType] else [Ipv6AddressType, Ipv6AddressType])
    + [UnsignedType, UnsignedType, UnsignedType, UnsignedType, UnsignedType, UnsignedType, UnsignedType,
       DateTimeMillisecondsType, DateTimeMillisecondsType, UnsignedType]
  }

  /** The registry defines the templates' elements as IANA does. */
  predicate KnowsFlows(registry: Registry) {
    forall v4, i :: 0 <= i < 12 ==>
      var key := ElementKey(FlowSpecifiers(v4)[i].id, None);
      key in registry && registry[key].dataType == FlowTypes(v4)[i]
  }

  // Records as the collector sees them

  function Floored(t: Time): Time {
    Timestamps.Millis(t) * Timestamps.MILLISECOND
  }

  /** Times are exported in whole milliseconds. */
  function FlooredFlow(f: FlowData): FlowData {
    f.(start := Floored(f.start), end := Floored(f.end))
  }

  function FlowFields(registry: Registry, v4: bool): Fields {
    Resolve(registry, FlowSpecifiers(v4))
  }

  /** A flow's record as decoded. */
  function Collected(registry: Registry, f: FlowData): DataRecord {
    DataRecord(FlowFields(registry, IsV4(f)), Values(FlooredFlow(f)))
  }

  function CollectedAll(registry: Registry, fs: seq<FlowData>): (rs: seq<DataRecord>)
    ensures |rs| == |fs| && forall i :: 0 <= i < |rs| ==> rs[i] == Collected(registry, fs[i])
  {
    seq(|fs|, i requires 0 <= i < |fs| => Collected(registry, fs[i]))
  }

  function ToOutgoingAll(fs: seq<FlowData>): (rs: seq<Outgoing>)
    ensures |rs| == |fs| && forall i :: 0 <= i < |rs| ==> rs[i] == ToOutgoing(fs[i])
  {
    seq(|fs|, i requires 0 <= i < |fs| => ToOutgoing(fs[i]))
  }

  /** The decoded flows determine the floored ones. */
  lemma CollectedIsInjective(registry: Registry, f: FlowData, g: FlowData)
    requires FlowOk(f) && FlowOk(g) && Collected(registry, f) == Collected(registry, g)
    ensures FlooredFlow(f) == FlooredFlow(g)
  {
    var a, b := Values(FlooredFlow(f)), Values(FlooredFlow(g));
    assert forall i :: 0 <= i < 12 ==> a[i] == b[i];
    assert a[0] == b[0] && a[1] == b[1] && a[2] == b[2] && a[3] == b[3] && a[4] == b[4] && a[5] == b[5];
    assert a[6] == b[6] && a[7] == b[7] && a[8] == b[8] && a[9] == b[9] && a[10] == b[10] && a[11] == b[11];
  }

  // Values by element number

  function ElementIn(fields: seq<ResolvedField>, values: seq<FieldValue>, id: u16): Option<FieldValue>
    decreases |fields|
  {
    if fields == [] || values == [] then None
    else if fields[0].spec.enterpriseNumber == None && fields[0].spec.id == id then Some(values[0])
    else ElementIn(fields[1..], values[1..], id)
  }

  /** The value of the record's first field for an IANA element. */
  function Element(r: DataRecord, id: u16): Option<FieldValue> {
    ElementIn(r.fields, r.values, id)
  }

  /** sourceIPv4Address and destinationIPv4Address are 8 and 12, and 27 and 28 for IPv6. */
  predicate HoldsAddresses(r: DataRecord, f: FlowData) {
    && (match f.sourceIp
        case V4(b) => Element(r, 8) == Some(Ipv4Address(b)) && Element(r, 27) == None
        case V6(b) => Element(r, 27) == Some(Ipv6Address(b)) && Element(r, 8) == None)
    && (match f.destinationIp
        case V4(b) => Element(r, 12) == Some(Ipv4Address(b)) && Element(r, 28) == None
        case V6(b) => Element(r, 28) == Some(Ipv6Address(b)) && Element(r, 12) == None)
    && Element(r, 60) == Some(Unsigned8(if f.sourceIp.V4? then 4 else 6))
  }

  /** Each element has what it is for: protocolIdentifier 4, ports 7 and 11, octetDeltaCount 1, packetDeltaCount 2,
      tcpControlBits 6, flowStart and flowEndMilliseconds 152 and 153, and flowEndReason 136. */
  predicate HoldsFlow(r: DataRecord, f: FlowData) {
    && HoldsAddresses(r, f)
    && Element(r, 4) == Some(Unsigned8(f.protocol))
    && Element(r, 7) == Some(Unsigned16(f.sourcePort)) && Element(r, 11) == Some(Unsigned16(f.destinationPort))
    && Element(r, 1) == Some(Unsigned64(f.octetCount)) && Element(r, 2) == Some(Unsigned64(f.packetCount))
    && Element(r, 6) == Some(Unsigned16(f.tcpFlags))
    && Element(r, 152) == Some(DateTimeMilliseconds(f.start / 1_000_000 * 1_000_000))
    && Element(r, 153) == Some(DateTimeMilliseconds(f.end / 1_000_000 * 1_000_000))
    && Element(r, 136) == Some(Unsigned8(f.endReason))
  }

  lemma {:induction false} ElementFound(fields: seq<ResolvedField>, values: seq<FieldValue>, id: u16, i: nat)
    requires i < |fields| == |values|
    requires fields[i].spec.enterpriseNumber == None && fields[i].spec.id == id
    requires forall j :: 0 <= j < i ==> fields[j].spec.id != id
    ensures ElementIn(fields, values, id) == Some(values[i])
    decreases i
  {
    if i > 0 {
      assert fields[1..][i - 1] == fields[i] && values[1..][i - 1] == values[i];
      assert forall j :: 0 <= j < i - 1 ==> fields[1..][j] == fields[j + 1];
      ElementFound(fields[1..], values[1..], id, i - 1);
    }
  }

  lemma {:induction false} ElementMissing(fields: seq<ResolvedField>, values: seq<FieldValue>, id: u16)
    requires |fields| == |values| && forall i :: 0 <= i < |fields| ==> fields[i].spec.id != id
    ensures ElementIn(fields, values, id) == None
  {
    if fields != [] {
      assert forall j :: 0 <= j < |fields| - 1 ==> fields[1..][j] == fields[j + 1];
      ElementMissing(fields[1..], values[1..], id);
    }
  }

  lemma FlowFieldNumber(registry: Registry, v4: bool, i: nat)
    requires i < 12
    ensures FlowFields(registry, v4)[i].spec == FlowSpecifiers(v4)[i] && FlowSpecifiers(v4)[i].enterpriseNumber == None
  {
  }

  lemma FlowElement(registry: Registry, f: FlowData, i: nat)
    requires i < 12
    ensures Element(Collected(registry, f), FlowSpecifiers(IsV4(f))[i].id) == Some(Values(FlooredFlow(f))[i])
  {
    hide Values, Resolve;
    var fields := FlowFields(registry, IsV4(f));
    forall j: nat | j <= i
      ensures fields[j].spec == FlowSpecifiers(IsV4(f))[j] && fields[j].spec.enterpriseNumber == None
    {
      FlowFieldNumber(registry, IsV4(f), j);
    }
    NumbersDiffer(IsV4(f), i);
    ElementFound(fields, Values(FlooredFlow(f)), FlowSpecifiers(IsV4(f))[i].id, i);
  }

  lemma NumbersDiffer(v4: bool, i: nat)
    requires i < 12
    ensures forall j :: 0 <= j < i ==> FlowSpecifiers(v4)[j].id != FlowSpecifiers(v4)[i].id
  {
  }

  lemma OtherFamily(registry: Registry, f: FlowData)
    ensures var r := Collected(registry, f);
            if IsV4(f) then Element(r, 27) == None && Element(r, 28) == None
            else Element(r, 8) == None && Element(r, 12) == None
  {
    hide Values, Resolve, ElementIn;
    var r, v4 := Collected(registry, f), IsV4(f);
    forall i: nat | i < 12
      ensures r.fields[i].spec == FlowSpecifiers(v4)[i]
    {
      FlowFieldNumber(registry, v4, i);
    }
    assert forall i :: 0 <= i < 12 ==>
      var id := FlowSpecifiers(v4)[i].id; if v4 then id != 27 && id != 28 else id != 8 && id != 12;
    if v4 {
      ElementMissing(r.fields, r.values, 27);
      ElementMissing(r.fields, r.values, 28);
    } else {
      ElementMissing(r.fields, r.values, 8);
      ElementMissing(r.fields, r.values, 12);
    }
  }

  /** What is decoded of a flow has each of its values under the element that means it. */
  lemma CollectedHolds(registry: Registry, f: FlowData)
    requires FlowOk(f)
    ensures HoldsFlow(Collected(registry, f), f)
  {
    hide Element, Collected;
    OtherFamily(registry, f);
    FlowElement(registry, f, 0);
    FlowElement(registry, f, 1);
    FlowElement(registry, f, 2);
    FlowElement(registry, f, 3);
    FlowElement(registry, f, 4);
    FlowElement(registry, f, 5);
    FlowElement(registry, f, 6);
    FlowElement(registry, f, 7);
    FlowElement(registry, f, 8);
    FlowElement(registry, f, 9);
    FlowElement(registry, f, 10);
    FlowElement(registry, f, 11);
  }

  // What the exporter says of its sampling

  function SamplingValues(domain: u32, interval: u32): (vs: seq<FieldValue>)
    ensures |vs| == 5
  {
    [Unsigned32(domain), Unsigned32(interval), Unsigned16(1), Unsigned32(1), Unsigned32(if interval == 0 then 0 else interval - 1)]
  }

  function SamplingRecord(registry: Registry, domain: u32, interval: u32): DataRecord {
    DataRecord(Resolve(registry, SAMPLING_TEMPLATE.fields), SamplingValues(domain, interval))
  }

  /** observationDomainId is 149, samplingInterval 34, selectorAlgorithm 304, samplingPacketInterval 305, samplingPacketSpace
      306: one packet, and then the rest of the interval skipped. */
  lemma SamplingHolds(registry: Registry, domain: u32, interval: u32)
    ensures var r := SamplingRecord(registry, domain, interval);
            && Element(r, 149) == Some(Unsigned32(domain)) && Element(r, 34) == Some(Unsigned32(interval))
            && Element(r, 304) == Some(Unsigned16(1)) && Element(r, 305) == Some(Unsigned32(1))
            && (interval > 0 ==> Element(r, 306) == Some(Unsigned32(interval - 1)))
  {
    var r := SamplingRecord(registry, domain, interval);
    forall i: nat | i < 5
      ensures r.fields[i].spec == SAMPLING_TEMPLATE.fields[i]
    {
    }
    hide Resolve, ElementIn;
    ElementFound(r.fields, r.values, 149, 0);
    ElementFound(r.fields, r.values, 34, 1);
    ElementFound(r.fields, r.values, 304, 2);
    ElementFound(r.fields, r.values, 305, 3);
    ElementFound(r.fields, r.values, 306, 4);
  }

  // A record written without widths is the record of its template

  lemma {:induction false} SameFields(fs: Fields, vs: seq<FieldValue>, gs: Fields, ws: seq<FieldValue>)
    requires |fs| == |vs| == |gs| == |ws|
    requires forall i :: 0 <= i < |vs| ==>
      EncodeFieldValue(vs[i], fs[i].spec.length) == EncodeFieldValue(ws[i], gs[i].spec.length)
    ensures EncodeFields(fs, vs) == EncodeFields(gs, ws)
  {
    hide EncodeFieldValue;
    if vs != [] {
      forall i | 0 <= i < |vs| - 1
        ensures EncodeFieldValue(vs[1..][i], fs[1..][i].spec.length) == EncodeFieldValue(ws[1..][i], gs[1..][i].spec.length)
      {
        assert vs[1..][i] == vs[i + 1] && fs[1..][i] == fs[i + 1] && ws[1..][i] == ws[i + 1] && gs[1..][i] == gs[i + 1];
      }
      SameFields(fs[1..], vs[1..], gs[1..], ws[1..]);
    }
  }

  lemma MillisAlike(t: Time)
    ensures Timestamps.Millis(Floored(t)) == Timestamps.Millis(t)
  {
  }

  lemma WidthsAreNatural(f: FlowData, i: nat)
    requires FlowOk(f) && i < 12
    ensures EncodeFieldValue(Values(f)[i], 0) == EncodeFieldValue(Values(FlooredFlow(f))[i], FlowSpecifiers(IsV4(f))[i].length)
  {
    hide ToBE;
    MillisAlike(f.start);
    MillisAlike(f.end);
    var w, length := Values(FlooredFlow(f))[i], FlowSpecifiers(IsV4(f))[i].length;
    assert EncodeFieldValue(w, length) == EncodeFixed(w, length);
    if i < 2 || i == 9 || i == 10 {
      assert EncodeFixed(w, length) == EncodeValue(w);
    }
  }

  lemma SameRecord(registry: Registry, f: FlowData)
    requires FlowOk(f)
    ensures EncodeDataRecord(NewRecord(Values(f))) == EncodeDataRecord(Collected(registry, f))
  {
    hide EncodeFieldValue, Values, FlowSpecifiers;
    var r, c := NewRecord(Values(f)), Collected(registry, f);
    forall i: nat | i < 12
      ensures EncodeFieldValue(r.values[i], r.fields[i].spec.length) == EncodeFieldValue(c.values[i], c.fields[i].spec.length)
    {
      WidthsAreNatural(f, i);
    }
    SameFields(r.fields, r.values, c.fields, c.values);
  }

  // The decoded records are typed to their template

  lemma {:induction false} TypedPointwise(view: View, fields: Fields, vs: seq<FieldValue>, depth: nat)
    requires |fields| == |vs|
    requires forall i :: 0 <= i < |vs| ==> TypedField(view, fields[i].dataType, fields[i].spec.length, vs[i], depth)
    ensures TypedValues(view, fields, vs, depth)
  {
    hide TypedField;
    if vs != [] {
      forall i | 0 <= i < |vs| - 1
        ensures TypedField(view, fields[1..][i].dataType, fields[1..][i].spec.length, vs[1..][i], depth)
      {
        assert vs[1..][i] == vs[i + 1] && fields[1..][i] == fields[i + 1];
      }
      TypedPointwise(view, fields[1..], vs[1..], depth);
    }
  }

  lemma FlowFieldTyped(view: View, f: FlowData, i: nat)
    requires FlowOk(f) && i < 12
    ensures TypedField(view, FlowTypes(IsV4(f))[i], FlowSpecifiers(IsV4(f))[i].length, Values(FlooredFlow(f))[i], 0)
  {
    Pow256Values();
  }

  lemma FlowTyped(view: View, registry: Registry, f: FlowData)
    requires FlowOk(f) && KnowsFlows(registry)
    ensures TypedValues(view, FlowFields(registry, IsV4(f)), Values(FlooredFlow(f)), 0)
  {
    hide TypedField, Values, FlowSpecifiers, FlowTypes;
    var fields := FlowFields(registry, IsV4(f));
    forall i: nat | i < 12
      ensures TypedField(view, fields[i].dataType, fields[i].spec.length, Values(FlooredFlow(f))[i], 0)
    {
      FlowFieldTyped(view, f, i);
      FlowFieldResolved(registry, IsV4(f), i);
    }
    TypedPointwise(view, fields, Values(FlooredFlow(f)), 0);
  }

  lemma FlowFieldResolved(registry: Registry, v4: bool, i: nat)
    requires KnowsFlows(registry) && i < 12
    ensures FlowFields(registry, v4)[i].dataType == FlowTypes(v4)[i]
  {
    assert FlowSpecifiers(v4)[i].enterpriseNumber == None;
  }

  lemma {:induction false} FlowsTyped(view: View, registry: Registry, v4: bool, fs: seq<FlowData>)
    requires KnowsFlows(registry) && forall i :: 0 <= i < |fs| ==> FlowOk(fs[i]) && IsV4(fs[i]) == v4
    ensures TypedRecords(view, FlowFields(registry, v4), CollectedAll(registry, fs), 0)
  {
    hide TypedValues, FlowOk, KnowsFlows, IsV4, FlooredFlow, Values;
    if fs != [] {
      FlowTyped(view, registry, fs[0]);
      FlowsTyped(view, registry, v4, fs[1..]);
      assert CollectedAll(registry, fs)[1..] == CollectedAll(registry, fs[1..]);
    }
  }

  // The template message

  function FlowTemplates(): (ts: seq<TemplateRecord>)
    ensures |ts| == 2
  {
    [FlowTemplate(true), FlowTemplate(false)]
  }

  /** What the template message leaves known. */
  ghost function Taught(config: Config, domain: int, now: nat): State {
    State(map[],
          map[Place(domain, 256) := Entry(FlowFields(config.registry, true), now),
              Place(domain, 257) := Entry(FlowFields(config.registry, false), now)],
          map[Place(domain, 258) := Entry(Resolve(config.registry, SAMPLING_TEMPLATE.fields), now)])
  }

  lemma NothingLearned(registry: Registry, domain: int)
    ensures Types(registry, map[], domain) == registry
  {
  }

  lemma TemplatesTaught(config: Config, domain: int, now: nat)
    requires config.timeout > 0
    ensures DefineTemplates(config, INITIAL, domain, now, FlowTemplates()) == Taught(config, domain, now).(options := map[])
  {
    hide Define, Types, FlowSpecifiers;
    var ts := FlowTemplates();
    var m0: Templates := map[];
    NothingLearned(config.registry, domain);
    DefinedLive(m0, config.registry, domain, now, config.timeout, TEMPLATE_SET_ID, ts[0]);
    var m1 := m0[Place(domain, FLOW_IPV4_TEMPLATE_ID) := Entry(FlowFields(config.registry, true), now)];
    DefinedLive(m1, config.registry, domain, now, config.timeout, TEMPLATE_SET_ID, ts[1]);
    var st1 := INITIAL.(templates := m1);
    assert ts[1..] == [ts[1]] && ts[1..][1..] == [];
    assert DefineTemplates(config, INITIAL, domain, now, ts) == DefineTemplates(config, st1, domain, now, ts[1..]);
  }

  lemma OptionsTaught(config: Config, domain: int, now: nat)
    requires config.timeout > 0
    ensures DefineOptions(config, Taught(config, domain, now).(options := map[]), domain, now, [SAMPLING_TEMPLATE])
         == Taught(config, domain, now)
  {
    hide Define, Types, FlowSpecifiers;
    NothingLearned(config.registry, domain);
    var t := TemplateRecord(SAMPLING_TEMPLATE.templateId, 5, SAMPLING_TEMPLATE.fields);
    var none: Templates := map[];
    DefinedLive(none, config.registry, domain, now, config.timeout, OPTIONS_TEMPLATE_SET_ID, t);
    assert [SAMPLING_TEMPLATE][1..] == [];
  }

  function TemplateMessage(header: Header): Packet {
    Packet(header, TemplateSets(FlowTemplates(), SAMPLING_TEMPLATE))
  }

  lemma FlowTemplatesOk()
    ensures forall i :: 0 <= i < 2 ==> TemplateOk(FlowTemplates()[i])
    ensures OptionsTemplateOk(SAMPLING_TEMPLATE)
  {
    FlowSpecifiersOk(true);
    FlowSpecifiersOk(false);
  }

  lemma FlowSpecifiersOk(v4: bool)
    ensures SpecifiersOk(FlowSpecifiers(v4))
  {
  }

  lemma {:induction false} SpecifiersSize(fields: seq<FieldSpecifier>)
    requires forall i :: 0 <= i < |fields| ==> fields[i].enterpriseNumber == None
    ensures |EncodeSpecifiers(fields)| == 4 * |fields|
  {
    if fields != [] {
      SpecifiersSize(fields[1..]);
    }
  }

  lemma TemplateSize(t: TemplateRecord)
    requires forall i :: 0 <= i < |t.fields| ==> t.fields[i].enterpriseNumber == None
    ensures |EncodeTemplate(t)| == 4 + 4 * |t.fields|
  {
    hide ToBE, EncodeSpecifiers;
    SpecifiersSize(t.fields);
  }

  lemma TemplateMessageSize()
    ensures |EncodeRecords(TemplateRecords(FlowTemplates()))| == 104
    ensures |EncodeRecords(OptionsTemplateRecords([SAMPLING_TEMPLATE]))| == 26
  {
    hide EncodeTemplate, EncodeSpecifiers, ToBE, FlowSpecifiers;
    FlowSpecifiersPlain(true);
    FlowSpecifiersPlain(false);
    TemplateSize(FlowTemplate(true));
    TemplateSize(FlowTemplate(false));
    SpecifiersSize(SAMPLING_TEMPLATE.fields);
    var rs := TemplateRecords(FlowTemplates());
    assert rs[1..][1..] == [];
    assert EncodeRecords(rs) == EncodeRecord(rs[0]) + (EncodeRecord(rs[1]) + EncodeRecords(rs[1..][1..]));
    var os := OptionsTemplateRecords([SAMPLING_TEMPLATE]);
    assert os[1..] == [];
  }

  lemma FlowSpecifiersPlain(v4: bool)
    ensures forall i :: 0 <= i < 12 ==> FlowSpecifiers(v4)[i].enterpriseNumber == None
  {
  }

  /** A collector that knows nothing learns the templates from their message. */
  lemma TemplatesReceived(config: Config, header: Header, now: nat)
    requires config.timeout > 0 && header.version == IPFIX_VERSION
    ensures ParseMessage(config, INITIAL, now, EncodePacket(TemplateMessage(header))).0.Ok?
    ensures ParseMessage(config, INITIAL, now, EncodePacket(TemplateMessage(header))).1
         == Taught(config, header.domain, now)
  {
    hide EncodeRecords, TemplateOk, OptionsTemplateOk, DefineTemplates, DefineOptions, FlowTemplates, ParseTemplates,
      ParseOptionsTemplates, ParseMessage, EncodeHeader, Taught;
    var p, d := TemplateMessage(header), header.domain;
    var ts, os := FlowTemplates(), [SAMPLING_TEMPLATE];
    FlowTemplatesOk();
    TemplatesAmong(ts);
    OptionsTemplatesAmong(os);
    TemplateMessageSize();
    var s0, s1 := p.sets[0], p.sets[1];
    assert s0.records == TemplateRecords(ts) && s1.records == OptionsTemplateRecords(os);
    assert LiveState(config, INITIAL, now) == INITIAL;
    TemplatesTaught(config, d, now);
    OptionsTaught(config, d, now);
    assert p.sets[1..] == [s1] && p.sets[1..][1..] == [];
    var st1 := After(config, INITIAL, d, now, s0);
    var st2 := After(config, st1, d, now, s1);
    assert st2 == Taught(config, d, now);
    assert SetsOk(config, st2, d, now, []) && SetsOk(config, st1, d, now, [s1]);
    assert AfterAll(config, st1, d, now, [s1]) == AfterAll(config, st2, d, now, []) == st2;
    assert EncodeSets(p.sets) == EncodeSet(s0) + (EncodeSet(s1) + EncodeSets([]));
    MessageReceived(config, INITIAL, now, p, []);
    assert EncodePacket(p) + [] == EncodePacket(p);
  }

  // Data messages

  /** Flows of one family, as one data message carries them. */
  ghost predicate OneFamily(fs: seq<FlowData>) {
    fs != [] && forall i :: 0 <= i < |fs| ==> FlowOk(fs[i]) && IsV4(fs[i]) == IsV4(fs[0])
  }

  /** The set a data message's flows decode as. */
  function FlowSet(registry: Registry, fs: seq<FlowData>): Set
    requires fs != []
  {
    Set(TemplateId(fs[0]), 0,
        seq(|fs|, i requires 0 <= i < |fs| => Data(Collected(registry, fs[i]))))
  }

  lemma {:induction false} SameRecords(registry: Registry, fs: seq<FlowData>)
    requires forall i :: 0 <= i < |fs| ==> FlowOk(fs[i])
    ensures EncodeRecords(DataRecordsOf(ToOutgoingAll(fs))) == EncodeDataRecords(CollectedAll(registry, fs))
  {
    hide EncodeDataRecord, FlowOk, Values;
    if fs != [] {
      SameRecord(registry, fs[0]);
      SameRecords(registry, fs[1..]);
      assert DataRecordsOf(ToOutgoingAll(fs))[1..] == DataRecordsOf(ToOutgoingAll(fs[1..]));
      assert CollectedAll(registry, fs)[1..] == CollectedAll(registry, fs[1..]);
    }
  }

  lemma {:induction false} NarrowFields(fields: Fields, vs: seq<FieldValue>)
    requires forall i :: 0 <= i < |vs| && i < |fields| ==> |EncodeFieldValue(vs[i], fields[i].spec.length)| <= 16
    ensures |EncodeFields(fields, vs)| <= 16 * |vs|
  {
    hide EncodeFieldValue;
    if fields != [] && vs != [] {
      NarrowFields(fields[1..], vs[1..]);
    }
  }

  lemma NarrowValue(f: FlowData, i: nat)
    requires FlowOk(f) && i < 12
    ensures |EncodeFieldValue(Values(f)[i], 0)| <= 16
  {
    hide ToBE;
  }

  lemma FlowFits(f: FlowData)
    requires FlowOk(f)
    ensures Size(ToOutgoing(f)) <= 192
  {
    hide EncodeFieldValue, Values, FlowOk;
    var r := NewRecord(Values(f));
    forall i: nat | i < 12
      ensures |EncodeFieldValue(r.values[i], r.fields[i].spec.length)| <= 16
    {
      NarrowValue(f, i);
    }
    NarrowFields(r.fields, r.values);
  }

  lemma TaughtView(config: Config, domain: int, now: nat, v4: bool)
    ensures var view := ViewOf(config, Taught(config, domain, now), domain);
            view.types == config.registry
            && (if v4 then FLOW_IPV4_TEMPLATE_ID else FLOW_IPV6_TEMPLATE_ID) in view.templates
            && view.FieldsOf(if v4 then FLOW_IPV4_TEMPLATE_ID else FLOW_IPV6_TEMPLATE_ID)
               == Some(FlowFields(config.registry, v4))
  {
    hide FlowSpecifiers, Resolve, Types;
    NothingLearned(config.registry, domain);
    var st, id := Taught(config, domain, now), if v4 then FLOW_IPV4_TEMPLATE_ID else FLOW_IPV6_TEMPLATE_ID;
    IpfixParsing.FieldsAt(st.templates, domain, id);
  }

  /** Data teaches nothing and refreshes nothing. */
  lemma {:induction false} NothingFromData(registry: Registry, domain: int, rs: seq<Record>)
    requires forall i :: 0 <= i < |rs| ==> rs[i].Data?
    ensures LearnRecords(registry, map[], domain, rs) == map[]
  {
    if rs != [] {
      NothingFromData(registry, domain, rs[1..]);
    }
  }

  lemma TaughtUnchanged(config: Config, domain: int, now: nat, rs: seq<Record>)
    requires forall i :: 0 <= i < |rs| ==> rs[i].Data?
    ensures LearnTypes(config, Taught(config, domain, now), domain, rs) == Taught(config, domain, now)
  {
    hide Types, FlowSpecifiers, Resolve, Specifiers;
    NothingFromData(config.registry, domain, rs);
    NothingLearned(config.registry, domain);
    SpecifiersOfResolve(config.registry, FlowSpecifiers(true));
    SpecifiersOfResolve(config.registry, FlowSpecifiers(false));
    SpecifiersOfResolve(config.registry, SAMPLING_TEMPLATE.fields);
  }

  lemma FlowSetOk(config: Config, domain: int, taught: nat, now: nat, fs: seq<FlowData>)
    requires OneFamily(fs) && KnowsFlows(config.registry)
    ensures var st, s := Taught(config, domain, taught), FlowSet(config.registry, fs);
            && RecordsOk(config, st, domain, s.id, s.records)
            && EncodeRecords(s.records) == EncodeRecords(DataRecordsOf(ToOutgoingAll(fs)))
            && After(config, st, domain, now, s) == st
  {
    hide Taught, FlowFields, TypedRecords, FlowOk, KnowsFlows, ViewOf, LearnTypes, ParseTemplated, EncodeRecords, Values, FlooredFlow;
    var st, s := Taught(config, domain, taught), FlowSet(config.registry, fs);
    var v4 := IsV4(fs[0]);
    var view, ds := ViewOf(config, st, domain), CollectedAll(config.registry, fs);
    TaughtView(config, domain, taught, v4);
    FlowsTyped(view, config.registry, v4, fs);
    FlowsConsume(config.registry, v4);
    assert TypedTemplated(view, s.id, ds, 0);
    assert s.records == Wrap(view, s.id, ds);
    WrappedRecords(view, s.id, ds);
    SameRecords(config.registry, fs);
    TaughtUnchanged(config, domain, taught, s.records);
  }

  lemma FlowsConsume(registry: Registry, v4: bool)
    ensures FlowFields(registry, v4) != [] && Consuming(FlowFields(registry, v4))
  {
  }

  /** A data message decodes to its flows' records, and changes nothing known. */
  lemma FlowsReceived(config: Config, header: Header, taught: nat, now: nat, fs: seq<FlowData>)
    requires OneFamily(fs) && OneMessage(ToOutgoingAll(fs)) && KnowsFlows(config.registry)
    requires taught <= now < taught + config.timeout && header.version == IPFIX_VERSION
    ensures var st := Taught(config, header.domain, taught);
            var (r, st') := ParseMessage(config, st, now, EncodePacket(Packet(header, [MessageSet(ToOutgoingAll(fs))])));
            && r.Ok? && st' == st && |r.value.sets| == 1
            && r.value.sets[0].records == FlowSet(config.registry, fs).records
  {
    hide Taught, RecordsOk, EncodeRecords, EncodeHeader, ParseMessage, OneMessage, FlowOk, KnowsFlows, ToBE, After;
    var st, d, s := Taught(config, header.domain, taught), header.domain, FlowSet(config.registry, fs);
    var part := ToOutgoingAll(fs);
    var sent, p := Packet(header, [MessageSet(part)]), Packet(header, [s]);
    FlowSetOk(config, d, taught, now, fs);
    assert MessageSet(part).id == s.id;
    forall i | 0 <= i < |part|
      ensures Size(part[i]) <= MAX_SET_BODY
    {
      FlowFits(fs[i]);
    }
    MessageFits(part, header);
    assert [s][1..] == [] && [MessageSet(part)][1..] == [];
    assert EncodeSets([s]) == EncodeSet(s) + EncodeSets([]);
    assert EncodeSets([MessageSet(part)]) == EncodeSet(MessageSet(part)) + EncodeSets([]);
    assert EncodePacket(p) == EncodePacket(sent);
    StillLive(config, d, taught, now);
    assert SetsOk(config, st, d, now, []);
    assert SetsOk(config, st, d, now, [s]);
    assert AfterAll(config, st, d, now, [s]) == AfterAll(config, st, d, now, []) == st;
    MessageReceived(config, st, now, p, []);
    assert EncodePacket(p) + [] == EncodePacket(p);
  }

  lemma StillLive(config: Config, domain: int, taught: nat, now: nat)
    requires taught <= now < taught + config.timeout
    ensures LiveState(config, Taught(config, domain, taught), now) == Taught(config, domain, taught)
  {
  }

  // Whole exports

  /** IPv4 flows first, each family in its own order. */
  function ByFamily(fs: seq<FlowData>): seq<FlowData> {
    Family(fs, true) + Family(fs, false)
  }

  function Family(fs: seq<FlowData>, v4: bool): seq<FlowData> {
    if fs == [] then []
    else (if IsV4(fs[0]) == v4 then [fs[0]] else []) + Family(fs[1..], v4)
  }

  method Partition(fs: seq<FlowData>) returns (ipv4: seq<FlowData>, ipv6: seq<FlowData>)
    ensures ipv4 == Family(fs, true) && ipv6 == Family(fs, false)
  {
    ipv4, ipv6 := [], [];
    for i := 0 to |fs|
      invariant ipv4 + Family(fs[i..], true) == Family(fs, true)
      invariant ipv6 + Family(fs[i..], false) == Family(fs, false)
    {
      assert fs[i..][0] == fs[i] && fs[i..][1..] == fs[i + 1..];
      if fs[i].sourceIp.V4? {
        ipv4 := ipv4 + [fs[i]];
      } else {
        ipv6 := ipv6 + [fs[i]];
      }
    }
  }

  lemma {:induction false} FamilyOk(fs: seq<FlowData>, v4: bool)
    requires forall i :: 0 <= i < |fs| ==> FlowOk(fs[i])
    ensures forall i :: 0 <= i < |Family(fs, v4)| ==> FlowOk(Family(fs, v4)[i]) && IsV4(Family(fs, v4)[i]) == v4
  {
    hide FlowOk;
    if fs != [] {
      FamilyOk(fs[1..], v4);
    }
  }

  /** The records of what a collector parsed, in order. */
  function RecordsOf(p: Packet): seq<DataRecord> {
    RecordsOfSets(p.sets)
  }

  function RecordsOfSets(sets: seq<Set>): seq<DataRecord> {
    if sets == [] then [] else DataOf(sets[0].records) + RecordsOfSets(sets[1..])
  }

  function DataOf(rs: seq<Record>): seq<DataRecord> {
    if rs == [] then [] else (if rs[0].Data? then [rs[0].record] else []) + DataOf(rs[1..])
  }

  lemma {:induction false} DataOfFlows(registry: Registry, fs: seq<FlowData>)
    requires fs != []
    ensures DataOf(FlowSet(registry, fs).records) == CollectedAll(registry, fs)
  {
    hide Collected;
    var rs := FlowSet(registry, fs).records;
    if |fs| == 1 {
      assert rs[1..] == [];
    } else {
      DataOfFlows(registry, fs[1..]);
      assert rs[1..] == FlowSet(registry, fs[1..]).records;
      assert CollectedAll(registry, fs) == [Collected(registry, fs[0])] + CollectedAll(registry, fs[1..]);
    }
  }

  lemma {:induction false} AllDatagrams(tried: seq<Attempt>)
    requires AllDelivered(tried, 0)
    ensures |Datagrams(tried)| == |tried|
    ensures forall i :: 0 <= i < |tried| ==> Datagrams(tried)[i] == EncodePacket(tried[i].packet)
  {
    hide EncodePacket;
    if tried != [] {
      AllDatagrams(tried[..|tried| - 1]);
    }
  }

  /** A message's part is a stretch of the flows. */
  lemma PartOfFlows(fs: seq<FlowData>, part: seq<Outgoing>, more: seq<Outgoing>)
    requires ToOutgoingAll(fs) == part + more
    ensures |part| <= |fs| && part == ToOutgoingAll(fs[..|part|]) && more == ToOutgoingAll(fs[|part|..])
  {
    var all := ToOutgoingAll(fs);
    assert part == all[..|part|] && more == all[|part|..];
  }

  lemma OneTemplateOneFamily(fs: seq<FlowData>)
    requires OneMessage(ToOutgoingAll(fs)) && forall i :: 0 <= i < |fs| ==> FlowOk(fs[i])
    ensures OneFamily(fs)
  {
    hide FlowOk, Values;
    var part := ToOutgoingAll(fs);
    assert forall i :: 0 <= i < |fs| ==> part[i].templateId == TemplateId(fs[i]);
  }

  /** The template message, and one data message per part. */
  ghost predicate IsExport(domain: u32, wire: seq<bytes>, headers: seq<Header>, parts: seq<seq<Outgoing>>) {
    && |wire| == |headers| == 1 + |parts|
    && (forall k :: 0 <= k < |headers| ==>
          headers[k].version == IPFIX_VERSION && headers[k].domain == domain)
    && wire[0] == EncodePacket(TemplateMessage(headers[0]))
    && (forall k :: 0 <= k < |parts| ==>
          parts[k] != [] && wire[k + 1] == EncodePacket(Packet(headers[k + 1], [MessageSet(parts[k])])))
  }

  lemma TemplateMessageSmall(header: Header)
    ensures |EncodePacket(TemplateMessage(header))| <= 1400
  {
    hide EncodeRecords, ToBE, FlowTemplates, TemplateRecords, OptionsTemplateRecords;
    TemplateMessageSize();
    var sets := TemplateMessage(header).sets;
    assert sets[1..][1..] == [];
    assert EncodeSets(sets) == EncodeSet(sets[0]) + (EncodeSet(sets[1]) + EncodeSets(sets[1..][1..]));
    assert sets[0].records == TemplateRecords(FlowTemplates());
    assert sets[1].records == OptionsTemplateRecords([SAMPLING_TEMPLATE]);
    assert |EncodeSet(sets[0])| == 108 && |EncodeSet(sets[1])| == 30;
  }

  lemma {:induction false} InConcat(parts: seq<seq<Outgoing>>, k: nat, i: nat)
    requires k < |parts| && i < |parts[k]|
    ensures parts[k][i] in Concat(parts)
  {
    if k > 0 {
      InConcat(parts[1..], k - 1, i);
    }
  }

  /** No datagram is larger than a message may be. */
  lemma ExportFits(
    domain: u32, wire: seq<bytes>, headers: seq<Header>, parts: seq<seq<Outgoing>>, flows: seq<FlowData>)
    requires IsExport(domain, wire, headers, parts) && IsSplit(ToOutgoingAll(ByFamily(flows)), parts)
    ensures (forall i :: 0 <= i < |flows| ==> FlowOk(flows[i])) ==>
      forall k :: 0 <= k < |wire| ==> |wire[k]| <= 1400
  {
    hide FlowOk, EncodePacket, Concat, Size, MessageSet, OneMessage, TemplateMessage, ToOutgoing, Family;
    if forall i :: 0 <= i < |flows| ==> FlowOk(flows[i]) {
      FamilyOk(flows, true);
      FamilyOk(flows, false);
      var fs := ByFamily(flows);
      TemplateMessageSmall(headers[0]);
      forall k | 0 <= k < |wire|
        ensures |wire[k]| <= 1400
      {
        if k > 0 {
          var part := parts[k - 1];
          assert wire[(k - 1) + 1] == EncodePacket(Packet(headers[(k - 1) + 1], [MessageSet(part)]));
          forall i | 0 <= i < |part|
            ensures Size(part[i]) <= MAX_SET_BODY
          {
            InConcat(parts, k - 1, i);
            var j :| 0 <= j < |fs| && ToOutgoingAll(fs)[j] == part[i];
            FlowFits(fs[j]);
          }
          MessageFits(part, headers[k]);
        }
      }
    }
  }

  method Export(domain: u32, flows: seq<FlowData>, clock: nat -> Time)
    returns (wire: seq<bytes>, ghost headers: seq<Header>, ghost parts: seq<seq<Outgoing>>)
    ensures IsExport(domain, wire, headers, parts) && IsSplit(ToOutgoingAll(ByFamily(flows)), parts)
    ensures forall other :: IsSplit(ToOutgoingAll(ByFamily(flows)), other) ==> |wire| <= 1 + |other|
    ensures (forall i :: 0 <= i < |flows| ==> FlowOk(flows[i])) ==>
      forall k :: 0 <= k < |wire| ==> |wire[k]| <= 1400
  {
    hide FlowOk, Values, Packed, Greedy, Concat, EncodePacket, FlowTemplates, SequenceCorrect, RecordsSent, Family, Datagrams,
      ToOutgoing, TotalSize, Size, TemplateSets, CountDataInSets;
    var exporter := new Exporter(domain, n => false, clock);
    var _ := exporter.SendTemplates(FlowTemplates(), SAMPLING_TEMPLATE);
    ghost var taught := exporter.tried;
    assert |taught| == 1 && taught[0].packet.sets == TemplateSets(FlowTemplates(), SAMPLING_TEMPLATE);
    var ipv4, ipv6 := Partition(flows);
    var rs := ToOutgoingAll(ipv4 + ipv6);
    var _ := exporter.SendRecords(rs);
    GreedyIsSplit(rs);
    wire, parts := exporter.wire, Greedy(rs);
    ghost var tried := exporter.tried;
    headers := seq(|tried|, i requires 0 <= i < |tried| => tried[i].packet.header);
    AllDatagrams(tried);
    assert tried[0] == taught[0];
    forall k | 0 <= k < |parts|
      ensures parts[k] != [] && tried[k + 1].packet.sets == [MessageSet(parts[k])]
    {
      assert OneMessage(parts[k]);
      assert Sets(tried[1..])[k] == tried[k + 1].packet.sets;
    }
    ExportFits(domain, wire, headers, parts, flows);
    forall other | IsSplit(rs, other)
      ensures |wire| <= 1 + |other|
    {
      GreedyIsOptimal(rs, other);
    }
  }

  /** The parser takes one data message and gives its flows' records. */
  method CollectOne(
      parser: IpfixParsing.IpfixParser, octets: bytes, now: nat, ghost before: nat, ghost taught: nat,
      ghost header: Header, ghost fs: seq<FlowData>)
    returns (records: seq<DataRecord>)
    requires parser.Valid() && parser.By(before) && taught <= before <= now < taught + parser.config.timeout
    requires parser.StateAt(before) == Taught(parser.config, header.domain, taught)
    requires KnowsFlows(parser.config.registry) && OneMessage(ToOutgoingAll(fs)) && OneFamily(fs)
    requires header.version == IPFIX_VERSION
    requires octets == EncodePacket(Packet(header, [MessageSet(ToOutgoingAll(fs))]))
    modifies parser.elementTypes, parser.templates, parser.options
    ensures parser.Valid() && parser.By(now)
    ensures parser.StateAt(now) == Taught(parser.config, header.domain, taught)
    ensures records == CollectedAll(parser.config.registry, fs)
  {
    hide Taught, KnowsFlows, ParseMessage, OneMessage, EncodePacket, Collected, IpfixParsing.IpfixParser.Valid, DataOf;
    parser.StateLater(before, now);
    StillLive(parser.config, header.domain, taught, now);
    FlowsReceived(parser.config, header, taught, now, fs);
    var r := parser.Parse(octets, now);
    DataOfFlows(parser.config.registry, fs);
    records := RecordsOf(r.value);
    assert r.value.sets[1..] == [] && RecordsOfSets([]) == [];
    assert records == DataOf(r.value.sets[0].records) + RecordsOfSets(r.value.sets[1..]);
  }

  /** The next part is a stretch of the flows left, all of one family. */
  lemma NextPart(registry: Registry, parts: seq<seq<Outgoing>>, left: seq<FlowData>) returns (n: nat)
    requires parts != [] && OneMessage(parts[0]) && Concat(parts) == ToOutgoingAll(left)
    requires forall i :: 0 <= i < |left| ==> FlowOk(left[i])
    ensures n <= |left| && OneFamily(left[..n])
    ensures parts[0] == ToOutgoingAll(left[..n]) && Concat(parts[1..]) == ToOutgoingAll(left[n..])
    ensures CollectedAll(registry, left) == CollectedAll(registry, left[..n]) + CollectedAll(registry, left[n..])
  {
    hide FlowOk, Collected, ToOutgoing, OneFamily, OneMessage;
    n := |parts[0]|;
    PartOfFlows(left, parts[0], Concat(parts[1..]));
    OneTemplateOneFamily(left[..n]);
  }

  method CollectFlows(
      config: Config, wire: seq<bytes>, arrival: nat -> nat,
      ghost domain: u32, ghost headers: seq<Header>, ghost parts: seq<seq<Outgoing>>, ghost fs: seq<FlowData>)
    returns (collected: seq<DataRecord>)
    requires KnowsFlows(config.registry) && config.timeout > 0
    requires forall m, n :: m <= n ==> arrival(m) <= arrival(n) < arrival(0) + config.timeout
    requires IsExport(domain, wire, headers, parts) && IsSplit(ToOutgoingAll(fs), parts)
    requires forall i :: 0 <= i < |fs| ==> FlowOk(fs[i])
    ensures collected == CollectedAll(config.registry, fs)
  {
    hide Taught, FlowOk, KnowsFlows, ParseMessage, OneMessage, OneFamily, EncodePacket, Collected, FlowTemplates,
      IpfixParsing.IpfixParser.Valid, ToOutgoing, MessageSet;
    var parser := new IpfixParsing.IpfixParser(config, arrival(0));
    TemplatesReceived(config, headers[0], arrival(0));
    var _ := parser.Parse(wire[0], arrival(0));
    collected := [];
    ghost var left := fs;
    for k := 1 to |wire|
      invariant parser.Valid() && parser.config == config && parser.By(arrival(k - 1))
      invariant fresh(parser.elementTypes) && fresh(parser.templates) && fresh(parser.options)
      invariant parser.StateAt(arrival(k - 1)) == Taught(config, domain, arrival(0))
      invariant Concat(parts[k - 1..]) == ToOutgoingAll(left)
      invariant forall i :: 0 <= i < |left| ==> FlowOk(left[i])
      invariant collected + CollectedAll(config.registry, left) == CollectedAll(config.registry, fs)
    {
      assert parts[k - 1..][0] == parts[k - 1] && parts[k - 1..][1..] == parts[k..];
      ghost var n := NextPart(config.registry, parts[k - 1..], left);
      var records := CollectOne(parser, wire[k], arrival(k), arrival(k - 1), arrival(0), headers[k], left[..n]);
      Regroup(collected, records, CollectedAll(config.registry, left[n..]));
      collected := collected + records;
      left := left[n..];
    }
    assert parts[|parts|..] == [] && ToOutgoingAll(left) == [];
    assert left == [];
  }

  /** Exporting flows over a socket that loses nothing, to a collector they reach within the template timeout,
      gives back every flow: times floored to milliseconds, IPv4 before IPv6, each family in order. */
  method ExportAndCollect(
      config: Config, domain: u32, flows: seq<FlowData>, clock: nat -> Time, arrival: nat -> nat)
    returns (collected: seq<DataRecord>)
    requires KnowsFlows(config.registry) && config.timeout > 0
    requires forall i :: 0 <= i < |flows| ==> FlowOk(flows[i])
    requires forall m, n :: m <= n ==> arrival(m) <= arrival(n) < arrival(0) + config.timeout
    ensures collected == CollectedAll(config.registry, ByFamily(flows))
    ensures |collected| == |ByFamily(flows)| && forall i :: 0 <= i < |collected| ==> HoldsFlow(collected[i], ByFamily(flows)[i])
  {
    hide FlowOk, KnowsFlows, IsExport, IsSplit, CollectedAll, ToOutgoingAll, Collected, HoldsFlow;
    var wire, headers, parts := Export(domain, flows, clock);
    FamilyOk(flows, true);
    FamilyOk(flows, false);
    collected := CollectFlows(config, wire, arrival, domain, headers, parts, ByFamily(flows));
    forall i | 0 <= i < |collected|
      ensures HoldsFlow(collected[i], ByFamily(flows)[i])
    {
      CollectedHolds(config.registry, ByFamily(flows)[i]);
    }
  }
}
