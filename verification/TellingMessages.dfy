/** Two messages that tell states apart: one teaches an element's type, one uses an element. */
module TellingMessages {
  import opened Bytes
  import opened Ipfix
  import opened TwoLevels
  import opened TemplateCaching
  import opened Collecting
  import opened Encoding
  import opened Decoding
  import opened RoundTrip
  import opened MessageRoundTrip
  import opened Forgetting
  import Domains
  import Typing = ElementTyping

  predicate IsUnsigned(registry: Registry, id: u16) {
    var key := ElementKey(id, None);
    key in registry && registry[key].dataType == UnsignedType
  }

  /** The elements these messages use are the registry's: those of type records, selectors, and uptimes. */
  predicate KnowsElements(registry: Registry) {
    && (forall i :: 0 <= i < 3 ==> IsUnsigned(registry, TYPE_SPECIFIERS[i].id))
    && IsUnsigned(registry, Domains.SELECTOR_ID) && IsUnsigned(registry, Domains.FLOW_START_SYS_UP_TIME)
  }

  const TYPE_TEMPLATE_ID: u16 := 256
  const USE_TEMPLATE_ID: u16 := 257

  function HeaderOf(domain: u32): Header {
    Header(IPFIX_VERSION, 0, 0, 0, domain)
  }

  function TypeTemplate(): OptionsTemplateRecord {
    OptionsTemplateRecord(TYPE_TEMPLATE_ID, 3, 1, TYPE_SPECIFIERS)
  }

  /** It teaches the element's type: an options template, and a type record. */
  function TeachingMessage(registry: Registry, domain: u32, key: ElementKey): Packet {
    Packet(HeaderOf(domain), [
      Set(OPTIONS_TEMPLATE_SET_ID, 0, [OptionsTemplate(TypeTemplate())]),
      Set(TYPE_TEMPLATE_ID, 0, [OptionsData(TypeRecord(registry, key))])])
  }

  function UseTemplate(spec: FieldSpecifier): TemplateRecord {
    TemplateRecord(USE_TEMPLATE_ID, 1, [spec])
  }

  /** It uses the field's element: a template with it alone, and a record. */
  function UsingMessage(domain: u32, field: ResolvedField, v: FieldValue): Packet {
    Packet(HeaderOf(domain), [
      Set(TEMPLATE_SET_ID, 0, [Template(UseTemplate(field.spec))]),
      Set(USE_TEMPLATE_ID, 0, [Data(DataRecord([field], [v]))])])
  }

  /** No template is cached, and every options template is live. */
  ghost predicate Ready(config: Config, st: State, now: nat) {
    st.templates == map[] && Live(st.options, now, config.timeout) == st.options
  }

  lemma TwoSets(config: Config, st: State, domain: u32, now: nat, s0: Set, s1: Set)
    requires Small(s0) && Small(s1) && RecordsOk(config, st, domain, s0.id, s0.records)
    requires RecordsOk(config, After(config, st, domain, now, s0), domain, s1.id, s1.records)
    ensures SetsOk(config, st, domain, now, [s0, s1])
    ensures AfterAll(config, st, domain, now, [s0, s1]) == After(config, After(config, st, domain, now, s0), domain, now, s1)
    ensures |EncodeSets([s0, s1])| == 2 * SET_HEADER_SIZE + |EncodeRecords(s0.records)| + |EncodeRecords(s1.records)|
  {
    hide RecordsOk, Small, After, EncodeRecords;
    assert [s0, s1][1..] == [s1] && [s1][1..] == [];
    assert EncodeSets([s0, s1]) == EncodeSet(s0) + (EncodeSet(s1) + EncodeSets([]));
    var st1 := After(config, st, domain, now, s0);
    var st2 := After(config, st1, domain, now, s1);
    assert SetsOk(config, st2, domain, now, []) && AfterAll(config, st2, domain, now, []) == st2;
    assert SetsOk(config, st1, domain, now, [s1]) && AfterAll(config, st1, domain, now, [s1]) == st2;
  }

  lemma OneRecord(r: Record)
    ensures EncodeRecords([r]) == EncodeRecord(r)
  {
    hide EncodeRecord;
    assert [r][1..] == [] && EncodeRecord(r) + [] == EncodeRecord(r);
  }

  /** The registry's definitions come before anything learned. */
  lemma RegistryField(registry: Registry, known: Typing.Known, domain: int, spec: FieldSpecifier)
    requires spec.enterpriseNumber == None && IsUnsigned(registry, spec.id)
    ensures ResolveField(Types(registry, known, domain), spec) == ResolveField(registry, spec)
    ensures ResolveField(registry, spec).dataType == UnsignedType && ResolveField(registry, spec).spec == spec
  {
    TypesAt(registry, known, domain, ElementKey(spec.id, None));
  }

  // Teaching

  function TypeFields(registry: Registry): Fields {
    Resolve(registry, TYPE_SPECIFIERS)
  }

  lemma TypeFieldsKnown(registry: Registry, known: Typing.Known, domain: int)
    requires KnowsElements(registry)
    ensures Resolve(Types(registry, known, domain), TYPE_SPECIFIERS) == TypeFields(registry)
    ensures var fields := TypeFields(registry);
            forall i :: 0 <= i < 3 ==> fields[i].spec == TYPE_SPECIFIERS[i] && fields[i].dataType == UnsignedType
  {
    hide Types, ResolveField, IsUnsigned;
    forall i | 0 <= i < 3
      ensures ResolveField(Types(registry, known, domain), TYPE_SPECIFIERS[i]) == ResolveField(registry, TYPE_SPECIFIERS[i])
      ensures ResolveField(registry, TYPE_SPECIFIERS[i]).dataType == UnsignedType
      ensures ResolveField(registry, TYPE_SPECIFIERS[i]).spec == TYPE_SPECIFIERS[i]
    {
      RegistryField(registry, known, domain, TYPE_SPECIFIERS[i]);
    }
  }

  /** What is known once the options template is. */
  function TypesDefined(config: Config, known: Typing.Known, domain: u32, now: nat): State {
    State(known, map[], map[Place(domain, TYPE_TEMPLATE_ID) := Entry(TypeFields(config.registry), now)])
  }

  lemma TypeTemplateReceived(config: Config, known: Typing.Known, domain: u32, now: nat)
    requires config.timeout > 0 && KnowsElements(config.registry)
    ensures var st, s := State(known, map[], map[]), Set(OPTIONS_TEMPLATE_SET_ID, 0, [OptionsTemplate(TypeTemplate())]);
            && RecordsOk(config, st, domain, s.id, s.records) && |EncodeRecords(s.records)| == 18
            && After(config, st, domain, now, s) == TypesDefined(config, known, domain, now)
  {
    hide EncodeOptionsTemplate, Define, Types, Resolve, KnowsElements;
    var ts, rs := [TypeTemplate()], [OptionsTemplate(TypeTemplate())];
    assert rs == OptionsTemplateRecords(ts);
    TypeTemplateOk();
    OptionsTemplatesAmong(ts);
    OneRecord(rs[0]);
    assert ts[1..] == [];
    var none: Templates := map[];
    var t := TemplateRecord(TYPE_TEMPLATE_ID, 3, TYPE_SPECIFIERS);
    TypeFieldsKnown(config.registry, known, domain);
    DefinedLive(none, Types(config.registry, known, domain), domain, now, config.timeout, OPTIONS_TEMPLATE_SET_ID, t);
    var st, st' := State(known, map[], map[]), TypesDefined(config, known, domain, now);
    assert DefineOptions(config, st', domain, now, ts[1..]) == st';
    assert DefineOptions(config, st, domain, now, ts) == st';
  }

  lemma TypeTemplateOk()
    ensures OptionsTemplateOk(TypeTemplate()) && |EncodeOptionsTemplate(TypeTemplate())| == 18
  {
    hide ToBE;
    var fs := TYPE_SPECIFIERS;
    assert fs[1..][1..] == fs[2..] && fs[2..][1..] == [];
    assert |EncodeSpecifiers(fs[2..])| == 4;
    assert |EncodeSpecifiers(fs[1..])| == 8;
    assert |EncodeSpecifiers(fs)| == 12;
  }

  lemma TypeFieldsSeen(config: Config, known: Typing.Known, domain: u32, now: nat)
    ensures var view := ViewOf(config, TypesDefined(config, known, domain, now), domain);
            view.FieldsOf(TYPE_TEMPLATE_ID) == Some(TypeFields(config.registry)) && TYPE_TEMPLATE_ID !in view.templates
  {
    hide Types;
    assert Place(domain, TYPE_TEMPLATE_ID) in TypesDefined(config, known, domain, now).options;
  }

  lemma ScalarField(view: View, field: ResolvedField, v: FieldValue)
    requires IsScalar(v) && !field.dataType.IsList() && 0 < field.spec.length < VARIABLE_LENGTH
    requires ScalarTyped(field.dataType, field.spec.length, v)
    ensures TypedField(view, field.dataType, field.spec.length, v, 0)
    ensures |EncodeFieldValue(v, field.spec.length)| == field.spec.length
  {
    hide ScalarTyped, EncodeFixed;
    ScalarRoundTrip(field.dataType, field.spec.length, v);
  }

  /** One more field in front. */
  lemma FieldsInFront(view: View, fields: Fields, vs: seq<FieldValue>)
    requires fields != [] && vs != [] && TypedField(view, fields[0].dataType, fields[0].spec.length, vs[0], 0)
    requires TypedValues(view, fields[1..], vs[1..], 0)
    requires |EncodeFieldValue(vs[0], fields[0].spec.length)| == fields[0].spec.length
    ensures TypedValues(view, fields, vs, 0)
    ensures |EncodeFields(fields, vs)| == fields[0].spec.length + |EncodeFields(fields[1..], vs[1..])|
  {
    hide TypedField, EncodeFieldValue;
  }

  lemma TypeValuesTyped(view: View, fields: Fields, key: ElementKey)
    requires |fields| == 3
    requires forall i :: 0 <= i < 3 ==> fields[i].spec == TYPE_SPECIFIERS[i] && fields[i].dataType == UnsignedType
    ensures TypedValues(view, fields, TypeValues(key), 0) && Consuming(fields)
    ensures |EncodeFields(fields, TypeValues(key))| == 7
  {
    hide EncodeFieldValue, TypedField, EncodeFields, TypedValues;
    Pow256Values();
    var vs := TypeValues(key);
    ScalarField(view, fields[0], vs[0]);
    ScalarField(view, fields[1], vs[1]);
    ScalarField(view, fields[2], vs[2]);
    assert fields[2..][1..] == [] && vs[2..][1..] == [] && fields[1..][1..] == fields[2..] && vs[1..][1..] == vs[2..];
    NoFields(view);
    FieldsInFront(view, fields[2..], vs[2..]);
    FieldsInFront(view, fields[1..], vs[1..]);
    FieldsInFront(view, fields, vs);
  }

  lemma NoFields(view: View)
    ensures TypedValues(view, [], [], 0) && EncodeFields([], []) == []
  {
  }

  lemma OneTyped(view: View, fields: Fields, record: DataRecord)
    requires record.fields == fields && TypedValues(view, fields, record.values, 0)
    ensures TypedRecords(view, fields, [record], 0)
  {
    hide TypedValues;
    assert [record][1..] == [];
  }

  /** What a lesson leaves known. */
  function Taught(registry: Registry, known: Typing.Known, domain: u32, key: ElementKey): Typing.Known {
    Typing.Learn(known, registry, domain, TypeRecord(registry, key))
  }

  lemma TypeRecordReceived(config: Config, known: Typing.Known, domain: u32, now: nat, key: ElementKey)
    requires config.timeout > 0 && KnowsElements(config.registry)
    ensures var s := Set(TYPE_TEMPLATE_ID, 0, [OptionsData(TypeRecord(config.registry, key))]);
            var st := TypesDefined(config, known, domain, now);
            var st' := After(config, st, domain, now, s);
            && RecordsOk(config, st, domain, s.id, s.records) && |EncodeRecords(s.records)| == 7
            && st'.known == Taught(config.registry, known, domain, key) && Ready(config, st', now)
  {
    hide ViewOf, TypedValues, TypedRecords, Consuming, EncodeFields, Types, Resolve, KnowsElements, TypeRecord, Resolver,
      Typing.Learn;
    var st := TypesDefined(config, known, domain, now);
    var view, record := ViewOf(config, st, domain), TypeRecord(config.registry, key);
    var rs := [OptionsData(record)];
    TypeRecordIs(config.registry, key);
    TypeFieldsSeen(config, known, domain, now);
    TypeFieldsKnown(config.registry, known, domain);
    TypeValuesTyped(view, record.fields, key);
    OneTyped(view, record.fields, record);
    assert TypedTemplated(view, TYPE_TEMPLATE_ID, [record], 0);
    assert rs == Wrap(view, TYPE_TEMPLATE_ID, [record]);
    OneRecord(rs[0]);
    assert RecordsOk(config, st, domain, TYPE_TEMPLATE_ID, rs);
    assert rs[1..] == [];
    var known' := Typing.Learn(known, config.registry, domain, record);
    assert LearnRecords(config.registry, known', domain, rs[1..]) == known';
  }

  lemma TypeRecordIs(registry: Registry, key: ElementKey)
    ensures TypeRecord(registry, key) == DataRecord(TypeFields(registry), TypeValues(key))
  {
  }

  /** The collector learns what the message teaches, and has no template cached for it. */
  lemma TeachingReceived(config: Config, known: Typing.Known, domain: u32, now: nat, key: ElementKey)
    requires config.timeout > 0 && KnowsElements(config.registry)
    ensures var (r, st') := ParseMessage(config, State(known, map[], map[]), now,
                                         EncodePacket(TeachingMessage(config.registry, domain, key)));
            && r.Ok? && st'.known == Taught(config.registry, known, domain, key) && Ready(config, st', now)
  {
    hide RecordsOk, After, EncodeRecords, ParseMessage, EncodePacket, KnowsElements, TypeRecord, TypesDefined, Taught;
    var st, p := State(known, map[], map[]), TeachingMessage(config.registry, domain, key);
    TypeTemplateReceived(config, known, domain, now);
    TypeRecordReceived(config, known, domain, now, key);
    assert LiveState(config, st, now) == st;
    TwoSets(config, st, domain, now, p.sets[0], p.sets[1]);
    assert EncodePacket(p) + [] == EncodePacket(p);
    MessageReceived(config, st, now, p, []);
  }

  // Using

  /** A field of one to eight octets that such a value fills. */
  predicate UseOk(field: ResolvedField, v: FieldValue) {
    && SpecifierOk(field.spec) && 1 <= field.spec.length <= 8 && !field.dataType.IsList()
    && IsScalar(v) && ScalarTyped(field.dataType, field.spec.length, v)
  }

  lemma UseTemplateReceived(config: Config, st: State, domain: u32, now: nat, spec: FieldSpecifier)
    requires config.timeout > 0 && SpecifierOk(spec) && st.templates == map[]
    ensures var s := Set(TEMPLATE_SET_ID, 0, [Template(UseTemplate(spec))]);
            var fields := Resolve(Types(config.registry, st.known, domain), [spec]);
            && RecordsOk(config, st, domain, s.id, s.records) && |EncodeRecords(s.records)| <= 12
            && After(config, st, domain, now, s) == st.(templates := map[Place(domain, USE_TEMPLATE_ID) := Entry(fields, now)])
  {
    hide EncodeTemplate, Define, Types, Resolve;
    var t := UseTemplate(spec);
    var ts, rs := [t], [Template(t)];
    assert rs == TemplateRecords(ts);
    UseTemplateOk(spec);
    TemplatesAmong(ts);
    OneRecord(rs[0]);
    assert ts[1..] == [];
    var none: Templates := map[];
    DefinedLive(none, Types(config.registry, st.known, domain), domain, now, config.timeout, TEMPLATE_SET_ID, t);
    var fields := Resolve(Types(config.registry, st.known, domain), [spec]);
    var st' := st.(templates := none[Place(domain, USE_TEMPLATE_ID) := Entry(fields, now)]);
    assert DefineTemplates(config, st', domain, now, ts[1..]) == st';
    assert DefineTemplates(config, st, domain, now, ts) == st';
  }

  lemma UseTemplateOk(spec: FieldSpecifier)
    requires SpecifierOk(spec)
    ensures TemplateOk(UseTemplate(spec)) && |EncodeTemplate(UseTemplate(spec))| <= 12
  {
    hide ToBE;
    assert [spec][1..] == [];
    assert EncodeSpecifiers([spec]) == EncodeSpecifier(spec) + EncodeSpecifiers([]);
    assert |EncodeSpecifier(spec)| <= 8;
  }

  lemma UseRecordOk(config: Config, st: State, domain: u32, now: nat, field: ResolvedField, v: FieldValue)
    requires UseOk(field, v) && Place(domain, USE_TEMPLATE_ID) in st.templates
    requires st.templates[Place(domain, USE_TEMPLATE_ID)].fields == [field]
    ensures var rs := [Data(DataRecord([field], [v]))];
            RecordsOk(config, st, domain, USE_TEMPLATE_ID, rs) && |EncodeRecords(rs)| <= 8
  {
    hide ScalarTyped, EncodeFieldValue, TypedField, TypedValues, TypedRecords, EncodeFields, Types;
    var view, record := ViewOf(config, st, domain), DataRecord([field], [v]);
    ScalarField(view, field, v);
    assert [field][1..] == [] && [v][1..] == [];
    NoFields(view);
    FieldsInFront(view, [field], [v]);
    OneTyped(view, [field], record);
    assert FieldsIn(st.templates, domain)[USE_TEMPLATE_ID] == [field];
    assert TypedTemplated(view, USE_TEMPLATE_ID, [record], 0);
    assert [Data(record)] == Wrap(view, USE_TEMPLATE_ID, [record]);
    OneRecord(Data(record));
  }

  /** What is received of a message that uses the element. */
  predicate Used(p: Packet, domain: u32, field: ResolvedField, v: FieldValue) {
    && p.header.domain == domain && p.header.exportTime == 0 && |p.sets| == 2
    && p.sets[0].records == [Template(UseTemplate(field.spec))]
    && p.sets[1].records == [Data(DataRecord([field], [v]))]
  }

  /** The element's value comes back as what the state makes of the element. */
  lemma UsingReceived(config: Config, st: State, domain: u32, now: nat, field: ResolvedField, v: FieldValue)
    requires config.timeout > 0 && Ready(config, st, now) && UseOk(field, v)
    requires field == ResolveField(Types(config.registry, st.known, domain), field.spec)
    ensures var r := ParseMessage(config, st, now, EncodePacket(UsingMessage(domain, field, v))).0;
            r.Ok? && Used(r.value, domain, field, v)
  {
    hide RecordsOk, After, EncodeRecords, ParseMessage, EncodePacket, Types, ResolveField, UseOk;
    var p := UsingMessage(domain, field, v);
    assert SpecifierOk(field.spec) by {
      UseSpecifier(field, v);
    }
    UseTemplateReceived(config, st, domain, now, field.spec);
    var after := After(config, st, domain, now, p.sets[0]);
    assert after.templates[Place(domain, USE_TEMPLATE_ID)].fields == [field];
    UseRecordOk(config, after, domain, now, field, v);
    assert LiveState(config, st, now) == st;
    TwoSets(config, st, domain, now, p.sets[0], p.sets[1]);
    assert EncodePacket(p) + [] == EncodePacket(p);
    MessageReceived(config, st, now, p, []);
  }

  lemma UseSpecifier(field: ResolvedField, v: FieldValue)
    requires UseOk(field, v)
    ensures SpecifierOk(field.spec)
  {
  }

  // The same octets, read as either type

  /** On the wire one octet is one octet. */
  lemma SameOctets(domain: u32, f: ResolvedField, g: ResolvedField)
    requires f.spec == g.spec && f.spec.length == 1
    ensures EncodePacket(UsingMessage(domain, f, Unsigned8(7))) == EncodePacket(UsingMessage(domain, g, OctetArray([7])))
  {
    hide EncodeTemplate, EncodeHeader, EncodeRecords, EncodeSpecifiers;
    var p, q := UsingMessage(domain, f, Unsigned8(7)), UsingMessage(domain, g, OctetArray([7]));
    SameRecordOctets(f, g);
    assert p.sets[0] == q.sets[0];
    assert EncodeSet(p.sets[1]) == EncodeSet(q.sets[1]);
    assert p.sets[1..] == [p.sets[1]] && q.sets[1..] == [q.sets[1]];
    assert EncodeSets(p.sets) == EncodeSet(p.sets[0]) + EncodeSets([p.sets[1]]);
    assert EncodeSets(q.sets) == EncodeSet(q.sets[0]) + EncodeSets([q.sets[1]]);
    assert EncodeSets([p.sets[1]]) == EncodeSet(p.sets[1]) + EncodeSets([p.sets[1]][1..]);
    assert EncodeSets([q.sets[1]]) == EncodeSet(q.sets[1]) + EncodeSets([q.sets[1]][1..]);
  }

  lemma SameRecordOctets(f: ResolvedField, g: ResolvedField)
    requires f.spec == g.spec && f.spec.length == 1
    ensures EncodeRecords([Data(DataRecord([f], [Unsigned8(7)]))]) == EncodeRecords([Data(DataRecord([g], [OctetArray([7])]))])
  {
    assert EncodeFieldValue(Unsigned8(7), 1) == [7] == EncodeFieldValue(OctetArray([7]), 1);
    assert [f][1..] == [] && [g][1..] == [];
    assert EncodeFields([f], [Unsigned8(7)]) == [7] == EncodeFields([g], [OctetArray([7])]);
    OneRecord(Data(DataRecord([f], [Unsigned8(7)])));
    OneRecord(Data(DataRecord([g], [OctetArray([7])])));
  }

  function FieldKnowing(registry: Registry, known: Typing.Known, domain: int, key: ElementKey): ResolvedField {
    ResolveField(Types(registry, known, domain), SpecOf(key))
  }

  /** One state takes the element for a number, the other for octets: a message tells them apart. */
  lemma UsesDiffer(config: Config, a: State, b: State, domain: u32, now: nat, key: ElementKey) returns (octets: bytes)
    requires config.timeout > 0 && Ready(config, a, now) && Ready(config, b, now) && Describable(key)
    requires FieldKnowing(config.registry, a.known, domain, key).dataType == UnsignedType
    requires FieldKnowing(config.registry, b.known, domain, key).dataType == OctetArrayType
    ensures ParseMessage(config, a, now, octets).0 != ParseMessage(config, b, now, octets).0
  {
    hide ParseMessage, EncodePacket, Types, UsingMessage, Ready;
    var f, g := FieldKnowing(config.registry, a.known, domain, key), FieldKnowing(config.registry, b.known, domain, key);
    octets := EncodePacket(UsingMessage(domain, f, Unsigned8(7)));
    SameOctets(domain, f, g);
    UsingReceived(config, a, domain, now, f, Unsigned8(7));
    UsingReceived(config, b, domain, now, g, OctetArray([7]));
  }
}
