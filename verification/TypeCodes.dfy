/** What an exporter's type records make a collector read, code by code. */
module TypeCodes {
  import opened Bytes
  import opened Ipfix
  import opened TwoLevels
  import opened Collecting
  import opened Forgetting
  import Typing = ElementTyping

  /** The data types by their codes, 0 to 22. */
  const TYPES_BY_CODE: seq<DataType> := [
    OctetArrayType, UnsignedType, UnsignedType, UnsignedType, UnsignedType, SignedType, SignedType, SignedType, SignedType,
    FloatType, FloatType, BooleanType, MacAddressType, StringType, DateTimeSecondsType, DateTimeMillisecondsType,
    DateTimeMicrosecondsType, DateTimeNanosecondsType, Ipv4AddressType, Ipv6AddressType, BasicListType,
    SubTemplateListType, SubTemplateMultiListType]

  /** Semantics that go with a code: 0 with all, and beside it quantities and counters with numbers, and list with lists. */
  predicate Fits(code: u8, semantics: u8) {
    || semantics == 0
    || (1 <= code <= 4 && semantics in {1, 2, 3, 4, 5, 7, 8})
    || (5 <= code <= 8 && semantics in {1, 2, 3, 4})
    || (9 <= code <= 10 && semantics in {1, 2, 3})
    || (20 <= code <= 22 && semantics == 6)
  }

  lemma TypeOfCode(d: Typing.Description)
    ensures Typing.DataTypeOf(d)
         == if d.dataType <= 22 && Fits(d.dataType, d.semantics) then Some(TYPES_BY_CODE[d.dataType]) else None
  {
  }

  function FieldOf(id: u16, length: u16): ResolvedField {
    ResolvedField(FieldSpecifier(false, id, length, None), UnsignedType, Registered([]))
  }

  /** privateEnterpriseNumber is 346, informationElementId 303, informationElementDataType 339, and
      informationElementSemantics 344. */
  function CodeRecord(key: ElementKey, code: u8, semantics: u8): DataRecord {
    DataRecord([FieldOf(346, 4), FieldOf(303, 2), FieldOf(339, 1), FieldOf(344, 1)],
               [Unsigned32(if key.enterpriseNumber.Some? then key.enterpriseNumber.value else 0), Unsigned16(key.id),
                Unsigned8(code), Unsigned8(semantics)])
  }

  /** With informationElementName, 341. */
  function NamedRecord(key: ElementKey, code: u8, semantics: u8, name: bytes): DataRecord {
    var r := CodeRecord(key, code, semantics);
    DataRecord(r.fields + [FieldOf(341, 0xFFFF)], r.values + [String(name)])
  }

  lemma OneRead(r: Typing.Reading, fields: seq<ResolvedField>, values: seq<FieldValue>)
    requires fields != [] && |fields| == |values|
    ensures var next := Typing.ReadField(r, fields[0].spec, values[0]);
            Typing.ReadFields(r, fields, values)
            == if next.None? then None else Typing.ReadFields(next.value, fields[1..], values[1..])
  {
  }

  lemma CodeRead(key: ElementKey, code: u8, semantics: u8, more: seq<ResolvedField>, values: seq<FieldValue>)
    requires Describable(key) && |more| == |values|
    ensures var r := CodeRecord(key, code, semantics);
            var number := if key.enterpriseNumber.Some? then key.enterpriseNumber.value else 0;
            Typing.ReadFields(Typing.NOTHING_READ, r.fields + more, r.values + values)
            == Typing.ReadFields(Typing.Reading(Some(key.id), Some(number), Some(code), semantics, None), more, values)
  {
    hide Typing.ReadFields;
    var r := CodeRecord(key, code, semantics);
    var fs, vs := r.fields + more, r.values + values;
    var number := if key.enterpriseNumber.Some? then key.enterpriseNumber.value else 0;
    var r1 := Typing.NOTHING_READ.(enterpriseNumber := Some(number));
    var r2 := r1.(id := Some(key.id));
    var r3 := r2.(dataType := Some(code));
    var r4 := r3.(semantics := semantics);
    assert fs[1..][1..] == fs[2..] && fs[2..][1..] == fs[3..] && fs[3..][1..] == more;
    assert vs[1..][1..] == vs[2..] && vs[2..][1..] == vs[3..] && vs[3..][1..] == values;
    OneRead(Typing.NOTHING_READ, fs, vs);
    OneRead(r1, fs[1..], vs[1..]);
    OneRead(r2, fs[2..], vs[2..]);
    OneRead(r3, fs[3..], vs[3..]);
  }

  lemma CodeDescribed(key: ElementKey, code: u8, semantics: u8)
    requires Describable(key)
    ensures Typing.Describe(CodeRecord(key, code, semantics)) == Some(Typing.Description(key, code, semantics, None))
  {
    hide CodeRecord;
    var r := CodeRecord(key, code, semantics);
    CodeRead(key, code, semantics, [], []);
    assert r.fields + [] == r.fields && r.values + [] == r.values;
  }

  lemma NameDescribed(key: ElementKey, code: u8, semantics: u8, name: bytes)
    requires Describable(key)
    ensures Typing.Describe(NamedRecord(key, code, semantics, name))
         == Some(Typing.Description(key, code, semantics, if 0 < |name| <= 256 && 0 !in name then Some(name) else None))
  {
    hide CodeRecord;
    var more, values := [FieldOf(341, 0xFFFF)], [String(name)];
    CodeRead(key, code, semantics, more, values);
    assert more[1..] == [] && values[1..] == [];
  }

  /** A collector that knew nothing of an element its registry lacks reads it, after one type record, as the type of the
      code, under its number; and not at all differently when there is no such code or the semantics do not fit it. */
  lemma CodeTaught(registry: Registry, domain: int, key: ElementKey, code: u8, semantics: u8, spec: FieldSpecifier)
    requires Describable(key) && key !in registry && spec.id == key.id && spec.enterpriseNumber == key.enterpriseNumber
    ensures var known := Typing.Learn(map[], registry, domain, CodeRecord(key, code, semantics));
            ResolveField(Types(registry, known, domain), spec)
            == ResolvedField(spec, if code <= 22 && Fits(code, semantics) then TYPES_BY_CODE[code] else OctetArrayType,
                             Numbered(key))
  {
    hide Typing.Describe, Typing.DataTypeOf, Fits, CodeRecord;
    var d := Typing.Description(key, code, semantics, None);
    CodeDescribed(key, code, semantics);
    TypeOfCode(d);
    var known := Typing.Learn(map[], registry, domain, CodeRecord(key, code, semantics));
    assert Place(domain, d.key) == Place(domain, key);
    TypesAt(registry, known, domain, key);
    assert ElementKey(spec.id, spec.enterpriseNumber) == key;
  }

  /** And by its name, if the record has one that can be used. */
  lemma NameTaught(
    registry: Registry, domain: int, key: ElementKey, code: u8, semantics: u8, name: bytes, spec: FieldSpecifier)
    requires Describable(key) && key !in registry && spec.id == key.id && spec.enterpriseNumber == key.enterpriseNumber
    requires code <= 22 && Fits(code, semantics)
    ensures var known := Typing.Learn(map[], registry, domain, NamedRecord(key, code, semantics, name));
            ResolveField(Types(registry, known, domain), spec)
            == ResolvedField(spec, TYPES_BY_CODE[code],
                             if 0 < |name| <= 256 && 0 !in name then Registered(name) else Numbered(key))
  {
    hide Typing.Describe, Typing.DataTypeOf, Fits, NamedRecord;
    var d := Typing.Description(key, code, semantics, if 0 < |name| <= 256 && 0 !in name then Some(name) else None);
    NameDescribed(key, code, semantics, name);
    TypeOfCode(d);
    var known := Typing.Learn(map[], registry, domain, NamedRecord(key, code, semantics, name));
    assert Place(domain, d.key) == Place(domain, key);
    TypesAt(registry, known, domain, key);
    assert ElementKey(spec.id, spec.enterpriseNumber) == key;
  }
}
