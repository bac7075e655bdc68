/** What forgetting an exporter costs: the element types it taught. */
module Forgetting {
  import opened Bytes
  import opened Ipfix
  import opened TwoLevels
  import opened ElementTyping
  import opened Collecting

  // Learning on

  /** What more type records make of what is known. */
  function LearnMore(registry: Registry, known: Known, lessons: seq<Lesson>): Known {
    if lessons == [] then known
    else
      var last := lessons[|lessons| - 1];
      Learn(LearnMore(registry, known, lessons[..|lessons| - 1]), registry, last.domain, last.record)
  }

  lemma {:induction false} LearnAllIsMore(registry: Registry, lessons: seq<Lesson>)
    ensures LearnAll(registry, lessons) == LearnMore(registry, map[], lessons)
  {
    if lessons != [] {
      LearnAllIsMore(registry, lessons[..|lessons| - 1]);
    }
  }

  /** How a specifier is read once more records have been learned from. */
  function ReadAfter(
    registry: Registry, known: Known, more: seq<Lesson>, domain: int, spec: FieldSpecifier): ResolvedField
  {
    ResolveField(Types(registry, LearnMore(registry, known, more), domain), spec)
  }

  /** Whatever type records follow, every specifier is read alike. */
  ghost predicate ReadAlike(registry: Registry, a: Known, b: Known) {
    forall more: seq<Lesson>, domain: int, spec: FieldSpecifier ::
      ReadAfter(registry, a, more, domain, spec) == ReadAfter(registry, b, more, domain, spec)
  }

  // A type record that tells

  const TYPE_SPECIFIERS: seq<FieldSpecifier> := [
    FieldSpecifier(false, PRIVATE_ENTERPRISE_NUMBER, 4, None),
    FieldSpecifier(false, INFORMATION_ELEMENT_ID, 2, None),
    FieldSpecifier(false, INFORMATION_ELEMENT_DATA_TYPE, 1, None)]

  function TypeValues(key: ElementKey): (r: seq<FieldValue>)
    ensures |r| == 3
  {
    [Unsigned32(if key.enterpriseNumber.Some? then key.enterpriseNumber.value else 0), Unsigned16(key.id), Unsigned8(1)]
  }

  /** It says the element is an unsigned8. */
  function TypeRecord(registry: Registry, key: ElementKey): DataRecord {
    DataRecord(Resolve(registry, TYPE_SPECIFIERS), TypeValues(key))
  }

  /** An element a type record can name. */
  predicate Describable(key: ElementKey) {
    key.id < 0x8000 && key.enterpriseNumber != Some(0)
  }

  function Unsigned8Description(key: ElementKey): Description {
    Description(key, 1, 0, None)
  }

  lemma TypeRecordTells(registry: Registry, key: ElementKey)
    requires Describable(key)
    ensures Describe(TypeRecord(registry, key)) == Some(Unsigned8Description(key))
  {
    var r := TypeRecord(registry, key);
    var number := if key.enterpriseNumber.Some? then key.enterpriseNumber.value else 0;
    var r1 := NOTHING_READ.(enterpriseNumber := Some(number));
    var r2 := r1.(id := Some(key.id));
    var r3 := r2.(dataType := Some(1));
    assert ReadField(NOTHING_READ, r.fields[0].spec, r.values[0]) == Some(r1);
    assert ReadField(r1, r.fields[1].spec, r.values[1]) == Some(r2);
    assert ReadField(r2, r.fields[2].spec, r.values[2]) == Some(r3);
    assert ReadFields(r3, r.fields[3..], r.values[3..]) == Some(r3);
    assert ReadFields(r2, r.fields[2..], r.values[2..]) == Some(r3) by {
      assert r.fields[2..][1..] == r.fields[3..] && r.values[2..][1..] == r.values[3..];
    }
    assert ReadFields(r1, r.fields[1..], r.values[1..]) == Some(r3) by {
      assert r.fields[1..][1..] == r.fields[2..] && r.values[1..][1..] == r.values[2..];
    }
  }

  /** Elements that can be described at all. */
  lemma AcceptedKey(registry: Registry, record: DataRecord)
    ensures var d := Accepted(registry, record);
            d.Some? ==> Describable(d.value.key)
  {
    var r := ReadFields(NOTHING_READ, record.fields, record.values);
    ReadIds(NOTHING_READ, record.fields, record.values);
  }

  lemma {:induction false} ReadIds(r: Reading, fields: seq<ResolvedField>, values: seq<FieldValue>)
    requires r.id.Some? ==> r.id.value < 0x8000
    ensures var last := ReadFields(r, fields, values);
            last.Some? && last.value.id.Some? ==> last.value.id.value < 0x8000
    decreases |fields|
  {
    hide UsableName;
    if fields != [] && values != [] {
      var next := ReadField(r, fields[0].spec, values[0]);
      if next.Some? {
        ReadIds(next.value, fields[1..], values[1..]);
      }
    }
  }

  lemma KnownKey(registry: Registry, lessons: seq<Lesson>, s: Subject)
    requires s in LearnAll(registry, lessons)
    ensures Describable(s.key) && s.key !in registry
  {
    hide Accepted, LearnAll, DataTypeOf;
    LearnedIsFaithful(registry, lessons);
    var known := LearnAll(registry, lessons);
    var ds := Descriptions(registry, lessons, s);
    assert Reflects(known[s], ds);
    var d :| d in ds;
    var l :| l in lessons && l.domain == s.domain && Accepted(registry, l.record).Some?
             && Accepted(registry, l.record).value.key == s.key;
    AcceptedKey(registry, l.record);
  }

  // The exact condition

  function SpecOf(key: ElementKey): FieldSpecifier {
    FieldSpecifier(key.enterpriseNumber.Some?, key.id, 1, key.enterpriseNumber)
  }

  lemma LearnOne(registry: Registry, known: Known, lesson: Lesson)
    ensures LearnMore(registry, known, [lesson]) == Learn(known, registry, lesson.domain, lesson.record)
  {
    assert [lesson][..0] == [];
    assert LearnMore(registry, known, []) == known;
  }

  /** A new exporter takes the record's word. */
  lemma ToldAnew(registry: Registry, s: Subject)
    requires Describable(s.key) && s.key !in registry
    ensures var more := [Lesson(s.domain, TypeRecord(registry, s.key))];
            ReadAfter(registry, map[], more, s.domain, SpecOf(s.key)).dataType == UnsignedType
  {
    hide Describe;
    TypeRecordTells(registry, s.key);
    var lesson := Lesson(s.domain, TypeRecord(registry, s.key));
    var d := Unsigned8Description(s.key);
    assert Accepted(registry, lesson.record) == Some(d);
    LearnOne(registry, map[], lesson);
    assert Place(s.domain, d.key) == s;
    var known := LearnMore(registry, map[], [lesson]);
    assert known == map[s := Defined(d, Definition(d))];
    TypesAt(registry, known, s.domain, s.key);
    assert SpecOf(s.key).enterpriseNumber == s.key.enterpriseNumber;
  }

  /** One that remembers otherwise reads octets. */
  lemma ToldBefore(registry: Registry, known: Known, s: Subject)
    requires Describable(s.key) && s.key !in registry && s in known
    requires known[s].Conflicting? || known[s].description != Unsigned8Description(s.key)
    ensures var more := [Lesson(s.domain, TypeRecord(registry, s.key))];
            ReadAfter(registry, known, more, s.domain, SpecOf(s.key)).dataType == OctetArrayType
  {
    hide Describe;
    TypeRecordTells(registry, s.key);
    var lesson := Lesson(s.domain, TypeRecord(registry, s.key));
    assert Accepted(registry, lesson.record) == Some(Unsigned8Description(s.key));
    LearnOne(registry, known, lesson);
    assert Place(s.domain, Unsigned8Description(s.key).key) == s;
    var after := LearnMore(registry, known, [lesson]);
    assert after[s].Conflicting?;
    TypesAt(registry, after, s.domain, s.key);
  }

  /** A definition other than an unknown element's shows at once. */
  lemma ToldAlready(registry: Registry, known: Known, s: Subject)
    requires s in known && known[s].Defined? && s.key !in registry && known[s].definition.dataType != OctetArrayType
    ensures ReadAfter(registry, known, [], s.domain, SpecOf(s.key)) != ReadAfter(registry, map[], [], s.domain, SpecOf(s.key))
  {
    TypesAt(registry, known, s.domain, s.key);
    TypesAt(registry, map[], s.domain, s.key);
  }

  /** A collector that remembers what type records taught, and one that has forgotten it, go on to read every specifier
      alike, whatever type records follow, exactly when there was nothing to forget; a conflict counts too. */
  lemma ForgottenTypesMatter(registry: Registry, lessons: seq<Lesson>)
    ensures ReadAlike(registry, LearnAll(registry, lessons), map[]) <==> LearnAll(registry, lessons) == map[]
  {
    hide ReadAfter, LearnAll, Definition, DataTypeOf;
    var known := LearnAll(registry, lessons);
    if known != map[] {
      SomethingKnown(known);
      var s :| s in known;
      KnownKey(registry, lessons, s);
      ToldAnew(registry, s);
      if known[s].Defined? && known[s].description == Unsigned8Description(s.key) {
        DefinedUnsigned(registry, lessons, s);
        ToldAlready(registry, known, s);
      } else {
        ToldBefore(registry, known, s);
      }
    }
  }

  lemma SomethingKnown(known: Known)
    ensures known == map[] || exists s :: s in known
  {
    if forall s :: s !in known {
      assert known == map[];
    }
  }

  lemma DefinedUnsigned(registry: Registry, lessons: seq<Lesson>, s: Subject)
    requires s in LearnAll(registry, lessons) && LearnAll(registry, lessons)[s].Defined?
    requires LearnAll(registry, lessons)[s].description == Unsigned8Description(s.key)
    ensures LearnAll(registry, lessons)[s].definition.dataType == UnsignedType
  {
    hide LearnAll, Accepted;
    LearnedIsFaithful(registry, lessons);
    assert Reflects(LearnAll(registry, lessons)[s], Descriptions(registry, lessons, s));
  }
}
