/** RFC 5610: learning the types of elements from type records. */
module ElementTyping {
  import opened Bytes
  import opened Ipfix
  import opened TwoLevels

  const MAX_ELEMENTS: nat := 1024
  const MAX_NAME_LENGTH: nat := 256

  const INFORMATION_ELEMENT_ID: u16 := 303
  const INFORMATION_ELEMENT_DATA_TYPE: u16 := 339
  const INFORMATION_ELEMENT_NAME: u16 := 341
  const INFORMATION_ELEMENT_SEMANTICS: u16 := 344
  const PRIVATE_ENTERPRISE_NUMBER: u16 := 346

  /** One element as an exporter describes it. */
  datatype Description = Description(key: ElementKey, dataType: u8, semantics: u8, name: Option<bytes>)

  // Reading a type record

  /** What the fields read so far gave. */
  datatype Reading = Reading(
    id: Option<u16>, enterpriseNumber: Option<u32>, dataType: Option<u8>, semantics: u8, name: Option<bytes>)

  const NOTHING_READ: Reading := Reading(None, None, None, 0, None)

  function Number(v: FieldValue): Option<u64> {
    match v
    case Unsigned8(n) => Some(n)
    case Unsigned16(n) => Some(n)
    case Unsigned32(n) => Some(n)
    case Unsigned64(n) => Some(n)
    case _ => None
  }

  /** A number below `limit`, if that is what the value is. */
  function Below(v: FieldValue, limit: nat): (r: Option<nat>)
    ensures r.Some? ==> r.value < limit
  {
    var n := Number(v);
    if n.Some? && n.value < limit then Some(n.value) else None
  }

  function UsableName(v: FieldValue): Option<bytes> {
    if v.String? then
      var String(text) := v;
      if 0 < |text| <= MAX_NAME_LENGTH && 0 !in text then Some(text) else None
    else None
  }

  /** One field; `None` when its semantics are not a number below 256, which ends the reading. */
  function ReadField(r: Reading, spec: FieldSpecifier, v: FieldValue): Option<Reading> {
    if spec.enterpriseNumber.Some? then Some(r)
    else if spec.id == INFORMATION_ELEMENT_ID then
      var n := Below(v, 0x1_0000);
      Some(r.(id := if n.Some? then Some(n.value % 0x8000) else None))
    else if spec.id == PRIVATE_ENTERPRISE_NUMBER then
      var n := Below(v, 0x1_0000_0000);
      Some(r.(enterpriseNumber := if n.Some? then Some(n.value) else None))
    else if spec.id == INFORMATION_ELEMENT_DATA_TYPE then
      var n := Below(v, 0x100);
      Some(r.(dataType := if n.Some? then Some(n.value) else None))
    else if spec.id == INFORMATION_ELEMENT_SEMANTICS then
      var n := Below(v, 0x100);
      if n.Some? then Some(r.(semantics := n.value)) else None
    else if spec.id == INFORMATION_ELEMENT_NAME then
      Some(r.(name := UsableName(v)))
    else Some(r)
  }

  function ReadFields(r: Reading, fields: seq<ResolvedField>, values: seq<FieldValue>): Option<Reading>
    decreases |fields|
  {
    if fields == [] || values == [] then Some(r)
    else
      var next := ReadField(r, fields[0].spec, values[0]);
      if next.None? then None else ReadFields(next.value, fields[1..], values[1..])
  }

  /** An ID and a data type are needed; enterprise zero is IANA's. */
  function Finish(r: Reading): Option<Description> {
    if r.id.Some? && r.dataType.Some? then
      var number := if r.enterpriseNumber == Some(0) then None else r.enterpriseNumber;
      Some(Description(ElementKey(r.id.value, number), r.dataType.value, r.semantics, r.name))
    else None
  }

  function Describe(record: DataRecord): Option<Description> {
    var r := ReadFields(NOTHING_READ, record.fields, record.values);
    if r.None? then None else Finish(r.value)
  }

  method ReadDescription(record: DataRecord) returns (d: Option<Description>)
    ensures d == Describe(record)
  {
    var reading := NOTHING_READ;
    var n := if |record.fields| < |record.values| then |record.fields| else |record.values|;
    for i := 0 to n
      invariant ReadFields(reading, record.fields[i..], record.values[i..])
             == ReadFields(NOTHING_READ, record.fields, record.values)
    {
      assert record.fields[i..][1..] == record.fields[i + 1..] && record.values[i..][1..] == record.values[i + 1..];
      var next := ReadField(reading, record.fields[i].spec, record.values[i]);
      if next.None? {
        return None;
      }
      reading := next.value;
    }
    d := Finish(reading);
  }

  /** The type of RFC 5610 section 3.1, when the semantics fit it. */
  function DataTypeOf(d: Description): Option<DataType> {
    var fits :=
      if 1 <= d.dataType <= 4 then d.semantics <= 5 || d.semantics == 7 || d.semantics == 8
      else if 5 <= d.dataType <= 8 then d.semantics <= 4
      else if 9 <= d.dataType <= 10 then d.semantics <= 3
      else if 20 <= d.dataType <= 22 then d.semantics == 0 || d.semantics == 6
      else d.semantics == 0;
    if !fits then None
    else if d.dataType == 0 then Some(OctetArrayType)
    else if d.dataType <= 4 then Some(UnsignedType)
    else if d.dataType <= 8 then Some(SignedType)
    else if d.dataType <= 10 then Some(FloatType)
    else
      match d.dataType
      case 11 => Some(BooleanType)
      case 12 => Some(MacAddressType)
      case 13 => Some(StringType)
      case 14 => Some(DateTimeSecondsType)
      case 15 => Some(DateTimeMillisecondsType)
      case 16 => Some(DateTimeMicrosecondsType)
      case 17 => Some(DateTimeNanosecondsType)
      case 18 => Some(Ipv4AddressType)
      case 19 => Some(Ipv6AddressType)
      case 20 => Some(BasicListType)
      case 21 => Some(SubTemplateListType)
      case 22 => Some(SubTemplateMultiListType)
      case _ => None
  }

  /** What a record teaches: a description of an element the registry does not define. */
  function Accepted(registry: Registry, record: DataRecord): (d: Option<Description>)
    ensures d.Some? ==> d.value.key !in registry && DataTypeOf(d.value).Some?
  {
    var d := Describe(record);
    if d.Some? && d.value.key !in registry && DataTypeOf(d.value).Some? then d else None
  }

  function Definition(d: Description): IEDefinition
    requires DataTypeOf(d).Some?
  {
    IEDefinition(if d.name.Some? then Registered(d.name.value) else Numbered(d.key), DataTypeOf(d).value)
  }

  // What is known

  datatype Learned = Defined(description: Description, definition: IEDefinition) | Conflicting

  /** An element of an observation domain. */
  type Subject = Place<ElementKey>

  type Known = map<Subject, Learned>

  function Lookup(known: Known, s: Subject): Option<IEDefinition> {
    if s in known && known[s].Defined? then Some(known[s].definition) else None
  }

  function Learn(known: Known, registry: Registry, domain: int, record: DataRecord): Known {
    var d := Accepted(registry, record);
    if d.None? then known
    else
      var s := Place(domain, d.value.key);
      if s !in known then
        if |known| < MAX_ELEMENTS then known[s := Defined(d.value, Definition(d.value))] else known
      else if known[s].Defined? && known[s].description != d.value then known[s := Conflicting]
      else known
  }

  /** Some lookup answers differently. */
  ghost predicate LookupChanges(known: Known, known': Known) {
    exists s :: Lookup(known, s) != Lookup(known', s)
  }

  datatype Lesson = Lesson(domain: int, record: DataRecord)

  function LearnAll(registry: Registry, lessons: seq<Lesson>): Known {
    if lessons == [] then map[]
    else
      var last := lessons[|lessons| - 1];
      Learn(LearnAll(registry, lessons[..|lessons| - 1]), registry, last.domain, last.record)
  }

  // What was learned depends on the set of descriptions alone

  /** The accepted descriptions of an element. */
  ghost function Descriptions(registry: Registry, lessons: seq<Lesson>, s: Subject): set<Description> {
    set l | l in lessons && l.domain == s.domain && Accepted(registry, l.record).Some?
              && Accepted(registry, l.record).value.key == s.key :: Accepted(registry, l.record).value
  }

  /** The elements described. */
  ghost function Described(registry: Registry, lessons: seq<Lesson>): set<Subject> {
    set l | l in lessons && Accepted(registry, l.record).Some? :: Place(l.domain, Accepted(registry, l.record).value.key)
  }

  /** One description defines the element, several leave it unknown. */
  ghost predicate Reflects(learned: Learned, ds: set<Description>) {
    match learned
    case Defined(d, definition) => ds == {d} && DataTypeOf(d).Some? && definition == Definition(d)
    case Conflicting => exists d, e :: d in ds && e in ds && d != e
  }

  ghost predicate Faithful(registry: Registry, lessons: seq<Lesson>, known: Known) {
    && |known| <= 1024
    && (forall s :: s in known ==> s.key !in registry && Reflects(known[s], Descriptions(registry, lessons, s)))
    && (forall s :: s !in known && Descriptions(registry, lessons, s) != {} ==> |known| == 1024)
  }

  lemma DescriptionsExtend(registry: Registry, lessons: seq<Lesson>, last: Lesson, s: Subject)
    ensures var d := Accepted(registry, last.record);
            Descriptions(registry, lessons + [last], s)
            == Descriptions(registry, lessons, s)
               + (if d.Some? && s == Place(last.domain, d.value.key) then {d.value} else {})
  {
    var all := lessons + [last];
    assert forall l :: l in all <==> l in lessons || l == last;
  }

  lemma FaithfulStep(registry: Registry, lessons: seq<Lesson>, last: Lesson, known: Known)
    requires Faithful(registry, lessons, known)
    ensures Faithful(registry, lessons + [last], Learn(known, registry, last.domain, last.record))
  {
    hide Accepted, DataTypeOf, Descriptions;
    var known' := Learn(known, registry, last.domain, last.record);
    var d := Accepted(registry, last.record);
    forall s: Subject
      ensures s in known' ==> s.key !in registry && Reflects(known'[s], Descriptions(registry, lessons + [last], s))
      ensures s !in known' && Descriptions(registry, lessons + [last], s) != {} ==> |known'| == 1024
    {
      DescriptionsExtend(registry, lessons, last, s);
    }
  }

  /** What any run of type records leaves known of each element. */
  lemma {:induction false} LearnedIsFaithful(registry: Registry, lessons: seq<Lesson>)
    ensures Faithful(registry, lessons, LearnAll(registry, lessons))
  {
    if lessons != [] {
      var before, last := lessons[..|lessons| - 1], lessons[|lessons| - 1];
      LearnedIsFaithful(registry, before);
      FaithfulStep(registry, before, last, LearnAll(registry, before));
      assert before + [last] == lessons;
    }
  }

  /** Below the cap, every element described is known, and no other. */
  lemma BelowTheCap(registry: Registry, lessons: seq<Lesson>)
    requires |Described(registry, lessons)| <= 1024
    ensures LearnAll(registry, lessons).Keys == Described(registry, lessons)
  {
    hide Accepted, DataTypeOf, Descriptions;
    var known := LearnAll(registry, lessons);
    LearnedIsFaithful(registry, lessons);
    forall s: Subject
      ensures s in Described(registry, lessons) <==> Descriptions(registry, lessons, s) != {}
    {
      DescribedByDescriptions(registry, lessons, s);
    }
    forall s | s in known
      ensures s in Described(registry, lessons)
    {
      assert Reflects(known[s], Descriptions(registry, lessons, s));
    }
    if s :| s in Described(registry, lessons) && s !in known {
      Smaller(known.Keys, Described(registry, lessons), s);
    }
  }

  lemma DescribedByDescriptions(registry: Registry, lessons: seq<Lesson>, s: Subject)
    ensures s in Described(registry, lessons) <==> Descriptions(registry, lessons, s) != {}
  {
    if s in Described(registry, lessons) {
      var l :| l in lessons && Accepted(registry, l.record).Some?
               && s == Place(l.domain, Accepted(registry, l.record).value.key);
      assert Accepted(registry, l.record).value in Descriptions(registry, lessons, s);
    }
  }

  lemma Smaller<T>(a: set<T>, b: set<T>, x: T)
    requires a <= b && x in b && x !in a
    ensures |a| < |b|
  {
    Fewer(a, b - {x});
  }

  lemma {:induction false} Fewer<T>(a: set<T>, b: set<T>)
    requires a <= b
    ensures |a| <= |b|
  {
    if x :| x in a {
      Fewer(a - {x}, b - {x});
    }
  }

  lemma SameLessons(registry: Registry, a: seq<Lesson>, b: seq<Lesson>, s: Subject)
    requires forall l :: l in a <==> l in b
    ensures Described(registry, a) == Described(registry, b)
    ensures Descriptions(registry, a, s) == Descriptions(registry, b, s)
  {
    hide Accepted;
  }

  /** Below the cap, only which records arrived matters, neither their order nor how often. */
  lemma OrderIndependent(registry: Registry, a: seq<Lesson>, b: seq<Lesson>)
    requires forall l :: l in a <==> l in b
    requires |Described(registry, a)| <= 1024
    ensures LearnAll(registry, a) == LearnAll(registry, b)
  {
    hide Accepted, DataTypeOf, Described, Descriptions, LearnAll, Reflects;
    var ka, kb := LearnAll(registry, a), LearnAll(registry, b);
    LearnedIsFaithful(registry, a);
    LearnedIsFaithful(registry, b);
    BelowTheCap(registry, a);
    forall s: Subject
      ensures ka.Keys == kb.Keys && (s in ka ==> ka[s] == kb[s])
    {
      SameLessons(registry, a, b, s);
      BelowTheCap(registry, b);
      if s in ka {
        SameReflection(ka[s], kb[s], Descriptions(registry, a, s));
      }
    }
    SameLessons(registry, a, b, Place(0, ElementKey(0, None)));
    BelowTheCap(registry, b);
  }

  lemma SameReflection(a: Learned, b: Learned, ds: set<Description>)
    requires Reflects(a, ds) && Reflects(b, ds)
    ensures a == b
  {
    match (a, b)
    case (Defined(d, _), Defined(e, _)) => assert d in {e};
    case _ =>
  }

  /** An element once in conflict stays unknown, whatever follows. */
  lemma {:induction false} ConflictStays(registry: Registry, lessons: seq<Lesson>, more: seq<Lesson>, s: Subject)
    requires s in LearnAll(registry, lessons) && LearnAll(registry, lessons)[s].Conflicting?
    ensures Lookup(LearnAll(registry, lessons + more), s).None?
    ensures s in LearnAll(registry, lessons + more) && LearnAll(registry, lessons + more)[s].Conflicting?
  {
    if more == [] {
      assert lessons + more == lessons;
    } else {
      var before := more[..|more| - 1];
      assert (lessons + more)[..|lessons + more| - 1] == lessons + before;
      ConflictStays(registry, lessons, before, s);
    }
  }

  type ByDomain = Nested<ElementKey, Learned>

  class ElementTypes {
    var domains: ByDomain
    var len: nat
    ghost var known: Known

    ghost predicate Valid()
      reads this
    {
      Holds(domains, known) && len == |known| <= MAX_ELEMENTS
    }

    constructor ()
      ensures Valid() && known == map[]
    {
      domains, len, known := map[], 0, map[];
    }

    method Find(domain: int, key: ElementKey) returns (definition: Option<IEDefinition>)
      requires Valid()
      ensures definition == Lookup(known, Place(domain, key))
    {
      hide Holds;
      HoldsAt(domains, known, Place(domain, key));
      if domain !in domains || key !in domains[domain] {
        return None;
      }
      match domains[domain][key]
      case Defined(_, d) => definition := Some(d);
      case Conflicting => definition := None;
    }

    /** True exactly when some lookup changed. */
    method LearnFrom(domain: int, record: DataRecord, registry: Registry) returns (changed: bool)
      requires Valid()
      modifies this
      ensures Valid() && known == Learn(old(known), registry, domain, record)
      ensures changed <==> LookupChanges(old(known), known)
    {
      hide Holds;
      var read := ReadDescription(record);
      if read.None? || read.value.key in registry || DataTypeOf(read.value).None? {
        return false;
      }
      var d := read.value;
      ghost var s := Place(domain, d.key);
      HoldsAt(domains, known, s);
      var elements := Row(domains, domain);
      var learned;
      if d.key in elements {
        match elements[d.key]
        case Conflicting => return false;
        case Defined(description, _) =>
          if description == d {
            return false;
          }
          learned := Conflicting;
      } else if len < MAX_ELEMENTS {
        learned := Defined(d, Definition(d));
        len := len + 1;
      } else {
        return false;
      }
      HoldsStored(domains, known, s, learned);
      domains := domains[domain := elements[d.key := learned]];
      known := known[s := learned];
      changed := true;
      assert Lookup(old(known), s) != Lookup(known, s);
    }
  }
}
