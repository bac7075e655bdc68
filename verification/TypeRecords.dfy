/** What a type record describes, wherever its fields are: of several fields of one element the last counts. */
module TypeRecords {
  import opened Bytes
  import opened Ipfix
  import opened StatedRates
  import opened Domains
  import Typing = ElementTyping

  /** The value of the last field of an element, among the first `n`. */
  function LastValue(record: DataRecord, id: u16, n: nat): Option<FieldValue>
    requires n <= |record.fields| && n <= |record.values|
  {
    if n == 0 then None
    else if IsIana(record.fields[n - 1], id) then Some(record.values[n - 1])
    else LastValue(record, id, n - 1)
  }

  function Stated(v: Option<FieldValue>, limit: nat): Option<nat> {
    if v.Some? then Typing.Below(v.value, limit) else None
  }

  /** How many fields have a value. */
  function Both(record: DataRecord): (n: nat)
    ensures n <= |record.fields| && n <= |record.values| && (n == |record.fields| || n == |record.values|)
  {
    if |record.fields| < |record.values| then |record.fields| else |record.values|
  }

  /** Among the first fields, informationElementSemantics is somewhere no number below 256. */
  predicate BadSemantics(record: DataRecord, n: nat)
    requires n <= |record.fields| && n <= |record.values|
  {
    exists i :: 0 <= i < n && IsIana(record.fields[i], 344) && Typing.Below(record.values[i], 256).None?
  }

  /** A usable name: not empty, at most 256 octets, none of them zero. */
  function Named(v: Option<FieldValue>): Option<bytes> {
    match v
    case Some(String(text)) => if 0 < |text| <= 256 && 0 !in text then Some(text) else None
    case _ => None
  }

  function Masked(n: Option<nat>): Option<nat> {
    if n.Some? then Some(n.value % 32_768) else None
  }

  /** What the first fields state. */
  predicate Reads(r: Typing.Reading, record: DataRecord, n: nat)
    requires n <= |record.fields| && n <= |record.values|
  {
    && r.id == Masked(Stated(LastValue(record, 303, n), 65_536))
    && r.enterpriseNumber == Stated(LastValue(record, 346, n), 0x1_0000_0000)
    && r.dataType == Stated(LastValue(record, 339, n), 256)
    && Some(r.semantics) == (if LastValue(record, 344, n).None? then Some(0) else Stated(LastValue(record, 344, n), 256))
    && r.name == Named(LastValue(record, 341, n))
  }

  lemma ReadsOne(r: Typing.Reading, record: DataRecord, n: nat)
    requires n < |record.fields| && n < |record.values| && Reads(r, record, n)
    ensures var next := Typing.ReadField(r, record.fields[n].spec, record.values[n]);
            if IsIana(record.fields[n], 344) && Typing.Below(record.values[n], 256).None? then next.None?
            else next.Some? && Reads(next.value, record, n + 1)
  {
    hide Typing.Below;
  }

  lemma {:induction false} ReadsOn(r: Typing.Reading, record: DataRecord, n: nat)
    requires n <= Both(record) && Reads(r, record, n) && !BadSemantics(record, n)
    ensures var all := Typing.ReadFields(r, record.fields[n..], record.values[n..]);
            if BadSemantics(record, Both(record)) then all.None?
            else all.Some? && Reads(all.value, record, Both(record))
    decreases Both(record) - n
  {
    hide Typing.ReadField, Reads, Typing.Below;
    if n < Both(record) {
      ReadsOne(r, record, n);
      var next := Typing.ReadField(r, record.fields[n].spec, record.values[n]);
      assert record.fields[n..][1..] == record.fields[n + 1..] && record.values[n..][1..] == record.values[n + 1..];
      if next.Some? {
        ReadsOn(next.value, record, n + 1);
      }
    }
  }

  lemma NothingYet(record: DataRecord)
    ensures Reads(Typing.NOTHING_READ, record, 0)
  {
  }

  /** informationElementId is 303, without its top bit; privateEnterpriseNumber 346, none or zero for an IANA element;
      informationElementDataType 339; informationElementSemantics 344, zero if absent; informationElementName 341. A record
      describes an element if and only if it states ID and type, and semantics throughout as numbers below 256. */
  lemma DescriptionStated(record: DataRecord)
    ensures var n := Both(record);
            var id, code := Masked(Stated(LastValue(record, 303, n), 65_536)), Stated(LastValue(record, 339, n), 256);
            var number := Stated(LastValue(record, 346, n), 0x1_0000_0000);
            var semantics :=
              if LastValue(record, 344, n).None? then Some(0) else Stated(LastValue(record, 344, n), 256);
            match Typing.Describe(record)
            case None => BadSemantics(record, n) || id.None? || code.None?
            case Some(d) =>
              && !BadSemantics(record, n) && id == Some(d.key.id) && code == Some(d.dataType)
              && d.key.enterpriseNumber == (if number == Some(0) then None else number)
              && semantics == Some(d.semantics) && d.name == Named(LastValue(record, 341, n))
  {
    hide Stated, Masked, Named, LastValue, Typing.ReadFields;
    NothingYet(record);
    ReadsOn(Typing.NOTHING_READ, record, 0);
    assert record.fields[0..] == record.fields && record.values[0..] == record.values;
  }
}
