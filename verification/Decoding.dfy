/** What the IPFIX parser makes of its input, as functions of the input and of the
    templates and element types known when the message arrives. */
module Decoding {
  import opened Bytes
  import opened Ipfix
  import opened Scalars
  import opened Sequences

  type Fields = seq<ResolvedField>

  /** What is known of one observation domain: its live templates and every element's definition. */
  datatype View = View(templates: map<int, Fields>, options: map<int, Fields>, types: map<ElementKey, IEDefinition>)
  {
    function FieldsOf(id: u16): Option<Fields> {
      if id in templates then Some(templates[id])
      else if id in options then Some(options[id])
      else None
    }

    function TypeOf(spec: FieldSpecifier): DataType {
      var key := ElementKey(spec.id, spec.enterpriseNumber);
      if key in types then types[key].dataType else OctetArrayType
    }
  }

  /** `value`s found before those of `r`. */
  function Prepend<T>(values: seq<T>, r: Parse<seq<T>>): Parse<seq<T>> {
    if r.Ok? then Ok(r.rest, values + r.value) else Err
  }

  lemma PrependNothing<T>(r: Parse<seq<T>>)
    ensures Prepend([], r) == r
  {
    if r.Ok? {
      assert [] + r.value == r.value;
    }
  }

  lemma PrependTwice<T>(a: seq<T>, b: seq<T>, r: Parse<seq<T>>)
    ensures Prepend(a, Prepend(b, r)) == Prepend(a + b, r)
  {
    if r.Ok? {
      assert a + (b + r.value) == a + b + r.value;
    }
  }

  // Specifiers and templates

  function ParseSpecifier(input: bytes): (r: Parse<FieldSpecifier>)
    ensures r.Ok? ==> |r.rest| < |input|
  {
    var (input1, raw) :- BeU16(input);
    var (input2, length) :- BeU16(input1);
    if raw >= 0x8000 then
      var (input3, number) :- BeU32(input2);
      Ok(input3, FieldSpecifier(true, raw % 0x8000, length, Some(number)))
    else
      Ok(input2, FieldSpecifier(false, raw, length, None))
  }

  function ParseSpecifiers(count: nat, input: bytes): (r: Parse<seq<FieldSpecifier>>)
    ensures r.Ok? ==> |r.rest| <= |input| && |r.value| == count
  {
    if count == 0 then Ok(input, [])
    else
      var (rest, spec) :- ParseSpecifier(input);
      Prepend([spec], ParseSpecifiers(count - 1, rest))
  }

  function ParseTemplate(input: bytes): (r: Parse<TemplateRecord>)
    ensures r.Ok? ==> |r.rest| < |input|
  {
    var (input1, id) :- BeU16(input);
    var (input2, count) :- BeU16(input1);
    var (input3, fields) :- ParseSpecifiers(count, input2);
    Ok(input3, TemplateRecord(id, count, fields))
  }

  /** A withdrawal, of no fields, has no scope field count. */
  function ParseOptionsTemplate(input: bytes): (r: Parse<OptionsTemplateRecord>)
    ensures r.Ok? ==> |r.rest| < |input|
  {
    var (input1, id) :- BeU16(input);
    var (input2, count) :- BeU16(input1);
    var (input3, scope) :- if count == 0 then Ok(input2, 0) else BeU16(input2);
    var (input4, fields) :- ParseSpecifiers(count, input3);
    Ok(input4, OptionsTemplateRecord(id, count, scope, fields))
  }

  /** `many0`: records up to the first that does not parse. */
  function ParseTemplates(input: bytes): seq<TemplateRecord>
    decreases |input|
  {
    var r := ParseTemplate(input);
    if r.Ok? then [r.value] + ParseTemplates(r.rest) else []
  }

  function ParseOptionsTemplates(input: bytes): seq<OptionsTemplateRecord>
    decreases |input|
  {
    var r := ParseOptionsTemplate(input);
    if r.Ok? then [r.value] + ParseOptionsTemplates(r.rest) else []
  }

  // Values

  function ParseFieldLength(input: bytes, length: u16): (r: Parse<nat>)
    ensures r.Ok? ==> r.value <= 0xFFFF
    ensures r.Ok? && length != VARIABLE_LENGTH ==> r == Ok(input, length)
    ensures r.Ok? && length == VARIABLE_LENGTH ==> |r.rest| < |input|
  {
    if length != VARIABLE_LENGTH then Ok(input, length)
    else
      var (rest, first) :- BeU8(input);
      if first < 255 then Ok(rest, first)
      else
        var (rest, long) :- BeU16(rest);
        Ok(rest, long)
  }

  /** List levels that may still be entered. */
  function Left(depth: nat): nat {
    if depth < MAX_LIST_DEPTH then MAX_LIST_DEPTH - depth else 0
  }

  /** A value by its type and length; a list below the depth cap stays undecoded. */
  function ParseFieldValue(view: View, input: bytes, dataType: DataType, length: nat, depth: nat): (r: Parse<FieldValue>)
    ensures r.Ok? ==> length <= |input| && r.rest == input[length..]
    ensures (dataType.IsList() && depth < MAX_LIST_DEPTH) || r == Taken(dataType, length, input)
    decreases Left(depth), 0
  {
    if dataType.IsList() && depth < MAX_LIST_DEPTH then
      var (rest, data) :- Take(length, input);
      var r :=
        if dataType.BasicListType? then ParseBasicList(view, data, depth + 1)
        else if dataType.SubTemplateListType? then ParseSubTemplateList(view, data, depth + 1)
        else ParseSubTemplateMultiList(view, data, depth + 1);
      if r.Some? then Ok(rest, r.value) else Err
    else
      ScalarTaken(dataType, length, input);
      ParseScalar(dataType, length, input)
  }

  function ParseBasicList(view: View, data: bytes, depth: nat): (r: Option<FieldValue>)
    ensures r.Some? ==> r.value.BasicList?
    decreases Left(depth), 4
  {
    var semantic := BeU8(data);
    if semantic.Err? then None else
    var field := ParseSpecifier(semantic.rest);
    if field.Err? then None else
    var content := ParseElements(view, field.value, field.rest, depth);
    if content.Err? then None
    else Some(BasicList(SemanticOf(semantic.value), field.value, content.value))
  }

  /** Elements of one type, until the list ends or the next is cut short. */
  function ParseElements(view: View, field: FieldSpecifier, data: bytes, depth: nat): (r: Parse<seq<FieldValue>>)
    decreases Left(depth), 1, |data|
  {
    if data == [] then Ok([], [])
    else
      var (next, length) :- ParseFieldLength(data, field.length);
      if field.length == 0 || |next| < length then Ok(data, [])
      else
        var (next, value) :- ParseFieldValue(view, next, view.TypeOf(field), length, depth);
        Prepend([value], ParseElements(view, field, next, depth))
  }

  function ParseSubTemplateList(view: View, data: bytes, depth: nat): (r: Option<FieldValue>)
    ensures r.Some? ==> r.value.SubTemplateList?
    decreases Left(depth), 4
  {
    var semantic := BeU8(data);
    if semantic.Err? then None else
    var id := BeU16(semantic.rest);
    if id.Err? then None else
    var records := ParseTemplated(view, id.rest, id.value, depth);
    if records.Err? then None
    else Some(SubTemplateList(SemanticOf(semantic.value), id.value, records.value))
  }

  function ParseSubTemplateMultiList(view: View, data: bytes, depth: nat): (r: Option<FieldValue>)
    ensures r.Some? ==> r.value.SubTemplateMultiList?
    decreases Left(depth), 5
  {
    var semantic := BeU8(data);
    if semantic.Err? then None else
    var items := ParseItems(view, semantic.rest, depth);
    if items.Err? then None else Some(SubTemplateMultiList(SemanticOf(semantic.value), items.value))
  }

  /** An item with no content is skipped. */
  function ParseItems(view: View, data: bytes, depth: nat): (r: Parse<seq<MultiItem>>)
    decreases Left(depth), 4, |data|
  {
    if data == [] then Ok([], [])
    else
      var (next, id) :- BeU16(data);
      var (next, length) :- BeU16(next);
      if length <= 4 then ParseItems(view, next, depth)
      else
        var (next, content) :- Take(length - 4, next);
        var (_, records) :- ParseTemplated(view, content, id, depth);
        Prepend([MultiItem(id, length, records)], ParseItems(view, next, depth))
  }

  /** Records laid out as template `id` says; without such a template, or fields in it, none. */
  function ParseTemplated(view: View, input: bytes, id: u16, depth: nat): (r: Parse<seq<DataRecord>>)
    decreases Left(depth), 3
  {
    match view.FieldsOf(id)
    case None => Ok(input, [])
    case Some(fields) => if fields == [] then Ok(input, []) else ParseDataRecords(view, fields, input, depth)
  }

  /** `many0`: records up to the first that does not parse; one that consumes nothing is an error. */
  function ParseDataRecords(view: View, fields: Fields, input: bytes, depth: nat): (r: Parse<seq<DataRecord>>)
    decreases Left(depth), 2, |input|
  {
    var record := ParseFields(view, fields, input, depth);
    if record.Err? then Ok(input, [])
    else if |record.rest| == |input| then Err
    else Prepend([DataRecord(fields, record.value)], ParseDataRecords(view, fields, record.rest, depth))
  }

  function ParseField(view: View, field: ResolvedField, input: bytes, depth: nat): (r: Parse<FieldValue>)
    ensures r.Ok? ==> |r.rest| <= |input|
    ensures r.Ok? && field.spec.length != 0 ==> |r.rest| < |input|
    decreases Left(depth), 1, 0
  {
    var (input, length) :- ParseFieldLength(input, field.spec.length);
    ParseFieldValue(view, input, field.dataType, length, depth)
  }

  function ParseFields(view: View, fields: Fields, input: bytes, depth: nat): (r: Parse<seq<FieldValue>>)
    ensures r.Ok? ==> |r.rest| <= |input| && |r.value| == |fields|
    decreases Left(depth), 1, 1 + |fields|
  {
    if fields == [] then Ok(input, [])
    else
      var (rest, value) :- ParseField(view, fields[0], input, depth);
      Prepend([value], ParseFields(view, fields[1..], rest, depth))
  }

  // What every decoded value satisfies

  /** How deep lists nest in a value. */
  function Nesting(v: FieldValue): nat
    decreases v, 0
  {
    match v
    case BasicList(_, _, content) => 1 + NestingOfValues(content)
    case SubTemplateList(_, _, data) => 1 + NestingOfRecords(data)
    case SubTemplateMultiList(_, items) => 1 + NestingOfItems(items)
    case _ => 0
  }

  function NestingOfValues(vs: seq<FieldValue>): nat
    decreases vs, 0
  {
    if vs == [] then 0 else Max(Nesting(vs[0]), NestingOfValues(vs[1..]))
  }

  function NestingOfRecords(rs: seq<DataRecord>): nat
    decreases rs, 0
  {
    if rs == [] then 0 else Max(NestingOfValues(rs[0].values), NestingOfRecords(rs[1..]))
  }

  function NestingOfItems(items: seq<MultiItem>): nat
    decreases items, 0
  {
    if items == [] then 0 else Max(NestingOfRecords(items[0].data), NestingOfItems(items[1..]))
  }

  lemma NestingOfPrepend(v: FieldValue, vs: seq<FieldValue>)
    ensures NestingOfValues([v] + vs) == Max(Nesting(v), NestingOfValues(vs))
  {
    assert ([v] + vs)[1..] == vs;
  }

  /** A value decoded `depth` lists deep holds at most the lists left below the cap. */
  lemma {:induction false} ParsedNesting(view: View, input: bytes, dataType: DataType, length: nat, depth: nat)
    ensures var r := ParseFieldValue(view, input, dataType, length, depth); r.Ok? ==> Nesting(r.value) <= Left(depth)
    decreases Left(depth), 0
  {
    hide Scalar, ParseScalar, FromBE;
    if length <= |input| && dataType.IsList() && depth < MAX_LIST_DEPTH {
      var data := input[..length];
      var semantic := BeU8(data);
      if semantic.Ok? {
        if dataType.BasicListType? {
          var field := ParseSpecifier(semantic.rest);
          if field.Ok? {
            ElementsNesting(view, field.value, field.rest, depth + 1);
          }
        } else if dataType.SubTemplateListType? {
          var id := BeU16(semantic.rest);
          if id.Ok? {
            TemplatedNesting(view, id.rest, id.value, depth + 1);
          }
        } else {
          ItemsNesting(view, semantic.rest, depth + 1);
        }
      }
    }
  }

  lemma {:induction false} ElementsNesting(view: View, field: FieldSpecifier, data: bytes, depth: nat)
    ensures var r := ParseElements(view, field, data, depth); r.Ok? ==> NestingOfValues(r.value) <= Left(depth)
    decreases Left(depth), 1, |data|
  {
    if data != [] {
      var length := ParseFieldLength(data, field.length);
      if length.Ok? && field.length != 0 && length.value <= |length.rest| {
        ParsedNesting(view, length.rest, view.TypeOf(field), length.value, depth);
        var value := ParseFieldValue(view, length.rest, view.TypeOf(field), length.value, depth);
        if value.Ok? {
          ElementsNesting(view, field, value.rest, depth);
          var more := ParseElements(view, field, value.rest, depth);
          if more.Ok? {
            NestingOfPrepend(value.value, more.value);
          }
        }
      }
    }
  }

  lemma {:induction false} FieldsNesting(view: View, fields: Fields, input: bytes, depth: nat)
    ensures var r := ParseFields(view, fields, input, depth); r.Ok? ==> NestingOfValues(r.value) <= Left(depth)
    decreases Left(depth), 1, 1 + |fields|
  {
    if fields != [] {
      var length := ParseFieldLength(input, fields[0].spec.length);
      if length.Ok? {
        ParsedNesting(view, length.rest, fields[0].dataType, length.value, depth);
        var value := ParseField(view, fields[0], input, depth);
        if value.Ok? {
          FieldsNesting(view, fields[1..], value.rest, depth);
          var more := ParseFields(view, fields[1..], value.rest, depth);
          if more.Ok? {
            NestingOfPrepend(value.value, more.value);
          }
        }
      }
    }
  }

  lemma {:induction false} TemplatedNesting(view: View, input: bytes, id: u16, depth: nat)
    ensures var r := ParseTemplated(view, input, id, depth); r.Ok? ==> NestingOfRecords(r.value) <= Left(depth)
    decreases Left(depth), 3
  {
    match view.FieldsOf(id)
    case None =>
    case Some(fields) => DataRecordsNesting(view, fields, input, depth);
  }

  lemma {:induction false} DataRecordsNesting(view: View, fields: Fields, input: bytes, depth: nat)
    ensures var r := ParseDataRecords(view, fields, input, depth); r.Ok? ==> NestingOfRecords(r.value) <= Left(depth)
    decreases Left(depth), 2, |input|
  {
    FieldsNesting(view, fields, input, depth);
    var record := ParseFields(view, fields, input, depth);
    if record.Ok? && |record.rest| != |input| {
      DataRecordsNesting(view, fields, record.rest, depth);
      var more := ParseDataRecords(view, fields, record.rest, depth);
      if more.Ok? {
        assert ([DataRecord(fields, record.value)] + more.value)[1..] == more.value;
      }
    }
  }

  lemma {:induction false} ItemsNesting(view: View, data: bytes, depth: nat)
    ensures var r := ParseItems(view, data, depth); r.Ok? ==> NestingOfItems(r.value) <= Left(depth)
    decreases Left(depth), 4, |data|
  {
    hide FromBE, ParseTemplated, NestingOfRecords;
    if |data| >= 4 {
      var id := BeU16(data);
      var length := BeU16(id.rest);
      if length.value <= 4 {
        ItemsNesting(view, length.rest, depth);
      } else {
        var content := Take(length.value - 4, length.rest);
        if content.Ok? {
          TemplatedNesting(view, content.value, id.value, depth);
          ItemsNesting(view, content.rest, depth);
          var records := ParseTemplated(view, content.value, id.value, depth);
          var more := ParseItems(view, content.rest, depth);
          if records.Ok? && more.Ok? {
            assert ([MultiItem(id.value, length.value, records.value)] + more.value)[1..] == more.value;
          }
        }
      }
    }
  }
}
