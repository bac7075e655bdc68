/** How many records a set of octets holds, in IPFIX and in NetFlow v9. */
module FixedWidth {
  import opened Bytes
  import opened Ipfix
  import opened Scalars
  import opened Decoding

  function TotalWidth(fields: Fields): nat {
    if fields == [] then 0 else fields[0].spec.length + TotalWidth(fields[1..])
  }

  /** Fields of fixed width, none of them a list. */
  predicate IsFixed(fields: Fields) {
    forall i :: 0 <= i < |fields| ==> fields[i].spec.length != VARIABLE_LENGTH && !fields[i].dataType.IsList()
  }

  lemma {:induction false} FixedFieldsConsume(view: View, fields: Fields, input: bytes, depth: nat)
    requires IsFixed(fields)
    ensures var r, w := ParseFields(view, fields, input, depth), TotalWidth(fields);
            if |input| < w then r.Err? else r.Ok? && r.rest == input[w..]
  {
    if fields != [] {
      var w := fields[0].spec.length;
      hide Scalar;
      assert fields[0].spec.length != VARIABLE_LENGTH && !fields[0].dataType.IsList();
      if w <= |input| {
        assert ParseField(view, fields[0], input, depth) == Ok(input[w..], Scalar(fields[0].dataType, input[..w]));
        FixedFieldsConsume(view, fields[1..], input[w..], depth);
        var more := TotalWidth(fields[1..]);
        assert w + more <= |input| ==> input[w..][more..] == input[w + more..];
      }
    }
  }

  /** n octets of a list-free template of fixed width w > 0 are exactly n / w records, the rest left over. */
  lemma {:induction false} FixedRecordCount(view: View, fields: Fields, input: bytes, depth: nat)
    requires IsFixed(fields) && TotalWidth(fields) > 0
    ensures var r, w := ParseDataRecords(view, fields, input, depth), TotalWidth(fields);
            r.Ok? && |r.value| == |input| / w && r.rest == input[|input| - |input| % w..]
    decreases |input|
  {
    hide ParseFields;
    var w := TotalWidth(fields);
    FixedFieldsConsume(view, fields, input, depth);
    if |input| < w {
      SmallQuotient(|input|, w);
    } else {
      FixedRecordCount(view, fields, input[w..], depth);
      StepQuotient(|input|, w);
    }
  }

  // When a data set fails

  /** A value of the field takes no octets and always parses: none of its own, and no list that is to be decoded. */
  predicate TakesNothing(field: ResolvedField, depth: nat) {
    field.spec.length == 0 && !(field.dataType.IsList() && depth < MAX_LIST_DEPTH)
  }

  predicate AllTakeNothing(fields: Fields, depth: nat) {
    forall i :: 0 <= i < |fields| ==> TakesNothing(fields[i], depth)
  }

  lemma {:induction false} NothingTaken(view: View, fields: Fields, input: bytes, depth: nat)
    requires AllTakeNothing(fields, depth)
    ensures var r := ParseFields(view, fields, input, depth); r.Ok? && r.rest == input
  {
    hide ParseFieldValue;
    if fields != [] {
      assert TakesNothing(fields[0], depth);
      assert ParseField(view, fields[0], input, depth) == Taken(fields[0].dataType, 0, input);
      NothingTaken(view, fields[1..], input, depth);
    }
  }

  /** Even an empty list has its semantic octet. */
  lemma EmptyListFails(view: View, input: bytes, dataType: DataType, depth: nat)
    requires dataType.IsList() && depth < MAX_LIST_DEPTH
    ensures ParseFieldValue(view, input, dataType, 0, depth).Err?
  {
    assert input[..0] == [];
  }

  /** A record of any other fields takes something, or does not parse. */
  lemma {:induction false} SomethingTaken(view: View, fields: Fields, input: bytes, depth: nat)
    requires !AllTakeNothing(fields, depth)
    ensures var r := ParseFields(view, fields, input, depth); r.Ok? ==> |r.rest| < |input|
  {
    var r := ParseField(view, fields[0], input, depth);
    if fields[0].dataType.IsList() && depth < MAX_LIST_DEPTH {
      EmptyListFails(view, input, fields[0].dataType, depth);
    }
    var i :| 0 <= i < |fields| && !TakesNothing(fields[i], depth);
    if TakesNothing(fields[0], depth) && r.Ok? {
      assert fields[1..][i - 1] == fields[i];
      SomethingTaken(view, fields[1..], r.rest, depth);
    }
  }

  /** Parsing records is an error, on any input, exactly when no field of theirs takes anything. */
  lemma {:induction false} RecordsFail(view: View, fields: Fields, input: bytes, depth: nat)
    ensures ParseDataRecords(view, fields, input, depth).Err? <==> AllTakeNothing(fields, depth)
    decreases |input|
  {
    hide ParseFields, AllTakeNothing;
    if AllTakeNothing(fields, depth) {
      NothingTaken(view, fields, input, depth);
    } else {
      SomethingTaken(view, fields, input, depth);
      var record := ParseFields(view, fields, input, depth);
      if record.Ok? {
        RecordsFail(view, fields, record.rest, depth);
      }
    }
  }

  /** A data set fails, whatever it holds, exactly when its template has fields and none of them takes anything. */
  lemma SetFails(view: View, id: u16, input: bytes, depth: nat)
    ensures ParseTemplated(view, input, id, depth).Err?
        <==> view.FieldsOf(id).Some? && view.FieldsOf(id).value != [] && AllTakeNothing(view.FieldsOf(id).value, depth)
  {
    hide AllTakeNothing;
    if view.FieldsOf(id).Some? {
      RecordsFail(view, view.FieldsOf(id).value, input, depth);
    }
  }

  lemma SmallQuotient(n: nat, w: nat)
    requires n < w
    ensures n / w == 0 && n % w == n
  {
    ModUnique(n, w, 0, n);
  }

  lemma StepQuotient(n: nat, w: nat)
    requires 0 < w <= n
    ensures n / w == 1 + (n - w) / w && n % w == (n - w) % w
  {
    var q, r := (n - w) / w, (n - w) % w;
    assert n - w == w * q + r;
    assert w * (q + 1) == w * q + w;
    ModUnique(n, w, q + 1, r);
  }

  // NetFlow v9: every width is fixed, and lists and booleans stay octets

  datatype TemplateField = TemplateField(fieldType: u16, length: u16)

  datatype V9Field = V9Field(spec: TemplateField, dataType: DataType, name: Name)

  function V9Value(dataType: DataType, data: bytes): FieldValue {
    if data == [] then Null
    else if dataType.IsList() || dataType.BooleanType? then OctetArray(data)
    else Scalar(dataType, data)
  }

  /** The arms of v9's own match; booleans and lists are not among them. */
  function ParseV9Value(dataType: DataType, length: nat, input: bytes): Parse<FieldValue> {
    if length == 0 then Ok(input, Null)
    else if dataType.IsList() || dataType.BooleanType? then Vector(length, input)
    else ParseScalar(dataType, length, input)
  }

  lemma V9ValueTaken(dataType: DataType, length: nat, input: bytes)
    ensures ParseV9Value(dataType, length, input)
         == if |input| < length then Err else Ok(input[length..], V9Value(dataType, input[..length]))
  {
    hide ParseScalar, Scalar;
    ScalarTaken(dataType, length, input);
  }

  function V9Width(fields: seq<V9Field>): nat {
    if fields == [] then 0 else fields[0].spec.length + V9Width(fields[1..])
  }

  /** One value per field, at consecutive offsets. */
  function V9Values(fields: seq<V9Field>, input: bytes): (values: seq<FieldValue>)
    requires V9Width(fields) <= |input|
    ensures |values| == |fields|
  {
    if fields == [] then []
    else
      var w := fields[0].spec.length;
      [V9Value(fields[0].dataType, input[..w])] + V9Values(fields[1..], input[w..])
  }

  method ParseDataRecord(input: bytes, fields: seq<V9Field>) returns (r: Parse<seq<FieldValue>>)
    ensures r == if |input| < V9Width(fields) then Err else Ok(input[V9Width(fields)..], V9Values(fields, input))
  {
    hide V9Value, ParseV9Value;
    var values: seq<FieldValue> := [];
    var remaining := input;
    for i := 0 to |fields|
      invariant |input| < V9Width(fields) <==> |remaining| < V9Width(fields[i..])
      invariant V9Width(fields) <= |input| ==>
        && input[V9Width(fields)..] == remaining[V9Width(fields[i..])..]
        && V9Values(fields, input) == values + V9Values(fields[i..], remaining)
    {
      assert fields[i..][0] == fields[i] && fields[i..][1..] == fields[i + 1..];
      var length := fields[i].spec.length;
      V9ValueTaken(fields[i].dataType, length, remaining);
      var value := ParseV9Value(fields[i].dataType, length, remaining);
      if value.Err? {
        return Err;
      }
      values := values + [value.value];
      remaining := value.rest;
    }
    assert fields[|fields|..] == [] && values + [] == values && remaining[0..] == remaining;
    r := Ok(remaining, values);
  }

  /** The records of consecutive stretches of `w` octets. */
  ghost predicate Stretches(fields: seq<V9Field>, input: bytes, records: seq<seq<FieldValue>>) {
    var w := V9Width(fields);
    && |records| * w <= |input|
    && forall k: nat :: k < |records| ==>
         k * w + w <= |input| && records[k] == V9Values(fields, input[k * w..])
  }

  lemma StretchesStep(fields: seq<V9Field>, input: bytes, records: seq<seq<FieldValue>>)
    requires Stretches(fields, input, records)
    requires |input| - |records| * V9Width(fields) >= V9Width(fields)
    ensures Stretches(fields, input, records + [V9Values(fields, input[|records| * V9Width(fields)..])])
  {
    hide V9Values, V9Width;
    var w := V9Width(fields);
    assert (|records| + 1) * w == |records| * w + w;
  }

  /** `many0` fails when a record consumes nothing, which here is when the width is zero. */
  method ParseV9Records(input: bytes, fields: seq<V9Field>) returns (r: Parse<seq<seq<FieldValue>>>)
    ensures V9Width(fields) == 0 ==> (r == if fields == [] then Ok(input, []) else Err)
    ensures V9Width(fields) > 0 ==>
      && r.Ok?
      && |r.value| == |input| / V9Width(fields)
      && r.rest == input[|input| - |input| % V9Width(fields)..]
      && Stretches(fields, input, r.value)
  {
    if fields == [] {
      return Ok(input, []);
    }
    hide V9Values, Stretches, V9Width;
    ghost var w := V9Width(fields);
    NoStretches(fields, input);
    var records: seq<seq<FieldValue>> := [];
    var remaining := input;
    while true
      invariant |records| * w + |remaining| == |input| && remaining == input[|records| * w..]
      invariant w == 0 ==> records == []
      invariant Stretches(fields, input, records)
      decreases |remaining|
    {
      var record := ParseDataRecord(remaining, fields);
      if record.Err? {
        ModUnique(|input|, w, |records|, |remaining|);
        return Ok(remaining, records);
      }
      if |record.rest| == |remaining| {
        return Err;
      }
      assert (|records| + 1) * w == |records| * w + w;
      StretchesStep(fields, input, records);
      records := records + [record.value];
      remaining := record.rest;
    }
  }

  lemma NoStretches(fields: seq<V9Field>, input: bytes)
    ensures Stretches(fields, input, []) && V9Width([]) == 0
  {
  }
}
