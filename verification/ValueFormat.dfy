/** What the octets of a value mean (RFC 7011 section 6, RFC 6313 section 4.5), odd ones included. */
module ValueFormat {
  import opened Bytes
  import opened Ipfix
  import opened Scalars
  import opened Decoding
  import opened Encoding
  import opened WireFormat
  import opened FixedWidth
  import Utf8

  // Lengths

  /** A field of 65535 octets is one whose length comes first: in an octet, or after 255 in two more. */
  lemma LengthAt(input: bytes, length: u16)
    ensures ParseFieldLength(input, length)
         == if length != 65_535 then Ok(input, length)
            else if input == [] then Err
            else if input[0] < 255 then Ok(input[1..], input[0])
            else if |input| < 3 then Err
            else Ok(input[3..], At(input, 1, 3))
  {
    hide FromBE, BeU16;
    if length == 65_535 && input != [] {
      Word16(input[1..]);
      if |input| >= 3 {
        AtLater(input, 1, 0, 2);
        assert input[1..][2..] == input[3..];
      }
    }
  }

  lemma LengthOctets(n: nat)
    ensures |EncodeLength(n)| == if n < 255 then 1 else 3
  {
  }

  // Values that are not lists

  /** A Boolean is 1 for true and 2 for false; other octets are no value. */
  lemma BooleanAt(octet: byte)
    ensures var v := Scalar(BooleanType, [octet]);
            && (v == Boolean(true) <==> octet == 1) && (v == Boolean(false) <==> octet == 2)
            && (v == Null <==> octet != 1 && octet != 2)
  {
  }

  lemma {:induction false} TrimmedIs(data: bytes)
    ensures var t := Utf8.TrimNuls(data);
            |t| <= |data| && data == t + Zeros(|data| - |t|) && (t == [] || t[|t| - 1] != 0)
  {
    if data != [] && data[|data| - 1] == 0 {
      var n := |data| - 1;
      TrimmedIs(data[..n]);
      var t := Utf8.TrimNuls(data[..n]);
      assert data == data[..n] + [0];
      assert data == t + Zeros(|data| - |t|);
    } else {
      assert data + Zeros(0) == data;
    }
  }

  lemma StringParsed(data: bytes)
    ensures Scalar(StringType, data) == ParseString(data)
  {
    hide FromBE, ParseString;
  }

  /** A string is its octets but for the NULs at its end, if they are UTF-8, and else no value. */
  lemma StringAt(data: bytes, s: bytes)
    ensures Scalar(StringType, data) == String(s)
       <==> Utf8.Valid(data) && |s| <= |data| && data == s + Zeros(|data| - |s|) && (s == [] || s[|s| - 1] != 0)
    ensures Scalar(StringType, data) == Null <==> !Utf8.Valid(data)
  {
    hide Utf8.Valid, Scalar, Zeros;
    StringParsed(data);
    TrimmedIs(data);
    if |s| <= |data| && data == s + Zeros(|data| - |s|) && (s == [] || s[|s| - 1] != 0) {
      Utf8.TrimPadded(s, |data| - |s|);
    }
  }

  /** Milliseconds past the last representable second are no value. */
  lemma MillisecondsAt(data: bytes)
    requires |data| == 8
    ensures Scalar(DateTimeMillisecondsType, data)
         == if FromBE(data) <= 8_210_266_876_799_999 then DateTimeMilliseconds(FromBE(data) * 1_000_000) else Null
  {
    hide FromBE;
  }

  // Values written at a given width

  function NumberOf(v: FieldValue): Option<int> {
    match v
    case Unsigned8(x) => Some(x)
    case Unsigned16(x) => Some(x)
    case Unsigned32(x) => Some(x)
    case Unsigned64(x) => Some(x)
    case Signed8(x) => Some(x)
    case Signed16(x) => Some(x)
    case Signed32(x) => Some(x)
    case Signed64(x) => Some(x)
    case _ => None
  }

  lemma {:induction false} LowOctets(v: nat, n: nat)
    ensures FromBE(ToBE(v, n)) == v % Pow256(n)
  {
    if n > 0 {
      LowOctets(v / 256, n - 1);
      assert ToBE(v, n)[..n - 1] == ToBE(v / 256, n - 1);
      OctetsMore(v, Pow256(n - 1));
    }
  }

  lemma OctetsMore(v: nat, p: nat)
    requires p > 0
    ensures v % (256 * p) == 256 * (v / 256 % p) + v % 256
  {
    var q, r, low := v / 256 / p, v / 256 % p, v % 256;
    OneProduct(p, q);
    ModUnique(v, 256 * p, q, 256 * r + low);
  }

  lemma OneProduct(p: nat, q: nat)
    ensures 256 * (p * q) == (256 * p) * q
  {
  }

  /** An integer keeps its low octets, or has its sign extended: it is the same modulo 256 to the width. */
  lemma IntegerFixed(v: FieldValue, n: nat)
    requires NumberOf(v).Some?
    ensures |EncodeFixed(v, n)| == n && FromBE(EncodeFixed(v, n)) == NumberOf(v).value % Pow256(n)
  {
    hide FromBE, ToBE, Pow256;
    var x := NumberOf(v).value;
    if x >= 0 {
      LowOctets(x, n);
    }
    var m: nat := x % Pow256(n);
    LowOctets(m, n);
    ModSmall(m, Pow256(n));
  }

  /** Octets are cut or followed by zeros. */
  lemma OctetsFixed(b: bytes, n: nat)
    ensures var data := EncodeFixed(OctetArray(b), n);
            |data| == n && forall i :: 0 <= i < n ==> data[i] == if i < |b| then b[i] else 0
  {
  }

  /** A string is cut to as much of it as fits and is UTF-8, and followed by zeros. */
  lemma StringFixed(b: bytes, n: nat)
    requires Utf8.Valid(b)
    ensures var data, k := EncodeFixed(String(b), n), Utf8.FloorBoundary(b, n);
            && |data| == n && data == b[..k] + Zeros(n - k) && Utf8.Valid(b[..k])
            && forall j: nat :: j <= n && j <= |b| && Utf8.Valid(b[..j]) ==> j <= k
  {
    hide Utf8.Valid, Utf8.FloorBoundary;
    Utf8.ValidCut(b, n);
    forall j: nat | j <= n && j <= |b| && Utf8.Valid(b[..j])
      ensures j <= Utf8.FloorBoundary(b, n)
    {
      Utf8.FloorIsLast(b, n, j);
    }
  }

  // Lists

  /** The structured data type semantics (RFC 6313 section 4.4). */
  lemma SemanticsAt(octet: u8)
    ensures SemanticOf(octet)
         == if octet < 5 then [NoneOf, ExactlyOneOf, OneOrMoreOf, AllOf, Ordered][octet] else Undefined
  {
  }

  /** Lists nest eight deep; below that they stay octets. */
  lemma DeepLists(view: View, dataType: DataType, length: nat, input: bytes, depth: nat)
    requires dataType.IsList() && length <= |input|
    ensures var r := ParseFieldValue(view, input, dataType, length, depth);
            if depth >= 8 then r == Ok(input[length..], OctetArray(input[..length]))
            else r.Err? || (r.rest == input[length..] && match r.value
                                                         case BasicList(_, _, _) => dataType.BasicListType?
                                                         case SubTemplateList(_, _, _) => dataType.SubTemplateListType?
                                                         case SubTemplateMultiList(_, _) => dataType.SubTemplateMultiListType?
                                                         case _ => false)
  {
    hide ParseScalar, ParseBasicList, ParseSubTemplateList, ParseSubTemplateMultiList;
    if depth < 8 && dataType.SubTemplateMultiListType? {
      MultiListIs(view, input[..length], depth + 1);
    }
  }

  lemma MultiListIs(view: View, data: bytes, depth: nat)
    ensures var r := ParseSubTemplateMultiList(view, data, depth); r.Some? ==> r.value.SubTemplateMultiList?
  {
  }

  /** A semantic, a field specifier and then elements. */
  lemma BasicListAt(view: View, data: bytes, depth: nat)
    requires data != []
    ensures var field := ParseSpecifier(data[1..]);
            ParseBasicList(view, data, depth)
            == if field.Err? then None
               else
                 var content := ParseElements(view, field.value, field.rest, depth);
                 if content.Err? then None else Some(BasicList(SemanticOf(data[0]), field.value, content.value))
  {
  }

  /** A semantic, a template ID and then records. */
  lemma SubTemplateListAt(view: View, data: bytes, depth: nat)
    ensures ParseSubTemplateList(view, data, depth)
         == if |data| < 3 then None
            else
              var records := ParseTemplated(view, data[3..], At(data, 1, 3), depth);
              if records.Err? then None else Some(SubTemplateList(SemanticOf(data[0]), At(data, 1, 3), records.value))
  {
    hide FromBE, BeU16, ParseTemplated;
    if data != [] {
      Word16(data[1..]);
      if |data| >= 3 {
        AtLater(data, 1, 0, 2);
        assert data[1..][2..] == data[3..];
      }
    }
  }

  /** A template ID and a length, which counts both, and then records; a length that leaves none is passed over. */
  lemma ItemsAt(view: View, data: bytes, depth: nat)
    requires data != []
    ensures ParseItems(view, data, depth)
         == if |data| < 4 then Err
            else
              var id, length := At(data, 0, 2), At(data, 2, 4);
              if length <= 4 then ParseItems(view, data[4..], depth)
              else if length > |data| then Err
              else
                var records := ParseTemplated(view, data[4..length], id, depth);
                if records.Err? then Err
                else Prepend([MultiItem(id, length, records.value)], ParseItems(view, data[length..], depth))
  {
    hide FromBE, BeU16, ParseTemplated, Prepend;
    Word16(data);
    if |data| >= 4 {
      Word16(data[2..]);
      AtLater(data, 2, 0, 2);
      assert data[2..][2..] == data[4..];
      var length := At(data, 2, 4);
      if 4 < length <= |data| {
        assert data[4..][..length - 4] == data[4..length] && data[4..][length - 4..] == data[length..];
      }
    }
  }

  /** Elements of one fixed width, as many as there is room for: one cut short is none. */
  lemma {:induction false} FixedElements(view: View, field: FieldSpecifier, data: bytes, depth: nat)
    requires 0 < field.length < 65_535 && !view.TypeOf(field).IsList()
    ensures var r, w := ParseElements(view, field, data, depth), field.length;
            && r.Ok? && |r.value| == |data| / w
            && forall i: nat :: i < |data| / w ==> ElementAt(view, field, data, r.value, i)
    decreases |data|
  {
    hide Scalar, ElementAt;
    var r, w := ParseElements(view, field, data, depth), field.length;
    LengthAt(data, w);
    if |data| >= w {
      var value := Scalar(view.TypeOf(field), data[..w]);
      assert ParseFieldValue(view, data, view.TypeOf(field), w, depth) == Ok(data[w..], value);
      FixedElements(view, field, data[w..], depth);
      StepQuotient(|data|, w);
      var more := ParseElements(view, field, data[w..], depth).value;
      assert r.value == [value] + more;
      forall i: nat | i < |data| / w
        ensures ElementAt(view, field, data, r.value, i)
      {
        if i == 0 {
          ElementFirst(view, field, data, r.value);
        } else {
          ElementLater(view, field, data, value, more, i - 1);
        }
      }
    } else {
      SmallQuotient(|data|, w);
    }
  }

  /** Elements that nothing defines are octets; others are of their definition's type. */
  lemma ElementsOf(view: View, field: FieldSpecifier, data: bytes, depth: nat, i: nat)
    requires 0 < field.length < 65_535 && i < |data| / field.length
    requires var key := ElementKey(field.id, field.enterpriseNumber);
             key in view.types ==> !view.types[key].dataType.IsList()
    ensures var r, w := ParseElements(view, field, data, depth), field.length;
            var key := ElementKey(field.id, field.enterpriseNumber);
            && r.Ok? && i < |r.value| && i * w + w <= |data|
            && r.value[i] == if key in view.types then Scalar(view.types[key].dataType, data[i * w..i * w + w])
                             else OctetArray(data[i * w..i * w + w])
  {
    hide Scalar;
    FixedElements(view, field, data, depth);
    assert ElementAt(view, field, data, ParseElements(view, field, data, depth).value, i);
    OctetsRead(data[i * field.length..i * field.length + field.length]);
  }

  lemma OctetsRead(data: bytes)
    ensures Scalar(OctetArrayType, data) == OctetArray(data)
  {
  }

  /** The i-th element lies at the i-th multiple of the width. */
  ghost predicate ElementAt(view: View, field: FieldSpecifier, data: bytes, values: seq<FieldValue>, i: nat) {
    var w := field.length;
    i < |values| && i * w + w <= |data| && values[i] == Scalar(view.TypeOf(field), data[i * w..i * w + w])
  }

  lemma ElementFirst(view: View, field: FieldSpecifier, data: bytes, values: seq<FieldValue>)
    requires field.length <= |data| && values != [] && values[0] == Scalar(view.TypeOf(field), data[..field.length])
    ensures ElementAt(view, field, data, values, 0)
  {
    hide Scalar;
    assert data[0..field.length] == data[..field.length];
  }

  lemma ElementLater(view: View, field: FieldSpecifier, data: bytes, value: FieldValue, values: seq<FieldValue>, i: nat)
    requires field.length <= |data| && ElementAt(view, field, data[field.length..], values, i)
    ensures ElementAt(view, field, data, [value] + values, i + 1)
  {
    hide Scalar;
    var w := field.length;
    assert (i + 1) * w == i * w + w;
    assert data[w..][i * w..i * w + w] == data[(i + 1) * w..(i + 1) * w + w];
  }

  /** Elements without width are none. */
  lemma NoElements(view: View, field: FieldSpecifier, data: bytes, depth: nat)
    requires field.length == 0
    ensures ParseElements(view, field, data, depth) == Ok(data, [])
  {
  }
}
