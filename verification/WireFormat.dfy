/** Where each field of a message lies (RFC 7011 section 3, RFC 6313 section 4.5), and what becomes of malformed ones. */
module WireFormat {
  import opened Bytes
  import opened Ipfix
  import opened Scalars
  import opened Decoding
  import opened Encoding
  import opened RoundTrip
  import opened TemplateCaching
  import opened Collecting
  import opened MessageRoundTrip
  import opened TwoLevels
  import opened Sequences

  /** The octets from one position up to another. */
  function At(input: bytes, from: nat, to: nat): nat
    requires from <= to <= |input|
  {
    FromBE(input[from..to])
  }

  lemma AtLater(input: bytes, skipped: nat, from: nat, to: nat)
    requires skipped + from <= skipped + to <= |input|
    ensures At(input[skipped..], from, to) == At(input, skipped + from, skipped + to)
  {
    assert input[skipped..][from..to] == input[skipped + from..skipped + to];
  }

  lemma Word16(input: bytes)
    ensures BeU16(input) == if |input| < 2 then Err else Ok(input[2..], At(input, 0, 2))
  {
  }

  lemma Word32(input: bytes)
    ensures BeU32(input) == if |input| < 4 then Err else Ok(input[4..], At(input, 0, 4))
  {
  }

  // Messages

  /** Sixteen octets: version, length, export time in seconds, sequence number and observation domain. */
  lemma HeaderAt(input: bytes)
    ensures ParseHeader(input)
         == if |input| >= 16 && At(input, 0, 2) == 10
            then Ok(input[16..],
                    Header(10, At(input, 2, 4), At(input, 4, 8) * 1_000_000_000, At(input, 8, 12), At(input, 12, 16)))
            else Err
  {
    hide FromBE, BeU16, BeU32;
    Word16(input);
    if |input| >= 2 {
      var i2 := input[2..];
      Word16(i2);
      if |i2| >= 2 {
        AtLater(input, 2, 0, 2);
        var i4 := input[4..];
        assert i2[2..] == i4;
        Word32(i4);
        if |i4| >= 4 {
          AtLater(input, 4, 0, 4);
          var i8 := input[8..];
          assert i4[4..] == i8;
          Word32(i8);
          if |i8| >= 4 {
            AtLater(input, 8, 0, 4);
            var i12 := input[12..];
            assert i8[4..] == i12;
            Word32(i12);
            if |i12| >= 4 {
              AtLater(input, 12, 0, 4);
              assert i12[4..] == input[16..];
            }
          }
        }
      }
    }
  }

  /** The sets lie between the header and the length it tells; a message cut short is an error, and teaches nothing. */
  lemma MessageAt(config: Config, st: State, now: nat, input: bytes)
    requires ParseHeader(input).Ok?
    ensures var live, h := LiveState(config, st, now), ParseHeader(input).value;
            var end := if h.length < 16 then 16 else h.length;
            ParseMessage(config, st, now, input)
            == if end > |input| then (Err, live)
               else
                 var (sets, st') := ParseSets(config, live, h.domain, now, input[16..end]);
                 (Ok(input[end..], Packet(h, sets)), st')
  {
    hide ParseHeader, ParseSets, LiveState;
    HeaderAt(input);
    var h := ParseHeader(input).value;
    var n := if h.length < 16 then 0 else h.length - 16;
    if 16 + n <= |input| {
      assert input[16..][..n] == input[16..16 + n] && input[16..][n..] == input[16 + n..];
    }
  }

  // Sets

  /** A set has too few octets for what its header tells. */
  predicate BadSet(input: bytes) {
    |input| < 4 || At(input, 2, 4) < 4 || At(input, 2, 4) > |input|
  }

  /** ID and length, which counts them, and then the records. */
  lemma SetAt(config: Config, st: State, domain: int, now: nat, input: bytes)
    ensures ParseSet(config, st, domain, now, input)
         == if BadSet(input) then (Err, st)
            else
              var (records, st') := ParseRecords(config, st, domain, now, At(input, 0, 2), input[4..At(input, 2, 4)]);
              if records.None? then (Err, st')
              else (Ok(input[At(input, 2, 4)..], Set(At(input, 0, 2), At(input, 2, 4), records.value)), st')
  {
    hide FromBE, BeU16, ParseRecords;
    Word16(input);
    if |input| >= 4 {
      Word16(input[2..]);
      AtLater(input, 2, 0, 2);
      assert input[2..][2..] == input[4..];
      var n := At(input, 2, 4);
      if 4 <= n <= |input| {
        assert input[4..][..n - 4] == input[4..n] && input[4..][n - 4..] == input[n..];
      }
    }
  }

  /** Sets and then more octets: the sets come back, and the rest is parsed in the state they leave. */
  lemma {:induction false} SetsThenMore(config: Config, st: State, domain: int, now: nat, sets: seq<Set>, more: bytes)
    requires SetsOk(config, st, domain, now, sets) && forall i :: 0 <= i < |sets| ==> Small(sets[i])
    ensures var (after, st') := ParseSets(config, AfterAll(config, st, domain, now, sets), domain, now, more);
            ParseSets(config, st, domain, now, EncodeSets(sets) + more) == (AllFilled(sets) + after, st')
    decreases |sets|
  {
    hide ParseSet, EncodeSet, After, Small, RecordsOk;
    if sets == [] {
      assert [] + more == more && AllFilled([]) + ParseSets(config, st, domain, now, more).0
        == ParseSets(config, st, domain, now, more).0;
    } else {
      var tail := EncodeSets(sets[1..]) + more;
      assert EncodeSets(sets) + more == EncodeSet(sets[0]) + tail;
      SetRoundTrip(config, st, domain, now, sets[0], tail);
      var st1 := After(config, st, domain, now, sets[0]);
      SetsThenMore(config, st1, domain, now, sets[1..], more);
      assert AllFilled(sets) == [Filled(sets[0])] + AllFilled(sets[1..]);
      var after := ParseSets(config, AfterAll(config, st1, domain, now, sets[1..]), domain, now, more).0;
      Regroup([Filled(sets[0])], AllFilled(sets[1..]), after);
    }
  }

  /** A bad set takes nothing from those before it, nor from what they taught. */
  lemma BadSetEnds(config: Config, st: State, domain: int, now: nat, sets: seq<Set>, more: bytes)
    requires SetsOk(config, st, domain, now, sets) && (forall i :: 0 <= i < |sets| ==> Small(sets[i])) && BadSet(more)
    ensures ParseSets(config, st, domain, now, EncodeSets(sets) + more)
         == (AllFilled(sets), AfterAll(config, st, domain, now, sets))
  {
    hide ParseSet, EncodeSets, SetsOk, Small, BadSet;
    SetsThenMore(config, st, domain, now, sets, more);
    SetAt(config, AfterAll(config, st, domain, now, sets), domain, now, more);
    assert AllFilled(sets) + [] == AllFilled(sets);
  }

  /** Templates and then fewer octets than a template's header: the templates come back. */
  lemma {:induction false} TemplatesThenFew(ts: seq<TemplateRecord>, more: bytes)
    requires (forall i :: 0 <= i < |ts| ==> TemplateOk(ts[i])) && |more| < 4
    ensures ParseTemplates(EncodeRecords(TemplateRecords(ts)) + more) == ts
  {
    hide EncodeTemplate, ParseTemplate, TemplateOk;
    if ts == [] {
      assert [] + more == more;
      TemplateAt(more);
    } else {
      assert TemplateRecords(ts)[1..] == TemplateRecords(ts[1..]);
      var tail := EncodeRecords(TemplateRecords(ts[1..])) + more;
      assert EncodeRecords(TemplateRecords(ts)) + more == EncodeTemplate(ts[0]) + tail;
      TemplateRoundTrip(ts[0], tail);
      TemplatesThenFew(ts[1..], more);
      assert [ts[0]] + ts[1..] == ts;
    }
  }

  /** What the set IDs mean: 2 and 3 define templates, from 256 on records are laid out by a template, others are skipped. */
  lemma SetIds(config: Config, st: State, domain: int, now: nat, id: u16, body: bytes)
    ensures var (records, st') := ParseRecords(config, st, domain, now, id, body);
            && (id == 2 ==> records == Some(TemplateRecords(ParseTemplates(body))))
            && (id == 3 ==> records == Some(OptionsTemplateRecords(ParseOptionsTemplates(body))))
            && (id < 2 || 4 <= id < 256 ==> records == Some([]) && st' == st)
            && (records.None? ==> id >= 256 && st' == st)
  {
    hide ParseTemplates, ParseOptionsTemplates, DefineTemplates, DefineOptions, ParseTemplated, LearnTypes, ViewOf;
  }

  /** Records of a template. */
  predicate LaidOut(records: seq<Record>, fields: Fields, options: bool) {
    forall i :: 0 <= i < |records| ==>
      (if options then records[i].OptionsData? else records[i].Data?) && records[i].record.fields == fields
  }

  lemma {:induction false} ParsedLaidOut(view: View, fields: Fields, input: bytes, depth: nat)
    ensures var r := ParseDataRecords(view, fields, input, depth);
            r.Ok? ==> forall i :: 0 <= i < |r.value| ==> r.value[i].fields == fields
    decreases |input|
  {
    hide ParseFields;
    var record := ParseFields(view, fields, input, depth);
    if record.Ok? && |record.rest| != |input| {
      ParsedLaidOut(view, fields, record.rest, depth);
    }
  }

  lemma TemplatedLaidOut(view: View, id: u16, input: bytes)
    requires ParseTemplated(view, input, id, 0).Ok?
    ensures var fields, rs := view.FieldsOf(id), ParseTemplated(view, input, id, 0).value;
            if fields.None? then rs == [] else forall i :: 0 <= i < |rs| ==> rs[i].fields == fields.value
  {
    hide ParseDataRecords;
    if view.FieldsOf(id).Some? {
      ParsedLaidOut(view, view.FieldsOf(id).value, input, 0);
    }
  }

  /** Data templates come before options templates with the ID; with neither, there are no records. */
  lemma DataLaidOut(config: Config, st: State, domain: int, now: nat, id: u16, body: bytes)
    requires id >= 256 && ParseRecords(config, st, domain, now, id, body).0.Some?
    ensures var records, place := ParseRecords(config, st, domain, now, id, body).0.value, Place(domain, id);
            if place in st.templates then LaidOut(records, st.templates[place].fields, false)
            else if place in st.options then LaidOut(records, st.options[place].fields, true)
            else records == []
  {
    hide ParseTemplated, LearnTypes, Types, FieldsIn;
    FieldsAt(st.templates, domain, id);
    FieldsAt(st.options, domain, id);
    TemplatedLaidOut(ViewOf(config, st, domain), id, body);
  }

  lemma FieldsAt(m: Templates, domain: int, id: int)
    ensures var place: Key := Place(domain, id); id in FieldsIn(m, domain) <==> place in m
    ensures var place: Key := Place(domain, id); place in m ==> FieldsIn(m, domain)[id] == m[place].fields
  {
    var place: Key := Place(domain, id);
    if place in m {
      assert place.key in FieldsIn(m, domain);
    }
  }

  // Template records

  /** ID, length, and after a set top bit the enterprise number. */
  lemma SpecifierAt(input: bytes)
    ensures ParseSpecifier(input)
         == if |input| < 4 then Err
            else if At(input, 0, 2) < 0x8000 then
              Ok(input[4..], FieldSpecifier(false, At(input, 0, 2), At(input, 2, 4), None))
            else if |input| < 8 then Err
            else Ok(input[8..], FieldSpecifier(true, At(input, 0, 2) - 0x8000, At(input, 2, 4), Some(At(input, 4, 8))))
  {
    hide FromBE, BeU16, BeU32;
    Word16(input);
    if |input| >= 4 {
      Word16(input[2..]);
      AtLater(input, 2, 0, 2);
      assert input[2..][2..] == input[4..];
      Word32(input[4..]);
      if |input| >= 8 {
        AtLater(input, 4, 0, 4);
        assert input[4..][4..] == input[8..];
      }
    }
  }

  /** ID and field count, and then the fields. */
  lemma TemplateAt(input: bytes)
    ensures ParseTemplate(input)
         == if |input| < 4 then Err
            else
              var fields := ParseSpecifiers(At(input, 2, 4), input[4..]);
              if fields.Err? then Err
              else Ok(fields.rest, TemplateRecord(At(input, 0, 2), At(input, 2, 4), fields.value))
  {
    hide FromBE, BeU16, ParseSpecifiers;
    Word16(input);
    if |input| >= 4 {
      Word16(input[2..]);
      AtLater(input, 2, 0, 2);
      assert input[2..][2..] == input[4..];
    }
  }

  /** ID, field count and, but in a withdrawal, scope field count, and then the fields, scope fields among them. */
  lemma OptionsTemplateAt(input: bytes)
    ensures ParseOptionsTemplate(input)
         == if |input| < 4 then Err
            else if At(input, 2, 4) == 0 then Ok(input[4..], OptionsTemplateRecord(At(input, 0, 2), 0, 0, []))
            else if |input| < 6 then Err
            else
              var fields := ParseSpecifiers(At(input, 2, 4), input[6..]);
              if fields.Err? then Err
              else Ok(fields.rest,
                      OptionsTemplateRecord(At(input, 0, 2), At(input, 2, 4), At(input, 4, 6), fields.value))
  {
    hide FromBE, BeU16;
    Word16(input);
    if |input| >= 4 {
      Word16(input[2..]);
      AtLater(input, 2, 0, 2);
      assert input[2..][2..] == input[4..];
      Word16(input[4..]);
      if |input| >= 6 {
        AtLater(input, 4, 0, 2);
        assert input[4..][2..] == input[6..];
      }
    }
  }

  /** IDs below 256 are reserved: such a template is passed over. */
  lemma ReservedPassed(config: Config, st: State, domain: int, now: nat, t: TemplateRecord)
    requires t.templateId < 256 && t.fields != []
    ensures DefineTemplates(config, st, domain, now, [t]) == st
  {
    assert [t][1..] == [];
  }
}
