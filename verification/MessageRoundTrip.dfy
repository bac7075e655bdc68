/** Parsing an encoded message gives the message back, with its lengths filled in. */
module MessageRoundTrip {
  import opened Bytes
  import opened Ipfix
  import opened Decoding
  import opened Encoding
  import opened RoundTrip
  import opened TemplateCaching
  import opened Collecting
  import Timestamps

  // Template records

  predicate SpecifiersOk(fields: seq<FieldSpecifier>) {
    forall i :: 0 <= i < |fields| ==> SpecifierOk(fields[i])
  }

  predicate TemplateOk(t: TemplateRecord) {
    t.fieldCount == |t.fields| && SpecifiersOk(t.fields)
  }

  /** A withdrawal would be written with a scope count no parser reads. */
  predicate OptionsTemplateOk(t: OptionsTemplateRecord) {
    t.fieldCount == |t.fields| > 0 && SpecifiersOk(t.fields)
  }

  lemma {:induction false} SpecifiersRoundTrip(fields: seq<FieldSpecifier>, rest: bytes)
    requires SpecifiersOk(fields)
    ensures ParseSpecifiers(|fields|, EncodeSpecifiers(fields) + rest) == Ok(rest, fields)
  {
    hide EncodeSpecifier, ParseSpecifier, SpecifierOk;
    if fields == [] {
      assert [] + rest == rest;
    } else {
      var more := EncodeSpecifiers(fields[1..]);
      assert EncodeSpecifiers(fields) + rest == EncodeSpecifier(fields[0]) + (more + rest);
      SpecifierRoundTrip(fields[0], more + rest);
      SpecifiersRoundTrip(fields[1..], rest);
      assert [fields[0]] + fields[1..] == fields;
    }
  }

  lemma TemplateRoundTrip(t: TemplateRecord, rest: bytes)
    requires TemplateOk(t)
    ensures ParseTemplate(EncodeTemplate(t) + rest) == Ok(rest, t)
  {
    hide FromBE, ToBE, EncodeSpecifiers, ParseSpecifiers, SpecifiersOk;
    var fields := EncodeSpecifiers(t.fields) + rest;
    assert EncodeTemplate(t) + rest == ToBE(t.templateId, 2) + (ToBE(t.fieldCount, 2) + fields);
    U16Concat(t.templateId, ToBE(t.fieldCount, 2) + fields);
    U16Concat(t.fieldCount, fields);
    SpecifiersRoundTrip(t.fields, rest);
  }

  /** An options template comes back exactly when it has fields: no parser reads a withdrawal's scope count. */
  lemma OptionsTemplateRoundTrip(t: OptionsTemplateRecord, rest: bytes)
    requires t.fieldCount == |t.fields| && SpecifiersOk(t.fields)
    ensures ParseOptionsTemplate(EncodeOptionsTemplate(t) + rest) == Ok(rest, t) <==> t.fields != []
  {
    hide FromBE, ToBE, EncodeSpecifiers, ParseSpecifiers, SpecifiersOk;
    var fields := EncodeSpecifiers(t.fields) + rest;
    var counts := ToBE(t.scopeFieldCount, 2) + fields;
    assert EncodeOptionsTemplate(t) + rest == ToBE(t.templateId, 2) + (ToBE(t.fieldCount, 2) + counts);
    U16Concat(t.templateId, ToBE(t.fieldCount, 2) + counts);
    U16Concat(t.fieldCount, counts);
    U16Concat(t.scopeFieldCount, fields);
    SpecifiersRoundTrip(t.fields, rest);
    if t.fields == [] {
      WithdrawalLeftover(t, counts, rest);
    }
  }

  lemma WithdrawalLeftover(t: OptionsTemplateRecord, counts: bytes, rest: bytes)
    requires t.fields == [] && |counts| == |EncodeSpecifiers([])| + 2 + |rest|
    ensures |counts| > |rest| && ParseSpecifiers(0, counts) == Ok(counts, [])
  {
  }

  lemma {:induction false} TemplatesRoundTrip(ts: seq<TemplateRecord>)
    requires forall i :: 0 <= i < |ts| ==> TemplateOk(ts[i])
    ensures ParseTemplates(EncodeRecords(TemplateRecords(ts))) == ts
  {
    hide EncodeTemplate, ParseTemplate, TemplateOk;
    if ts != [] {
      assert TemplateRecords(ts)[1..] == TemplateRecords(ts[1..]);
      TemplateRoundTrip(ts[0], EncodeRecords(TemplateRecords(ts[1..])));
      TemplatesRoundTrip(ts[1..]);
      assert [ts[0]] + ts[1..] == ts;
    } else {
      NoTemplate();
    }
  }

  lemma NoTemplate()
    ensures ParseTemplate([]).Err? && ParseOptionsTemplate([]).Err?
  {
  }

  lemma {:induction false} OptionsTemplatesRoundTrip(ts: seq<OptionsTemplateRecord>)
    requires forall i :: 0 <= i < |ts| ==> OptionsTemplateOk(ts[i])
    ensures ParseOptionsTemplates(EncodeRecords(OptionsTemplateRecords(ts))) == ts
  {
    hide EncodeOptionsTemplate, ParseOptionsTemplate, SpecifiersOk;
    if ts != [] {
      assert OptionsTemplateRecords(ts)[1..] == OptionsTemplateRecords(ts[1..]);
      OptionsTemplateRoundTrip(ts[0], EncodeRecords(OptionsTemplateRecords(ts[1..])));
      OptionsTemplatesRoundTrip(ts[1..]);
      assert [ts[0]] + ts[1..] == ts;
    } else {
      NoTemplate();
    }
  }

  lemma {:induction false} WrappedRecords(view: View, id: u16, rs: seq<DataRecord>)
    ensures EncodeRecords(Wrap(view, id, rs)) == EncodeDataRecords(rs)
  {
    if rs != [] {
      assert Wrap(view, id, rs)[1..] == Wrap(view, id, rs[1..]);
      WrappedRecords(view, id, rs[1..]);
    }
  }

  // Sets

  /** The records a set with this ID can carry in this state. */
  ghost predicate RecordsOk(config: Config, st: State, domain: int, id: u16, rs: seq<Record>) {
    if id == TEMPLATE_SET_ID then
      exists ts :: rs == TemplateRecords(ts) && forall i :: 0 <= i < |ts| ==> TemplateOk(ts[i])
    else if id == OPTIONS_TEMPLATE_SET_ID then
      exists ts :: rs == OptionsTemplateRecords(ts) && forall i :: 0 <= i < |ts| ==> OptionsTemplateOk(ts[i])
    else if id >= FIRST_TEMPLATE_ID then
      var view := ViewOf(config, st, domain);
      exists ds :: rs == Wrap(view, id, ds) && TypedTemplated(view, id, ds, 0)
    else rs == []
  }

  /** The template records among some records, and the options template records. */
  function TemplatesOf(rs: seq<Record>): seq<TemplateRecord> {
    if rs == [] then [] else (if rs[0].Template? then [rs[0].template] else []) + TemplatesOf(rs[1..])
  }

  function OptionsTemplatesOf(rs: seq<Record>): seq<OptionsTemplateRecord> {
    if rs == [] then [] else (if rs[0].OptionsTemplate? then [rs[0].options] else []) + OptionsTemplatesOf(rs[1..])
  }

  /** The state a set leaves: its templates are defined, its options records learned from. */
  ghost function After(config: Config, st: State, domain: int, now: nat, s: Set): State {
    if s.id == TEMPLATE_SET_ID then DefineTemplates(config, st, domain, now, TemplatesOf(s.records))
    else if s.id == OPTIONS_TEMPLATE_SET_ID then DefineOptions(config, st, domain, now, OptionsTemplatesOf(s.records))
    else if s.id >= FIRST_TEMPLATE_ID then LearnTypes(config, st, domain, s.records)
    else st
  }

  /** The state a sequence of sets leaves. */
  ghost function AfterAll(config: Config, st: State, domain: int, now: nat, sets: seq<Set>): State
    decreases |sets|
  {
    if sets == [] then st else AfterAll(config, After(config, st, domain, now, sets[0]), domain, now, sets[1..])
  }

  predicate Small(s: Set) {
    SET_HEADER_SIZE + |EncodeRecords(s.records)| <= 0xFFFF
  }

  function Filled(s: Set): Set
    requires Small(s)
  {
    s.(length := SET_HEADER_SIZE + |EncodeRecords(s.records)|)
  }

  lemma {:induction false} TemplatesAmong(ts: seq<TemplateRecord>)
    ensures TemplatesOf(TemplateRecords(ts)) == ts
  {
    if ts != [] {
      TemplatesAmong(ts[1..]);
      assert TemplateRecords(ts)[1..] == TemplateRecords(ts[1..]);
    }
  }

  lemma {:induction false} OptionsTemplatesAmong(ts: seq<OptionsTemplateRecord>)
    ensures OptionsTemplatesOf(OptionsTemplateRecords(ts)) == ts
  {
    if ts != [] {
      OptionsTemplatesAmong(ts[1..]);
      assert OptionsTemplateRecords(ts)[1..] == OptionsTemplateRecords(ts[1..]);
    }
  }

  /** The records of a set come back, and leave the state they make. */
  lemma RecordsRoundTrip(config: Config, st: State, domain: int, now: nat, s: Set)
    requires RecordsOk(config, st, domain, s.id, s.records)
    ensures ParseRecords(config, st, domain, now, s.id, EncodeRecords(s.records))
         == (Some(s.records), After(config, st, domain, now, s))
  {
    hide EncodeRecords, ParseTemplates, ParseOptionsTemplates, ParseTemplated, ViewOf, LearnTypes, DefineTemplates,
      DefineOptions, TypedTemplated, TemplateOk, OptionsTemplateOk, TemplatesOf, OptionsTemplatesOf;
    var id, rs := s.id, s.records;
    if id == TEMPLATE_SET_ID {
      var ts :| rs == TemplateRecords(ts) && forall i :: 0 <= i < |ts| ==> TemplateOk(ts[i]);
      TemplatesRoundTrip(ts);
      TemplatesAmong(ts);
    } else if id == OPTIONS_TEMPLATE_SET_ID {
      var ts :| rs == OptionsTemplateRecords(ts) && forall i :: 0 <= i < |ts| ==> OptionsTemplateOk(ts[i]);
      OptionsTemplatesRoundTrip(ts);
      OptionsTemplatesAmong(ts);
    } else if id >= FIRST_TEMPLATE_ID {
      var view := ViewOf(config, st, domain);
      var ds :| rs == Wrap(view, id, ds) && TypedTemplated(view, id, ds, 0);
      WrappedRecords(view, id, ds);
      TemplatedRoundTrip(view, id, ds, 0);
    }
  }

  lemma SetRoundTrip(config: Config, st: State, domain: int, now: nat, s: Set, rest: bytes)
    requires Small(s) && RecordsOk(config, st, domain, s.id, s.records)
    ensures ParseSet(config, st, domain, now, EncodeSet(s) + rest)
         == (Ok(rest, Filled(s)), After(config, st, domain, now, s))
  {
    hide EncodeRecords, ParseRecords, RecordsOk, FromBE, ToBE, After;
    var body := EncodeRecords(s.records);
    var length := SET_HEADER_SIZE + |body|;
    assert EncodeSet(s) + rest == ToBE(s.id, 2) + (ToBE(length, 2) + (body + rest));
    U16Concat(s.id, ToBE(length, 2) + (body + rest));
    U16Concat(length, body + rest);
    TakeConcat(body, rest);
    RecordsRoundTrip(config, st, domain, now, s);
  }

  /** Each set is one a parser can give in the state the sets before it leave. */
  ghost predicate SetsOk(config: Config, st: State, domain: int, now: nat, sets: seq<Set>)
    decreases |sets|
  {
    sets == []
    || (Small(sets[0]) && RecordsOk(config, st, domain, sets[0].id, sets[0].records)
        && SetsOk(config, After(config, st, domain, now, sets[0]), domain, now, sets[1..]))
  }

  function AllFilled(sets: seq<Set>): (r: seq<Set>)
    requires forall i :: 0 <= i < |sets| ==> Small(sets[i])
    ensures |r| == |sets| && forall i :: 0 <= i < |r| ==> r[i] == Filled(sets[i])
  {
    seq(|sets|, i requires 0 <= i < |sets| => Filled(sets[i]))
  }

  lemma {:induction false} SetsSmall(config: Config, st: State, domain: int, now: nat, sets: seq<Set>)
    requires SetsOk(config, st, domain, now, sets)
    ensures forall i :: 0 <= i < |sets| ==> Small(sets[i])
    decreases |sets|
  {
    hide Small, RecordsOk, After;
    if sets != [] {
      SetsSmall(config, After(config, st, domain, now, sets[0]), domain, now, sets[1..]);
    }
  }

  lemma {:induction false} SetsRoundTrip(config: Config, st: State, domain: int, now: nat, sets: seq<Set>)
    requires SetsOk(config, st, domain, now, sets) && forall i :: 0 <= i < |sets| ==> Small(sets[i])
    ensures ParseSets(config, st, domain, now, EncodeSets(sets))
         == (AllFilled(sets), AfterAll(config, st, domain, now, sets))
    decreases |sets|
  {
    hide ParseSet, EncodeSet, After, Small, RecordsOk;
    if sets == [] {
      NoSet(config, st, domain, now);
    } else {
      SetRoundTrip(config, st, domain, now, sets[0], EncodeSets(sets[1..]));
      SetsRoundTrip(config, After(config, st, domain, now, sets[0]), domain, now, sets[1..]);
      assert AllFilled(sets) == [Filled(sets[0])] + AllFilled(sets[1..]);
    }
  }

  lemma NoSet(config: Config, st: State, domain: int, now: nat)
    ensures ParseSet(config, st, domain, now, []) == (Err, st)
  {
  }

  // Messages

  /** A message whose sets the parser can give in this state. */
  ghost predicate PacketOk(config: Config, st: State, now: nat, p: Packet) {
    && HEADER_SIZE + |EncodeSets(p.sets)| <= 0xFFFF
    && SetsOk(config, LiveState(config, st, now), p.header.domain, now, p.sets)
  }

  /** Export times travel as whole seconds, modulo 2^32. */
  function ReceivedHeader(h: Header, length: u16): Header {
    h.(length := length, exportTime := Timestamps.Seconds(h.exportTime) % Timestamps.TWO32 * Timestamps.SECOND)
  }

  /** A whole number of seconds that 32 bits can count. */
  predicate TimeFits(t: Time) {
    t % Timestamps.SECOND == 0 && 0 <= Timestamps.Seconds(t) < Timestamps.TWO32
  }

  lemma TimeKept(t: Time)
    ensures Timestamps.Seconds(t) % Timestamps.TWO32 * Timestamps.SECOND == t <==> TimeFits(t)
  {
    var s := Timestamps.Seconds(t);
    assert t == s * Timestamps.SECOND + t % Timestamps.SECOND;
    if 0 <= s < Timestamps.TWO32 {
      ModSmall(s, Timestamps.TWO32);
    }
  }

  /** What becomes of any header, and which come back as they were: no parser reads another version, and the second must
      fit 32 bits. */
  lemma HeaderRoundTrip(h: Header, length: u16, rest: bytes)
    ensures ParseHeader(EncodeHeader(h, length) + rest)
            == if h.version == IPFIX_VERSION then Ok(rest, ReceivedHeader(h, length)) else Err
    ensures ParseHeader(EncodeHeader(h, length) + rest) == Ok(rest, h.(length := length))
            <==> h.version == IPFIX_VERSION && TimeFits(h.exportTime)
  {
    hide FromBE, ToBE, TimeFits;
    Pow256Values();
    var s: u32 := Timestamps.Seconds(h.exportTime) % Pow256(4);
    TimeKept(h.exportTime);
    var r5 := ToBE(h.domain, 4) + rest;
    var r4 := ToBE(h.sequenceNumber, 4) + r5;
    var r3 := ToBE(s, 4) + r4;
    var r2 := ToBE(length, 2) + r3;
    assert EncodeHeader(h, length) + rest == ToBE(h.version, 2) + r2;
    U16Concat(h.version, r2);
    U16Concat(length, r3);
    U32Concat(s, r4);
    U32Concat(h.sequenceNumber, r5);
    U32Concat(h.domain, rest);
  }

  /** What parsing an encoded message gives: the message with its lengths filled in, and the state its sets make. */
  lemma MessageReceived(config: Config, st: State, now: nat, p: Packet, rest: bytes)
    requires PacketOk(config, st, now, p) && p.header.version == IPFIX_VERSION
    ensures forall i :: 0 <= i < |p.sets| ==> Small(p.sets[i])
    ensures ParseMessage(config, st, now, EncodePacket(p) + rest)
         == (Ok(rest, Packet(ReceivedHeader(p.header, |EncodePacket(p)|), AllFilled(p.sets))),
             AfterAll(config, LiveState(config, st, now), p.header.domain, now, p.sets))
  {
    hide EncodeHeader, ParseHeader, ParseSets, EncodeSets, SetsOk, LiveState, Small, AfterAll, ReceivedHeader;
    var body := EncodeSets(p.sets);
    var length: u16 := HEADER_SIZE + |body|;
    assert EncodePacket(p) + rest == EncodeHeader(p.header, length) + (body + rest);
    HeaderRoundTrip(p.header, length, body + rest);
    assert ReceivedHeader(p.header, length).length == length && ReceivedHeader(p.header, length).domain == p.header.domain by {
      ReceivedKeeps(p.header, length);
    }
    TakeConcat(body, rest);
    SetsSmall(config, LiveState(config, st, now), p.header.domain, now, p.sets);
    SetsRoundTrip(config, LiveState(config, st, now), p.header.domain, now, p.sets);
  }

  lemma ReceivedKeeps(h: Header, length: u16)
    ensures var r := ReceivedHeader(h, length); r.length == length && r.domain == h.domain
  {
  }

  lemma OtherVersion(config: Config, st: State, now: nat, p: Packet, rest: bytes)
    requires PacketOk(config, st, now, p) && p.header.version != IPFIX_VERSION
    ensures ParseMessage(config, st, now, EncodePacket(p) + rest).0 == Err
  {
    hide EncodeHeader, ParseHeader, ParseSets, EncodeSets, SetsOk, LiveState, ReceivedHeader;
    var body := EncodeSets(p.sets);
    assert EncodePacket(p) + rest == EncodeHeader(p.header, HEADER_SIZE + |body|) + (body + rest);
    HeaderRoundTrip(p.header, HEADER_SIZE + |body|, body + rest);
  }

  /** `parse(encode(p)) == p`, lengths filled in, whatever follows, exactly when its version is IPFIX's and its export time
      a whole number of seconds that 32 bits can count. */
  lemma PacketRoundTrip(config: Config, st: State, now: nat, p: Packet, rest: bytes)
    requires PacketOk(config, st, now, p)
    ensures forall i :: 0 <= i < |p.sets| ==> Small(p.sets[i])
    ensures ParseMessage(config, st, now, EncodePacket(p) + rest).0
            == Ok(rest, Packet(p.header.(length := |EncodePacket(p)|), AllFilled(p.sets)))
            <==> p.header.version == IPFIX_VERSION && TimeFits(p.header.exportTime)
  {
    hide ParseMessage, EncodePacket, AllFilled, AfterAll, Small, TimeFits, SetsOk;
    SetsSmall(config, LiveState(config, st, now), p.header.domain, now, p.sets);
    if p.header.version == IPFIX_VERSION {
      MessageReceived(config, st, now, p, rest);
      TimeKept(p.header.exportTime);
    } else {
      OtherVersion(config, st, now, p, rest);
    }
  }
}
