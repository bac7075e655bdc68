/** What forgetting a quiet exporter costs, exactly: whatever it told. */
module ForgottenRuns {
  import opened Bytes
  import opened Ipfix
  import opened TwoLevels
  import opened TemplateCaching
  import opened Collecting
  import opened Decoding
  import opened Encoding
  import opened RoundTrip
  import opened Processing
  import opened FlowProcessing
  import opened Flows
  import opened Sequences
  import opened Forgetting
  import opened TellingMessages
  import opened Domains
  import Timestamps
  import Typing = ElementTyping

  // What holds of any exporter, whatever it sent

  ghost predicate LearnedOk(registry: Registry, s: Typing.Subject, learned: Typing.Learned) {
    && 0 <= s.domain < 0x1_0000_0000 && Describable(s.key) && s.key !in registry
    && (learned.Defined? ==> Typing.DataTypeOf(learned.description).Some?
                             && learned.definition == Typing.Definition(learned.description))
  }

  ghost predicate KnownOk(registry: Registry, known: Typing.Known) {
    forall s :: s in known ==> LearnedOk(registry, s, known[s])
  }

  lemma LearnOk(registry: Registry, known: Typing.Known, domain: u32, record: DataRecord)
    requires KnownOk(registry, known)
    ensures KnownOk(registry, Typing.Learn(known, registry, domain, record))
  {
    hide Typing.DataTypeOf, Typing.Describe;
    AcceptedKey(registry, record);
  }

  lemma {:induction false} LearnRecordsOk(registry: Registry, known: Typing.Known, domain: u32, rs: seq<Record>)
    requires KnownOk(registry, known)
    ensures KnownOk(registry, LearnRecords(registry, known, domain, rs))
    decreases |rs|
  {
    hide KnownOk, Typing.Learn;
    if rs != [] {
      if rs[0].OptionsData? {
        LearnOk(registry, known, domain, rs[0].record);
        LearnRecordsOk(registry, Typing.Learn(known, registry, domain, rs[0].record), domain, rs[1..]);
      } else {
        LearnRecordsOk(registry, known, domain, rs[1..]);
      }
    }
  }

  lemma {:induction false} TemplatesTeachNothing(config: Config, st: State, domain: int, now: nat, ts: seq<TemplateRecord>)
    ensures DefineTemplates(config, st, domain, now, ts).known == st.known
    decreases |ts|
  {
    hide Types, Define;
    if ts != [] {
      var templates := Define(st.templates, Types(config.registry, st.known, domain), domain, now, config.timeout,
        TEMPLATE_SET_ID, ts[0].templateId, ts[0].fields);
      TemplatesTeachNothing(config, st.(templates := templates), domain, now, ts[1..]);
    }
  }

  lemma {:induction false} OptionsTeachNothing(
    config: Config, st: State, domain: int, now: nat, ts: seq<OptionsTemplateRecord>)
    ensures DefineOptions(config, st, domain, now, ts).known == st.known
    decreases |ts|
  {
    hide Types, Define;
    if ts != [] {
      var options := Define(st.options, Types(config.registry, st.known, domain), domain, now, config.timeout,
        OPTIONS_TEMPLATE_SET_ID, ts[0].templateId, ts[0].fields);
      OptionsTeachNothing(config, st.(options := options), domain, now, ts[1..]);
    }
  }

  lemma RecordsKnownOk(config: Config, st: State, domain: u32, now: nat, id: u16, body: bytes)
    requires KnownOk(config.registry, st.known)
    ensures KnownOk(config.registry, ParseRecords(config, st, domain, now, id, body).1.known)
  {
    hide KnownOk, DefineTemplates, DefineOptions, LearnRecords, Resolver, ViewOf, ParseTemplates, ParseOptionsTemplates,
      ParseTemplated;
    TemplatesTeachNothing(config, st, domain, now, ParseTemplates(body));
    OptionsTeachNothing(config, st, domain, now, ParseOptionsTemplates(body));
    var view := ViewOf(config, st, domain);
    var r := ParseTemplated(view, body, id, 0);
    if r.Ok? {
      LearnRecordsOk(config.registry, st.known, domain, Wrap(view, id, r.value));
    }
  }

  lemma {:induction false} SetsKnownOk(config: Config, st: State, domain: u32, now: nat, input: bytes)
    requires KnownOk(config.registry, st.known)
    ensures KnownOk(config.registry, ParseSets(config, st, domain, now, input).1.known)
    decreases |input|
  {
    hide ParseRecords, KnownOk;
    forall id: u16, body: bytes
      ensures KnownOk(config.registry, ParseRecords(config, st, domain, now, id, body).1.known)
    {
      RecordsKnownOk(config, st, domain, now, id, body);
    }
    var (r, st') := ParseSet(config, st, domain, now, input);
    if r.Ok? {
      SetsKnownOk(config, st', domain, now, r.rest);
    }
  }

  lemma MessageKnownOk(config: Config, st: State, now: nat, input: bytes)
    requires KnownOk(config.registry, st.known)
    ensures KnownOk(config.registry, ParseMessage(config, st, now, input).1.known)
  {
    hide ParseSets, KnownOk, Live;
    var live := LiveState(config, st, now);
    forall domain: u32, body: bytes
      ensures KnownOk(config.registry, ParseSets(config, live, domain, now, body).1.known)
    {
      SetsKnownOk(config, live, domain, now, body);
    }
  }

  ghost predicate KeptOk(config: Config, kept: Kept, clock: nat) {
    && KnownOk(config.registry, kept.parser.known) && StateSentBy(kept.parser, clock)
    && forall id :: id in kept.domains ==> 0 <= id < 0x1_0000_0000 && DomainOk(kept.domains[id])
  }

  lemma ProcessKeepsOk(config: Config, kept: Kept, clock: nat, now: nat, input: bytes)
    requires KeptOk(config, kept, clock) && clock <= now
    ensures KeptOk(config, Process(config, kept, now, input).0, now)
  {
    hide ParseMessage, KnownOk, NotedSets, ConvertSets, DomainOk;
    MessageKnownOk(config, kept.parser, now, input);
    MessageSentBy(config, kept.parser, now, input);
    var r := ParseMessage(config, kept.parser, now, input).0;
    if r.Ok? {
      BlankOk();
      NotedSetsOk(DomainIn(kept.domains, r.value.header.domain), r.value.sets);
    }
  }

  lemma BlankOk()
    ensures DomainOk(BLANK)
  {
  }

  lemma NewOk(config: Config)
    ensures KeptOk(config, NEW, 0)
  {
  }

  lemma {:induction false} AllKeepOk(config: Config, kept: Kept, clock: nat, ms: seq<Message>, last: nat)
    requires KeptOk(config, kept, clock) && Onward(clock, ms) && clock <= last && forall i :: 0 <= i < |ms| ==> ms[i].now <= last
    ensures KeptOk(config, ProcessAll(config, kept, ms).0, last)
    decreases |ms|
  {
    hide Process, KnownOk, DomainOk;
    if ms != [] {
      ProcessKeepsOk(config, kept, clock, ms[0].now, ms[0].octets);
      AllKeepOk(config, Process(config, kept, ms[0].now, ms[0].octets).0, ms[0].now, ms[1..], last);
    }
  }

  // Messages that tell an exporter remembered from one forgotten

  predicate AllAt(now: nat, ms: seq<Message>) {
    forall i :: 0 <= i < |ms| ==> ms[i].now == now
  }

  lemma FadedLive(config: Config, st: State, last: nat, again: nat)
    requires StateSentBy(st, last) && last + config.timeout <= again
    ensures LiveState(config, st, again) == State(st.known, map[], map[])
  {
  }

  lemma ParserAfter(config: Config, kept: Kept, now: nat, input: bytes)
    ensures var (next, answer) := Process(config, kept, now, input);
            (answer.packet, next.parser) == ParseMessage(config, kept.parser, now, input)
  {
    hide ParseMessage, NotedSets, ConvertSets;
  }

  lemma OneAnswer(config: Config, kept: Kept, m: Message)
    ensures ProcessAll(config, kept, [m]).1 == [Process(config, kept, m.now, m.octets).1]
  {
    hide Process;
    assert [m][1..] == [];
  }

  lemma TwoAnswers(config: Config, kept: Kept, m1: Message, m2: Message)
    ensures var (next, answer) := Process(config, kept, m1.now, m1.octets);
            ProcessAll(config, kept, [m1, m2]).1 == [answer, Process(config, next, m2.now, m2.octets).1]
  {
    hide Process;
    assert [m1, m2][1..] == [m2] && [m2][1..] == [];
  }

  /** Whatever was learned of an element, a record using it shows, or one more type record and then one using it. */
  lemma TypesShow(config: Config, kept: Kept, last: nat, again: nat) returns (ms: seq<Message>)
    requires KnowsElements(config.registry) && config.timeout > 0 && last + config.timeout <= again
    requires KeptOk(config, kept, last) && kept.parser.known != map[]
    ensures AllAt(again, ms) && ProcessAll(config, kept, ms).1 != ProcessAll(config, NEW, ms).1
  {
    hide ParseMessage, Process, KnowsElements, EncodePacket, Live, FieldKnowing, Typing.Learn, DomainOk;
    var known, live := kept.parser.known, State(kept.parser.known, map[], map[]);
    FadedLive(config, kept.parser, last, again);
    SomethingKnown(known);
    var s :| s in known;
    var domain: u32, key := s.domain, s.key;
    NothingReady(config, again, known);
    NothingReady(config, again, map[]);
    if known[s].Defined? && known[s].description == Unsigned8Description(key) {
      FieldDefined(config.registry, known, s);
      FieldUnknown(config.registry, map[], s);
      var octets := UsesDiffer(config, live, INITIAL, domain, again, key);
      ms := [Message(again, octets)];
      ParseLive(config, kept.parser, again, octets);
      ParserAfter(config, kept, again, octets);
      ParserAfter(config, NEW, again, octets);
      OneAnswer(config, kept, ms[0]);
      OneAnswer(config, NEW, ms[0]);
    } else {
      var teach := EncodePacket(TeachingMessage(config.registry, domain, key));
      TeachingReceived(config, known, domain, again, key);
      TeachingReceived(config, map[], domain, again, key);
      ParseLive(config, kept.parser, again, teach);
      ParserAfter(config, kept, again, teach);
      ParserAfter(config, NEW, again, teach);
      var a, b := Process(config, kept, again, teach).0, Process(config, NEW, again, teach).0;
      TaughtTwice(config.registry, known, s);
      TaughtFirst(config.registry, s);
      var octets := UsesDiffer(config, b.parser, a.parser, domain, again, key);
      ms := [Message(again, teach), Message(again, octets)];
      ParserAfter(config, a, again, octets);
      ParserAfter(config, b, again, octets);
      TwoAnswers(config, kept, ms[0], ms[1]);
      TwoAnswers(config, NEW, ms[0], ms[1]);
    }
  }

  lemma NothingReady(config: Config, now: nat, known: Typing.Known)
    ensures Ready(config, State(known, map[], map[]), now)
  {
  }

  lemma FieldUnknown(registry: Registry, known: Typing.Known, s: Typing.Subject)
    requires s.key !in registry && Typing.Lookup(known, s) == None
    ensures FieldKnowing(registry, known, s.domain, s.key).dataType == OctetArrayType
  {
    TypesAt(registry, known, s.domain, s.key);
  }

  lemma FieldDefined(registry: Registry, known: Typing.Known, s: Typing.Subject)
    requires s in known && LearnedOk(registry, s, known[s])
    requires known[s].Defined? && known[s].description == Unsigned8Description(s.key)
    ensures FieldKnowing(registry, known, s.domain, s.key).dataType == UnsignedType
  {
    TypesAt(registry, known, s.domain, s.key);
  }

  lemma TaughtFirst(registry: Registry, s: Typing.Subject)
    requires Describable(s.key) && s.key !in registry && 0 <= s.domain < 0x1_0000_0000
    ensures FieldKnowing(registry, Taught(registry, map[], s.domain, s.key), s.domain, s.key).dataType == UnsignedType
    ensures s in Taught(registry, map[], s.domain, s.key)
  {
    hide Typing.Describe, TypeRecord;
    TypeRecordTells(registry, s.key);
    var d := Unsigned8Description(s.key);
    assert Typing.Accepted(registry, TypeRecord(registry, s.key)) == Some(d);
    assert Place(s.domain, d.key) == s;
    var known := Taught(registry, map[], s.domain, s.key);
    assert known == map[s := Typing.Defined(d, Typing.Definition(d))];
    TypesAt(registry, known, s.domain, s.key);
  }

  lemma TaughtTwice(registry: Registry, known: Typing.Known, s: Typing.Subject)
    requires Describable(s.key) && s.key !in registry && 0 <= s.domain < 0x1_0000_0000 && s in known
    requires known[s].Conflicting? || known[s].description != Unsigned8Description(s.key)
    ensures FieldKnowing(registry, Taught(registry, known, s.domain, s.key), s.domain, s.key).dataType == OctetArrayType
  {
    hide Typing.Describe, TypeRecord;
    TypeRecordTells(registry, s.key);
    assert Typing.Accepted(registry, TypeRecord(registry, s.key)) == Some(Unsigned8Description(s.key));
    assert Place(s.domain, Unsigned8Description(s.key).key) == s;
    var after := Taught(registry, known, s.domain, s.key);
    assert after[s].Conflicting?;
    FieldUnknown(registry, after, s);
  }

  // Domains

  lemma UsedNotes(d: Domain, p: Packet, domain: u32, field: ResolvedField, v: FieldValue)
    requires Used(p, domain, field, v)
    ensures NotedSets(d, p.sets) == d
    ensures ConvertSets(d, p.header, p.sets) == [Convert(d, p.header, DataRecord([field], [v]))]
  {
    hide Convert;
    var rs0, rs1 := p.sets[0].records, p.sets[1].records;
    assert rs0[1..] == [] && rs1[1..] == [];
    assert NotedAll(d, rs0) == d && NotedAll(d, rs1) == d;
    assert NotedSets(d, p.sets) == NotedSets(NotedAll(d, rs0), p.sets[1..]);
    assert NotedSets(d, p.sets[1..]) == NotedSets(NotedAll(d, rs1), p.sets[1..][1..]);
    assert p.sets[1..][1..] == [] && p.sets[1..][0] == p.sets[1];
    assert ConvertAll(d, p.header, rs0) == [];
    assert ConvertAll(d, p.header, rs1) == [Convert(d, p.header, DataRecord([field], [v]))];
    assert ConvertSets(d, p.header, p.sets[1..]) == ConvertAll(d, p.header, rs1) + ConvertSets(d, p.header, p.sets[1..][1..]);
  }

  /** A record of one field. */
  lemma OneField(d: Domain, header: Header, field: ResolvedField, v: FieldValue)
    requires Observe(UNSEEN, field, v) == UNSEEN
    ensures var facts := Convert(d, header, DataRecord([field], [v]));
            && facts.rate == RateFor(d, SamplerIn([field], [v]))
            && facts.start == if IsStart(field) then TimeField(header, d.boot, field, v) else None
  {
    hide RateFor, TimeField, Observe, IsStart, IsEnd;
    assert [field][1..] == [] && [v][1..] == [];
    assert ObserveAll(UNSEEN, [field], [v]) == ObserveAll(UNSEEN, [field][1..], [v][1..]) == UNSEEN;
    var first := FlowFacts(RateFor(d, SamplerIn([field], [v])), None, None);
    var t := TimeField(header, d.boot, field, v);
    var next := if IsStart(field) then first.(start := t) else if IsEnd(field) then first.(end := t) else first;
    assert Times(first, header, d.boot, [field], [v]) == Times(next, header, d.boot, [field][1..], [v][1..]) == next;
  }

  /** A boot time shows in an uptime. */
  lemma BootShows(d: Domain, header: Header, field: ResolvedField)
    requires d.boot.Some? && header.exportTime == 0
    requires field.spec == FieldSpecifier(false, FLOW_START_SYS_UP_TIME, 4, None)
    ensures Convert(d, header, DataRecord([field], [Unsigned32(0)])) != Convert(BLANK, header, DataRecord([field], [Unsigned32(0)]))
  {
    hide Timestamps.WrappingDifference, Convert;
    var v := Unsigned32(0);
    OneField(d, header, field, v);
    OneField(BLANK, header, field, v);
    assert TimeField(header, d.boot, field, v).Some? && TimeField(header, None, field, v) == None;
  }

  /** A rate shows in a record that names the sampler, if it is a sampler's. */
  lemma RateShows(d: Domain, field: ResolvedField) returns (id: u64)
    requires DomainOk(d) && d != BLANK && d.boot.None?
    requires field.spec == FieldSpecifier(false, SELECTOR_ID, 8, None)
    ensures forall header ::
      Convert(d, header, DataRecord([field], [Unsigned64(id)])) != Convert(BLANK, header, DataRecord([field], [Unsigned64(id)]))
  {
    hide Shared, Convert;
    id := 0;
    if d.samplers == map[] {
      NobodyAgrees();
    } else {
      SomeSampler(d.samplers);
      id :| id in d.samplers;
    }
    var v := Unsigned64(id);
    assert SamplerIn([field], [v]) == Some(id);
    assert RateFor(d, Some(id)).Some? && RateFor(BLANK, Some(id)) == None;
    forall header
      ensures Convert(d, header, DataRecord([field], [v])) != Convert(BLANK, header, DataRecord([field], [v]))
    {
      OneField(d, header, field, v);
      OneField(BLANK, header, field, v);
    }
  }

  lemma NobodyAgrees()
    ensures Shared(map[]) == None
  {
  }

  /** One flow comes of a message that uses an element. */
  lemma UsedFlow(config: Config, kept: Kept, now: nat, octets: bytes, domain: u32, field: ResolvedField, v: FieldValue)
    requires var r := ParseMessage(config, kept.parser, now, octets).0; r.Ok? && Used(r.value, domain, field, v)
    ensures var r := ParseMessage(config, kept.parser, now, octets).0;
            Process(config, kept, now, octets).1
            == Answer(r, [Convert(DomainIn(kept.domains, domain), r.value.header, DataRecord([field], [v]))])
  {
    hide ParseMessage, NotedSets, ConvertSets, Convert, DomainIn;
    var p := ParseMessage(config, kept.parser, now, octets).0.value;
    UsedNotes(DomainIn(kept.domains, domain), p, domain, field, v);
  }

  /** A registry element's value is read alike, whatever is known. */
  lemma UsedByAny(config: Config, st: State, last: nat, now: nat, domain: u32, field: ResolvedField, v: FieldValue)
    requires config.timeout > 0 && StateSentBy(st, last) && last + config.timeout <= now
    requires UseOk(field, v) && field == ResolveField(config.registry, field.spec)
    requires field.spec.enterpriseNumber == None && IsUnsigned(config.registry, field.spec.id)
    ensures var r := ParseMessage(config, st, now, EncodePacket(UsingMessage(domain, field, v))).0;
            r.Ok? && Used(r.value, domain, field, v)
  {
    hide ParseMessage, EncodePacket, UsingMessage, Used, UseOk, ResolveField, IsUnsigned;
    var live := State(st.known, map[], map[]);
    FadedLive(config, st, last, now);
    NothingReady(config, now, st.known);
    RegistryField(config.registry, st.known, domain, field.spec);
    UsingReceived(config, live, domain, now, field, v);
    ParseLive(config, st, now, EncodePacket(UsingMessage(domain, field, v)));
  }

  /** What tells of the domain: an uptime, or else a record naming a sampler. */
  lemma TellingField(registry: Registry, d: Domain) returns (field: ResolvedField, v: FieldValue)
    requires KnowsElements(registry) && DomainOk(d) && d != BLANK
    ensures UseOk(field, v) && field == ResolveField(registry, field.spec)
    ensures field.spec.enterpriseNumber == None && IsUnsigned(registry, field.spec.id)
    ensures forall header: Header :: header.exportTime == 0 ==>
      Convert(d, header, DataRecord([field], [v])) != Convert(BLANK, header, DataRecord([field], [v]))
  {
    hide Convert, ResolveField, DomainOk;
    Pow256Values();
    if d.boot.Some? {
      var spec := FieldSpecifier(false, FLOW_START_SYS_UP_TIME, 4, None);
      RegistryField(registry, map[], 0, spec);
      field, v := ResolveField(registry, spec), Unsigned32(0);
      forall header: Header | header.exportTime == 0
        ensures Convert(d, header, DataRecord([field], [v])) != Convert(BLANK, header, DataRecord([field], [v]))
      {
        BootShows(d, header, field);
      }
    } else {
      var spec := FieldSpecifier(false, SELECTOR_ID, 8, None);
      RegistryField(registry, map[], 0, spec);
      field := ResolveField(registry, spec);
      var id := RateShows(d, field);
      v := Unsigned64(id);
    }
  }

  lemma DomainShows(config: Config, kept: Kept, last: nat, again: nat, id: u32) returns (ms: seq<Message>)
    requires KnowsElements(config.registry) && config.timeout > 0 && last + config.timeout <= again
    requires KeptOk(config, kept, last) && id in kept.domains && kept.domains[id] != BLANK
    ensures AllAt(again, ms) && ProcessAll(config, kept, ms).1 != ProcessAll(config, NEW, ms).1
  {
    hide ParseMessage, EncodePacket, UsingMessage, Process, Convert, DomainOk, KnownOk, UseOk, KnowsElements, IsUnsigned,
      ResolveField;
    var d := kept.domains[id];
    var field, v := TellingField(config.registry, d);
    var octets := EncodePacket(UsingMessage(id, field, v));
    UsedByAny(config, kept.parser, last, again, id, field, v);
    UsedByAny(config, INITIAL, last, again, id, field, v);
    UsedFlow(config, kept, again, octets, id, field, v);
    UsedFlow(config, NEW, again, octets, id, field, v);
    ms := [Message(again, octets)];
    OneAnswer(config, kept, ms[0]);
    OneAnswer(config, NEW, ms[0]);
  }

  /** Whatever an exporter told, some message shows. */
  lemma SomethingShows(config: Config, kept: Kept, last: nat, again: nat) returns (ms: seq<Message>)
    requires KnowsElements(config.registry) && config.timeout > 0 && last + config.timeout <= again
    requires KeptOk(config, kept, last) && !ToldNothing(kept)
    ensures AllAt(again, ms) && ProcessAll(config, kept, ms).1 != ProcessAll(config, NEW, ms).1
  {
    hide KnowsElements, ProcessAll, KnownOk, DomainOk;
    if kept.parser.known != map[] {
      ms := TypesShow(config, kept, last, again);
    } else {
      var id :| id in kept.domains && kept.domains[id] != BLANK;
      ms := DomainShows(config, kept, last, again, id);
    }
  }

  // The exact condition

  /** A timeout after its last message an exporter may be forgotten, and nobody will ever notice, exactly when it told
      nothing: no element type, no sampling rate, no boot time. */
  lemma {:induction false} ForgottenExactly(config: Config, ms: seq<Message>, last: nat, again: nat)
    requires KnowsElements(config.registry) && config.timeout > 0 && last + config.timeout <= again
    requires Onward(0, ms) && forall i :: 0 <= i < |ms| ==> ms[i].now <= last
    ensures var kept := ProcessAll(config, NEW, ms).0;
            (forall more :: Onward(again, more) ==> ProcessAll(config, kept, more).1 == ProcessAll(config, NEW, more).1)
            <==> ToldNothing(kept)
  {
    hide KnowsElements, ProcessAll, KnownOk, DomainOk, ToldNothing, SameKept;
    var kept := ProcessAll(config, NEW, ms).0;
    NewOk(config);
    AllKeepOk(config, NEW, 0, ms, last);
    if ToldNothing(kept) {
      NothingLeft(config, kept, last, again);
      forall more | Onward(again, more)
        ensures ProcessAll(config, kept, more).1 == ProcessAll(config, NEW, more).1
      {
        AllSame(config, kept, NEW, again, more);
      }
    } else {
      var more := SomethingShows(config, kept, last, again);
      assert Onward(again, more);
    }
  }

  // The same in runs of the table of exporters

  function From(src: Address, ms: seq<Message>): (ds: seq<Datagram<bytes>>)
    ensures |ds| == |ms| && forall i :: 0 <= i < |ds| ==> ds[i] == Datagram(src, ms[i].now, ms[i].octets)
  {
    seq(|ms|, i requires 0 <= i < |ms| => Datagram(src, ms[i].now, ms[i].octets))
  }

  /** Never quiet for the timeout. */
  predicate Steady(ms: seq<Message>, timeout: nat) {
    forall i :: 0 < i < |ms| ==> ms[i - 1].now <= ms[i].now < ms[i - 1].now + timeout
  }

  /** Looked up now, the exporter is alone in the table, with this kept of it. */
  ghost predicate Enters(e: Exporters<Kept>, src: Address, now: nat, timeout: nat, kept: Kept) {
    var r := Entered(e, src, now, timeout, NEW);
    r.table == map[src := Exporter(kept, now)] && r.nextSweep <= now + SWEEP_INTERVAL
  }

  ghost predicate Tracks(e: Exporters<Kept>, src: Address, seen: nat, kept: Kept) {
    e.table == map[src := Exporter(kept, seen)] && e.nextSweep <= seen + SWEEP_INTERVAL
  }

  lemma EntersSoon(e: Exporters<Kept>, src: Address, seen: nat, now: nat, timeout: nat, kept: Kept)
    requires Tracks(e, src, seen, kept) && seen <= now < seen + timeout
    ensures Enters(e, src, now, timeout, kept)
  {
    assert Heard(e.table, now, timeout) == e.table;
  }

  lemma EntersAnew(e: Exporters<Kept>, src: Address, seen: nat, now: nat, timeout: nat, kept: Kept)
    requires Tracks(e, src, seen, kept) && seen + timeout <= now && seen + SWEEP_INTERVAL <= now
    ensures Enters(e, src, now, timeout, NEW)
  {
    assert Heard(e.table, now, timeout) == map[];
  }

  lemma SweptOne(config: Config, src: Address, e: Exporters<Kept>, kept: Kept, m: Message, rest: seq<Datagram<bytes>>)
    returns (after: Exporters<Kept>)
    requires Enters(e, src, m.now, config.timeout, kept)
    ensures Tracks(after, src, m.now, Process(config, kept, m.now, m.octets).0)
    ensures SweptRun(Processor(config), NEW, config.timeout, e, [Datagram(src, m.now, m.octets)] + rest)
         == [Process(config, kept, m.now, m.octets).1] + SweptRun(Processor(config), NEW, config.timeout, after, rest)
  {
    hide Process, Entered;
    var entered := Entered(e, src, m.now, config.timeout, NEW);
    after := Stored(entered, src, Process(config, kept, m.now, m.octets).0);
    assert ([Datagram(src, m.now, m.octets)] + rest)[1..] == rest;
  }

  lemma {:induction false} SweptSteady(
    config: Config, src: Address, e: Exporters<Kept>, kept: Kept, ms: seq<Message>, rest: seq<Message>)
    returns (after: Exporters<Kept>)
    requires ms != [] && Enters(e, src, ms[0].now, config.timeout, kept) && Steady(ms, config.timeout)
    ensures Tracks(after, src, ms[|ms| - 1].now, ProcessAll(config, kept, ms).0)
    ensures SweptRun(Processor(config), NEW, config.timeout, e, From(src, ms + rest))
         == ProcessAll(config, kept, ms).1 + SweptRun(Processor(config), NEW, config.timeout, after, From(src, rest))
    decreases |ms|
  {
    hide Process, Enters, Tracks, SweptRun, Processor;
    var (next, answer) := Process(config, kept, ms[0].now, ms[0].octets);
    assert From(src, ms + rest) == [Datagram(src, ms[0].now, ms[0].octets)] + From(src, ms[1..] + rest);
    after := SweptOne(config, src, e, kept, ms[0], From(src, ms[1..] + rest));
    if |ms| > 1 {
      EntersSoon(after, src, ms[0].now, ms[1].now, config.timeout, next);
      var first := after;
      after := SweptSteady(config, src, first, next, ms[1..], rest);
      Regroup([answer], ProcessAll(config, next, ms[1..]).1,
              SweptRun(Processor(config), NEW, config.timeout, after, From(src, rest)));
    } else {
      assert ms[1..] == [] && [] + rest == rest;
      assert ProcessAll(config, next, ms[1..]) == (next, []);
    }
  }

  lemma {:induction false} KeptAnswers(config: Config, src: Address, kept: map<Address, Kept>, ms: seq<Message>)
    ensures KeptRun(Processor(config), NEW, kept, From(src, ms)) == ProcessAll(config, ParserOf(kept, src, NEW), ms).1
    decreases |ms|
  {
    hide Process;
    if ms != [] {
      var next := Process(config, ParserOf(kept, src, NEW), ms[0].now, ms[0].octets).0;
      assert From(src, ms)[1..] == From(src, ms[1..]);
      KeptAnswers(config, src, kept[src := next], ms[1..]);
    }
  }

  lemma {:induction false} ProcessMore(config: Config, kept: Kept, ms: seq<Message>, more: seq<Message>)
    ensures ProcessAll(config, kept, ms + more).1
         == ProcessAll(config, kept, ms).1 + ProcessAll(config, ProcessAll(config, kept, ms).0, more).1
    decreases |ms|
  {
    hide Process;
    if ms == [] {
      assert ms + more == more;
    } else {
      assert (ms + more)[1..] == ms[1..] + more;
      ProcessMore(config, Process(config, kept, ms[0].now, ms[0].octets).0, ms[1..], more);
    }
  }

  /** Swept, an exporter heard again is a new one; kept, it goes on as it was. */
  lemma {:induction false} HeardAgain(config: Config, src: Address, start: nat, ms: seq<Message>, again: nat, more: seq<Message>)
    requires ms != [] && Onward(start, ms) && Steady(ms, config.timeout) && config.timeout > 0 && AllAt(again, more)
    requires ms[|ms| - 1].now + config.timeout <= again && ms[|ms| - 1].now + SWEEP_INTERVAL <= again
    ensures var (kept, answers) := ProcessAll(config, NEW, ms);
            && SweptRun(Processor(config), NEW, config.timeout, Exporters(map[], start), From(src, ms + more))
               == answers + ProcessAll(config, NEW, more).1
            && KeptRun(Processor(config), NEW, map[], From(src, ms + more)) == answers + ProcessAll(config, kept, more).1
  {
    hide ProcessAll, Processor, SweptRun, KeptRun, From;
    var none: map<Address, Kept> := map[];
    KeptAnswers(config, src, none, ms + more);
    ProcessMore(config, NEW, ms, more);
    var e0: Exporters<Kept> := Exporters(map[], start);
    assert Heard(e0.table, ms[0].now, config.timeout) == map[];
    var e := SweptSteady(config, src, e0, NEW, ms, more);
    if more == [] {
      NoMore(config, src, e);
    } else {
      EntersAnew(e, src, ms[|ms| - 1].now, again, config.timeout, ProcessAll(config, NEW, ms).0);
      assert more + [] == more;
      var last := SweptSteady(config, src, e, NEW, more, []);
      NoMore(config, src, last);
    }
  }

  lemma NoMore(config: Config, src: Address, e: Exporters<Kept>)
    ensures SweptRun(Processor(config), NEW, config.timeout, e, From(src, [])) == []
    ensures ProcessAll(config, NEW, []).1 == []
  {
  }

  lemma SamePrefix<T>(a: seq<T>, x: seq<T>, y: seq<T>)
    ensures a + x == a + y <==> x == y
  {
    assert (a + x)[|a|..] == x && (a + y)[|a|..] == y;
  }

  /** Whatever it sent, as long as it was never quiet for the timeout: when an exporter is then quiet for so long, and heard
      again, whatever it sends at once is answered as if it had been kept, exactly when it told nothing. */
  lemma {:induction false} ForgottenShows(config: Config, src: Address, start: nat, ms: seq<Message>, again: nat)
    requires KnowsElements(config.registry) && config.timeout > 0
    requires ms != [] && Onward(start, ms) && Steady(ms, config.timeout)
    requires ms[|ms| - 1].now + config.timeout <= again && ms[|ms| - 1].now + SWEEP_INTERVAL <= again
    ensures (forall more :: AllAt(again, more) ==>
              SweptRun(Processor(config), NEW, config.timeout, Exporters(map[], start), From(src, ms + more))
              == KeptRun(Processor(config), NEW, map[], From(src, ms + more)))
            <==> ToldNothing(ProcessAll(config, NEW, ms).0)
  {
    hide KnowsElements, ProcessAll, KnownOk, DomainOk, ToldNothing, SweptRun, KeptRun, SameKept, From;
    var kept, last := ProcessAll(config, NEW, ms).0, ms[|ms| - 1].now;
    forall more | AllAt(again, more)
      ensures SweptRun(Processor(config), NEW, config.timeout, Exporters(map[], start), From(src, ms + more))
              == KeptRun(Processor(config), NEW, map[], From(src, ms + more))
              <==> ProcessAll(config, NEW, more).1 == ProcessAll(config, kept, more).1
    {
      HeardAgain(config, src, start, ms, again, more);
      SamePrefix(ProcessAll(config, NEW, ms).1, ProcessAll(config, NEW, more).1, ProcessAll(config, kept, more).1);
    }
    NewOk(config);
    AllKeepOk(config, NEW, 0, ms, last);
    if ToldNothing(kept) {
      NothingLeft(config, kept, last, again);
      forall more | AllAt(again, more)
        ensures ProcessAll(config, NEW, more).1 == ProcessAll(config, kept, more).1
      {
        AllSame(config, kept, NEW, again, more);
      }
    } else {
      var more := SomethingShows(config, kept, last, again);
      assert AllAt(again, more);
    }
  }

  /** So it is for whatever element an exporter teaches. */
  lemma ForgottenAndHeardAgain(config: Config, domain: u32, key: ElementKey, src: Address, first: nat, again: nat)
    requires KnowsElements(config.registry) && Describable(key) && key !in config.registry
    requires 0 < config.timeout && first + config.timeout <= again && first + SWEEP_INTERVAL <= again
    ensures var taught := [Message(first, EncodePacket(TeachingMessage(config.registry, domain, key)))];
            exists more :: AllAt(again, more)
              && SweptRun(Processor(config), NEW, config.timeout, Exporters(map[], first), From(src, taught + more))
                 != KeptRun(Processor(config), NEW, map[], From(src, taught + more))
  {
    hide ParseMessage, EncodePacket, KnowsElements, Process, TeachingMessage, SweptRun, KeptRun, From, Taught, Ready;
    var octets := EncodePacket(TeachingMessage(config.registry, domain, key));
    var taught := [Message(first, octets)];
    TeachingReceived(config, map[], domain, first, key);
    TaughtFirst(config.registry, Place(domain, key));
    ParserAfter(config, NEW, first, octets);
    assert taught[1..] == [];
    assert !ToldNothing(ProcessAll(config, NEW, taught).0);
    ForgottenShows(config, src, first, taught, again);
  }
}
