/** Withdrawn templates: gone at once, and gone until they are defined again. */
module Withdrawals {
  import opened Bytes
  import opened Ipfix
  import opened TwoLevels
  import opened TemplateCaching
  import opened Collecting
  import opened Decoding
  import Typing = ElementTyping

  // One withdrawal

  /** A template record of no fields: its ID, and a count of zero. */
  function Withdrawal(id: u16): bytes {
    [id / 256, id % 256, 0, 0]
  }

  /** Live templates of the places kept are as before, and the rest are gone. */
  ghost predicate OnlyKept(before: Templates, after: Templates, now: nat, timeout: nat, kept: Key -> bool) {
    forall k: Key ::
      && (k in Live(after, now, timeout) <==> k in Live(before, now, timeout) && kept(k))
      && (k in Live(after, now, timeout) ==> after[k] == before[k])
  }

  /** A withdrawal of one template, or, under the set's own ID, of the domain's all. */
  function Survives(domain: int, id: u16, allId: u16): Key -> bool {
    (k: Key) => if id == allId then k.domain != domain else k != Place(domain, id)
  }

  lemma WithdrawalRead(id: u16)
    ensures ParseTemplates(Withdrawal(id)) == [TemplateRecord(id, 0, [])]
    ensures ParseOptionsTemplates(Withdrawal(id)) == [OptionsTemplateRecord(id, 0, 0, [])]
  {
    var b := Withdrawal(id);
    assert b[..2] == [id / 256, id % 256] && b[2..] == [0, 0] && b[2..][..2] == [0, 0] && b[2..][2..] == [];
    BigEndianPair(id / 256, id % 256);
    BigEndianPair(0, 0);
    assert ParseTemplate(b) == Ok([], TemplateRecord(id, 0, []));
    assert ParseOptionsTemplate(b) == Ok([], OptionsTemplateRecord(id, 0, 0, []));
    assert ParseTemplate([]).Err? && ParseOptionsTemplate([]).Err?;
    assert ParseTemplates([]) == [] && ParseOptionsTemplates([]) == [];
  }

  lemma BigEndianPair(a: byte, b: byte)
    ensures FromBE([a, b]) == 256 * a + b
  {
    assert [a, b][..1] == [a] && [a][..0] == [];
  }

  lemma OneTemplate(config: Config, st: State, domain: int, now: nat, t: TemplateRecord)
    ensures DefineTemplates(config, st, domain, now, [t])
         == st.(templates := Define(st.templates, Types(config.registry, st.known, domain), domain, now, config.timeout,
                                    TEMPLATE_SET_ID, t.templateId, t.fields))
  {
    hide Define, Types;
    assert [t][1..] == [];
    var st' := st.(templates := Define(st.templates, Types(config.registry, st.known, domain), domain, now, config.timeout,
                                       TEMPLATE_SET_ID, t.templateId, t.fields));
    assert DefineTemplates(config, st', domain, now, [t][1..]) == st';
  }

  lemma OneOptionsTemplate(config: Config, st: State, domain: int, now: nat, t: OptionsTemplateRecord)
    ensures DefineOptions(config, st, domain, now, [t])
         == st.(options := Define(st.options, Types(config.registry, st.known, domain), domain, now, config.timeout,
                                  OPTIONS_TEMPLATE_SET_ID, t.templateId, t.fields))
  {
    hide Define, Types;
    assert [t][1..] == [];
    var st' := st.(options := Define(st.options, Types(config.registry, st.known, domain), domain, now, config.timeout,
                                     OPTIONS_TEMPLATE_SET_ID, t.templateId, t.fields));
    assert DefineOptions(config, st', domain, now, [t][1..]) == st';
  }

  /** After a template set that holds only a withdrawal, just what it names is gone from the templates; options templates
      and learned types are as they were. */
  lemma TemplatesWithdrawn(config: Config, st: State, domain: int, now: nat, id: u16)
    ensures var (records, after) := ParseRecords(config, st, domain, now, 2, Withdrawal(id));
            && records == Some([Template(TemplateRecord(id, 0, []))])
            && OnlyKept(st.templates, after.templates, now, config.timeout, Survives(domain, id, 2))
            && after.options == st.options && after.known == st.known
  {
    hide ParseTemplates, Types, DefineTemplates;
    WithdrawalRead(id);
    OneTemplate(config, st, domain, now, TemplateRecord(id, 0, []));
    assert TemplateRecords([TemplateRecord(id, 0, [])]) == [Template(TemplateRecord(id, 0, []))];
  }

  /** And likewise for options templates. */
  lemma OptionsWithdrawn(config: Config, st: State, domain: int, now: nat, id: u16)
    ensures var (records, after) := ParseRecords(config, st, domain, now, 3, Withdrawal(id));
            && records == Some([OptionsTemplate(OptionsTemplateRecord(id, 0, 0, []))])
            && OnlyKept(st.options, after.options, now, config.timeout, Survives(domain, id, 3))
            && after.templates == st.templates && after.known == st.known
  {
    hide ParseOptionsTemplates, Types, DefineOptions;
    WithdrawalRead(id);
    OneOptionsTemplate(config, st, domain, now, OptionsTemplateRecord(id, 0, 0, []));
    assert OptionsTemplateRecords([OptionsTemplateRecord(id, 0, 0, [])]) == [OptionsTemplate(OptionsTemplateRecord(id, 0, 0, []))];
  }

  // Unknown until defined

  /** Neither kind of template is cached under this ID. */
  ghost predicate Unknown(st: State, domain: int, id: u16) {
    Place(domain, id) !in st.templates && Place(domain, id) !in st.options
  }

  predicate DefinesId(r: Record, id: u16) {
    match r
    case Template(t) => t.templateId == id && t.fields != []
    case OptionsTemplate(t) => t.templateId == id && t.fields != []
    case _ => false
  }

  predicate NoneDefines(rs: seq<Record>, id: u16) {
    forall i :: 0 <= i < |rs| ==> !DefinesId(rs[i], id)
  }

  lemma DefineOther(
    m: Templates, types: map<ElementKey, IEDefinition>, domain: int, now: nat, timeout: nat, allId: u16, id: u16,
    specs: seq<FieldSpecifier>, other: Key)
    requires other !in m && (other != Place(domain, id) || specs == [])
    ensures other !in Define(m, types, domain, now, timeout, allId, id, specs)
  {
    hide Total;
  }

  lemma {:induction false} TemplatesUndefined(
    config: Config, st: State, other: int, now: nat, ts: seq<TemplateRecord>, domain: int, id: u16)
    requires Unknown(st, domain, id)
    requires other == domain ==> forall i :: 0 <= i < |ts| ==> ts[i].templateId == id ==> ts[i].fields == []
    ensures Unknown(DefineTemplates(config, st, other, now, ts), domain, id)
    decreases |ts|
  {
    hide Define, Types;
    if ts != [] {
      DefineOther(st.templates, Types(config.registry, st.known, other), other, now, config.timeout,
        TEMPLATE_SET_ID, ts[0].templateId, ts[0].fields, Place(domain, id));
      var templates := Define(st.templates, Types(config.registry, st.known, other), other, now, config.timeout,
        TEMPLATE_SET_ID, ts[0].templateId, ts[0].fields);
      TemplatesUndefined(config, st.(templates := templates), other, now, ts[1..], domain, id);
    }
  }

  lemma {:induction false} OptionsUndefined(
    config: Config, st: State, other: int, now: nat, ts: seq<OptionsTemplateRecord>, domain: int, id: u16)
    requires Unknown(st, domain, id)
    requires other == domain ==> forall i :: 0 <= i < |ts| ==> ts[i].templateId == id ==> ts[i].fields == []
    ensures Unknown(DefineOptions(config, st, other, now, ts), domain, id)
    decreases |ts|
  {
    hide Define, Types;
    if ts != [] {
      DefineOther(st.options, Types(config.registry, st.known, other), other, now, config.timeout,
        OPTIONS_TEMPLATE_SET_ID, ts[0].templateId, ts[0].fields, Place(domain, id));
      var options := Define(st.options, Types(config.registry, st.known, other), other, now, config.timeout,
        OPTIONS_TEMPLATE_SET_ID, ts[0].templateId, ts[0].fields);
      OptionsUndefined(config, st.(options := options), other, now, ts[1..], domain, id);
    }
  }

  /** A set that does not define the ID leaves it unknown, and gives no records under it. */
  lemma RecordsUndefined(
    config: Config, st: State, other: int, now: nat, setId: u16, body: bytes, domain: int, id: u16)
    requires Unknown(st, domain, id) && id >= FIRST_TEMPLATE_ID
    requires var records := ParseRecords(config, st, other, now, setId, body).0;
             other == domain && records.Some? ==> NoneDefines(records.value, id)
    ensures var (records, after) := ParseRecords(config, st, other, now, setId, body);
            && Unknown(after, domain, id)
            && (other == domain && setId == id ==> records == Some([]))
  {
    hide ParseTemplates, ParseOptionsTemplates, DefineTemplates, DefineOptions, ParseTemplated, LearnRecords, Resolver, Types;
    var ts, os := ParseTemplates(body), ParseOptionsTemplates(body);
    if setId == TEMPLATE_SET_ID {
      assert forall i :: 0 <= i < |ts| ==> TemplateRecords(ts)[i] == Template(ts[i]);
      TemplatesUndefined(config, st, other, now, ts, domain, id);
    } else if setId == OPTIONS_TEMPLATE_SET_ID {
      assert forall i :: 0 <= i < |os| ==> OptionsTemplateRecords(os)[i] == OptionsTemplate(os[i]);
      OptionsUndefined(config, st, other, now, os, domain, id);
    } else if setId >= FIRST_TEMPLATE_ID {
      if other == domain && setId == id {
        NothingRead(config, st, domain, id, body);
        assert Wrap(ViewOf(config, st, domain), id, []) == [];
      }
    }
  }

  lemma NothingRead(config: Config, st: State, domain: int, id: u16, body: bytes)
    requires Unknown(st, domain, id)
    ensures ParseTemplated(ViewOf(config, st, domain), body, id, 0).Ok?
    ensures ParseTemplated(ViewOf(config, st, domain), body, id, 0).value == []
  {
    hide Types;
    assert ViewOf(config, st, domain).FieldsOf(id) == None;
  }

  predicate SetsUndefining(sets: seq<Set>, id: u16) {
    forall i :: 0 <= i < |sets| ==> NoneDefines(sets[i].records, id)
  }

  predicate NothingUnder(sets: seq<Set>, id: u16) {
    forall i :: 0 <= i < |sets| ==> sets[i].id == id ==> sets[i].records == []
  }

  lemma {:induction false} SetsUndefined(config: Config, st: State, other: int, now: nat, input: bytes, domain: int, id: u16)
    requires Unknown(st, domain, id) && id >= FIRST_TEMPLATE_ID
    requires other == domain ==> SetsUndefining(ParseSets(config, st, other, now, input).0, id)
    ensures var (sets, after) := ParseSets(config, st, other, now, input);
            Unknown(after, domain, id) && (other == domain ==> NothingUnder(sets, id))
    decreases |input|
  {
    hide ParseSet, Unknown, NoneDefines;
    var (r, st') := ParseSet(config, st, other, now, input);
    if r.Ok? {
      var (sets, after) := ParseSets(config, st', other, now, r.rest);
      assert ParseSets(config, st, other, now, input).0 == [r.value] + sets;
      if other == domain {
        assert ([r.value] + sets)[0] == r.value;
        assert forall i :: 0 <= i < |sets| ==> sets[i] == ([r.value] + sets)[i + 1];
      }
      SetUndefined(config, st, other, now, input, domain, id);
      SetsUndefined(config, st', other, now, r.rest, domain, id);
    } else {
      SetUndefined(config, st, other, now, input, domain, id);
    }
  }

  lemma SetUndefined(config: Config, st: State, other: int, now: nat, input: bytes, domain: int, id: u16)
    requires Unknown(st, domain, id) && id >= FIRST_TEMPLATE_ID
    requires var r := ParseSet(config, st, other, now, input).0;
             other == domain && r.Ok? ==> NoneDefines(r.value.records, id)
    ensures var (r, after) := ParseSet(config, st, other, now, input);
            && Unknown(after, domain, id)
            && (other == domain && r.Ok? && r.value.id == id ==> r.value.records == [])
  {
    hide ParseRecords, Unknown, NoneDefines;
    var setId := BeU16(input);
    if setId.Ok? {
      var length := BeU16(setId.rest);
      if length.Ok? && length.value >= SET_HEADER_SIZE {
        var body := Take(length.value - SET_HEADER_SIZE, length.rest);
        if body.Ok? {
          RecordsUndefined(config, st, other, now, setId.value, body.value, domain, id);
        }
      }
    }
  }

  /** No message of the domain defines the ID. */
  predicate Undefining(answer: Parse<Packet>, domain: int, id: u16) {
    answer.Ok? && answer.value.header.domain == domain ==> SetsUndefining(answer.value.sets, id)
  }

  /** No message of the domain has records under the ID. */
  predicate Nothing(answer: Parse<Packet>, domain: int, id: u16) {
    answer.Ok? && answer.value.header.domain == domain ==> NothingUnder(answer.value.sets, id)
  }

  lemma MessageUndefined(config: Config, st: State, now: nat, input: bytes, domain: int, id: u16)
    requires Unknown(LiveState(config, st, now), domain, id) && id >= FIRST_TEMPLATE_ID
    requires Undefining(ParseMessage(config, st, now, input).0, domain, id)
    ensures var (answer, after) := ParseMessage(config, st, now, input);
            Unknown(after, domain, id) && Nothing(answer, domain, id)
  {
    hide ParseSets, Unknown, SetsUndefining, NothingUnder, Live;
    var live := LiveState(config, st, now);
    var header := ParseHeader(input);
    if header.Ok? {
      var body := Take(if header.value.length < HEADER_SIZE then 0 else header.value.length - HEADER_SIZE, header.rest);
      if body.Ok? {
        SetsUndefined(config, live, header.value.domain, now, body.value, domain, id);
      }
    }
  }

  /** Unknown once, an ID stays unknown, and data sets under it give no records, until a message of the domain defines it. */
  lemma {:induction false} UntilDefined(config: Config, st: State, messages: seq<Message>, domain: int, id: u16)
    requires Unknown(st, domain, id) && id >= FIRST_TEMPLATE_ID
    requires var answers := ParseAll(config, st, messages).0;
             forall i :: 0 <= i < |answers| ==> Undefining(answers[i], domain, id)
    ensures var (answers, after) := ParseAll(config, st, messages);
            Unknown(after, domain, id) && forall i :: 0 <= i < |answers| ==> Nothing(answers[i], domain, id)
    decreases |messages|
  {
    hide ParseMessage, Undefining, Nothing;
    if messages != [] {
      var now, input := messages[0].now, messages[0].octets;
      var (first, st') := ParseMessage(config, st, now, input);
      var (rest, after) := ParseAll(config, st', messages[1..]);
      var answers := [first] + rest;
      assert ParseAll(config, st, messages) == (answers, after);
      assert answers[0] == first && forall i :: 0 <= i < |rest| ==> rest[i] == answers[i + 1];
      MessageUndefined(config, st, now, input, domain, id);
      UntilDefined(config, st', messages[1..], domain, id);
    }
  }

  /** The set withdraws the ID, by itself or with all of its kind, and no template of the other kind has it. */
  ghost predicate Withdraws(st: State, domain: int, setId: u16, named: u16, id: u16) {
    && (named == id || named == setId)
    && ((setId == 2 && Place(domain, id) !in st.options) || (setId == 3 && Place(domain, id) !in st.templates))
  }

  /** So it is for a withdrawn template: from the set that withdraws it on, whatever follows in its message and after. */
  lemma {:induction false} WithdrawnUntilDefined(
    config: Config, st: State, domain: int, now: nat, setId: u16, named: u16, id: u16, more: bytes, messages: seq<Message>)
    requires id >= FIRST_TEMPLATE_ID && Withdraws(st, domain, setId, named, id)
    requires var after := ParseRecords(config, st, domain, now, setId, Withdrawal(named)).1;
             var (sets, st') := ParseSets(config, after, domain, now, more);
             var answers := ParseAll(config, st', messages).0;
             SetsUndefining(sets, id) && forall i :: 0 <= i < |answers| ==> Undefining(answers[i], domain, id)
    ensures var after := ParseRecords(config, st, domain, now, setId, Withdrawal(named)).1;
            var (sets, st') := ParseSets(config, after, domain, now, more);
            var answers := ParseAll(config, st', messages).0;
            NothingUnder(sets, id) && forall i :: 0 <= i < |answers| ==> Nothing(answers[i], domain, id)
  {
    hide ParseRecords, ParseSets, ParseAll, SetsUndefining, NothingUnder, Undefining, Nothing, Withdraws;
    var after := ParseRecords(config, st, domain, now, setId, Withdrawal(named)).1;
    WithdrawnIsUnknown(config, st, domain, now, setId, named, id);
    SetsUndefined(config, after, domain, now, more, domain, id);
    UntilDefined(config, ParseSets(config, after, domain, now, more).1, messages, domain, id);
  }

  lemma WithdrawnIsUnknown(config: Config, st: State, domain: int, now: nat, setId: u16, named: u16, id: u16)
    requires Withdraws(st, domain, setId, named, id)
    ensures Unknown(ParseRecords(config, st, domain, now, setId, Withdrawal(named)).1, domain, id)
  {
    hide ParseTemplates, ParseOptionsTemplates, Types, DefineTemplates, DefineOptions;
    WithdrawalRead(named);
    OneTemplate(config, st, domain, now, TemplateRecord(named, 0, []));
    OneOptionsTemplate(config, st, domain, now, OptionsTemplateRecord(named, 0, 0, []));
  }
}
