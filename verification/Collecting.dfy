/** What one message does to a collector's state and what it decodes to. */
module Collecting {
  import opened Bytes
  import opened Ipfix
  import opened Decoding
  import opened Encoding
  import opened RoundTrip
  import opened TemplateCaching
  import opened TwoLevels
  import Typing = ElementTyping
  import Timestamps

  /** What never changes: the registry and the template timeout. */
  datatype Config = Config(registry: Registry, timeout: nat)

  type Templates = Entries<ResolvedField>

  /** What one exporter has taught: element types and, per kind, the templates not yet expired. */
  datatype State = State(known: Typing.Known, templates: Templates, options: Templates)

  const INITIAL: State := State(map[], map[], map[])

  function LiveState(config: Config, st: State, now: nat): State {
    State(st.known, Live(st.templates, now, config.timeout), Live(st.options, now, config.timeout))
  }

  /** The definitions that apply in a domain: the registry's, or else the learned ones. */
  function Types(registry: Registry, known: Typing.Known, domain: int): map<ElementKey, IEDefinition> {
    (map s | s in known && s.domain == domain && known[s].Defined? :: s.key := known[s].definition) + registry
  }

  function FieldsIn(m: Templates, domain: int): map<int, Fields> {
    map k | k in m && k.domain == domain :: k.key := m[k].fields
  }

  function ViewOf(config: Config, st: State, domain: int): View {
    View(FieldsIn(st.templates, domain), FieldsIn(st.options, domain), Types(config.registry, st.known, domain))
  }

  /** An element's type and name, or octets under its number. */
  function ResolveField(types: map<ElementKey, IEDefinition>, spec: FieldSpecifier): ResolvedField {
    var key := ElementKey(spec.id, spec.enterpriseNumber);
    if key in types then ResolvedField(spec, types[key].dataType, types[key].name)
    else ResolvedField(spec, OctetArrayType, Numbered(key))
  }

  function Resolve(types: map<ElementKey, IEDefinition>, specs: seq<FieldSpecifier>): (r: Fields)
    ensures |r| == |specs| && forall i :: 0 <= i < |r| ==> r[i] == ResolveField(types, specs[i])
  {
    seq(|specs|, i requires 0 <= i < |specs| => ResolveField(types, specs[i]))
  }

  function Specifiers(fields: Fields): (r: seq<FieldSpecifier>)
    ensures |r| == |fields| && forall i :: 0 <= i < |r| ==> r[i] == fields[i].spec
  {
    seq(|fields|, i requires 0 <= i < |fields| => fields[i].spec)
  }

  // Template sets

  /** One (options) template record: a withdrawal, a definition, or a reserved ID. */
  ghost function Define(
      m: Templates, types: map<ElementKey, IEDefinition>, domain: int, now: nat, timeout: nat,
      allId: u16, id: u16, specs: seq<FieldSpecifier>): Templates
  {
    if specs == [] then if id == allId then WithoutDomain(m, domain) else m - {Place(domain, id)}
    else if id >= FIRST_TEMPLATE_ID then Live(EagerInsert(m, now, Place(domain, id), Resolve(types, specs)), now, timeout)
    else m
  }

  lemma FirstFits(m: Templates, k: Key, fields: Fields)
    requires |m| <= 1 && |fields| <= 12 && forall j :: j in m ==> |m[j].fields| <= 12
    ensures EagerFits(m, k, fields)
  {
    var rest := m - {k};
    if j :| j in rest {
      TotalRemove(rest, j);
      Alone(m, j);
      assert rest - {j} == map[];
    } else {
      assert rest == map[];
    }
    TotalNone<ResolvedField>();
  }

  lemma Alone(m: Templates, j: Key)
    requires |m| <= 1 && j in m
    ensures m.Keys == {j}
  {
    assert |m.Keys - {j}| == |m.Keys| - 1;
    assert m.Keys == (m.Keys - {j}) + {j};
  }

  lemma DefinedLive(m: Templates, registry: Registry, domain: int, now: nat, timeout: nat, allId: u16, t: TemplateRecord)
    requires timeout > 0 && |m| <= 1 && t.templateId >= FIRST_TEMPLATE_ID && 0 < |t.fields| <= 12
    requires forall j :: j in m ==> |m[j].fields| <= 12 && m[j].sentAt == now
    ensures Define(m, registry, domain, now, timeout, allId, t.templateId, t.fields)
         == m[Place(domain, t.templateId) := Entry(Resolve(registry, t.fields), now)]
  {
    hide Total;
    FirstFits(m, Place(domain, t.templateId), Resolve(registry, t.fields));
  }

  ghost function DefineTemplates(config: Config, st: State, domain: int, now: nat, ts: seq<TemplateRecord>): State
    decreases |ts|
  {
    if ts == [] then st
    else
      var templates := Define(st.templates, Types(config.registry, st.known, domain), domain, now, config.timeout,
        TEMPLATE_SET_ID, ts[0].templateId, ts[0].fields);
      DefineTemplates(config, st.(templates := templates), domain, now, ts[1..])
  }

  ghost function DefineOptions(config: Config, st: State, domain: int, now: nat, ts: seq<OptionsTemplateRecord>): State
    decreases |ts|
  {
    if ts == [] then st
    else
      var options := Define(st.options, Types(config.registry, st.known, domain), domain, now, config.timeout,
        OPTIONS_TEMPLATE_SET_ID, ts[0].templateId, ts[0].fields);
      DefineOptions(config, st.(options := options), domain, now, ts[1..])
  }

  // Data sets

  /** Learning from the options records among `rs`, in order. */
  function LearnRecords(registry: Registry, known: Typing.Known, domain: int, rs: seq<Record>): Typing.Known
    decreases |rs|
  {
    if rs == [] then known
    else if rs[0].OptionsData? then
      LearnRecords(registry, Typing.Learn(known, registry, domain, rs[0].record), domain, rs[1..])
    else LearnRecords(registry, known, domain, rs[1..])
  }

  function Resolver(types: map<ElementKey, IEDefinition>): Fields -> Fields {
    fields => Resolve(types, Specifiers(fields))
  }

  /** Templates cached before are read with what was learned since. */
  function LearnTypes(config: Config, st: State, domain: int, rs: seq<Record>): State {
    var known := LearnRecords(config.registry, st.known, domain, rs);
    var resolve := Resolver(Types(config.registry, known, domain));
    State(known, Refreshed(st.templates, domain, resolve), Refreshed(st.options, domain, resolve))
  }

  /** Data records of a template, and of an options template. */
  function Wrap(view: View, id: u16, rs: seq<DataRecord>): (r: seq<Record>)
    ensures |r| == |rs|
    ensures forall i :: 0 <= i < |r| ==> r[i] == if id in view.templates then Data(rs[i]) else OptionsData(rs[i])
  {
    seq(|rs|, i requires 0 <= i < |rs| => if id in view.templates then Data(rs[i]) else OptionsData(rs[i]))
  }

  function TemplateRecords(ts: seq<TemplateRecord>): (r: seq<Record>)
    ensures |r| == |ts| && forall i :: 0 <= i < |r| ==> r[i] == Template(ts[i])
  {
    seq(|ts|, i requires 0 <= i < |ts| => Template(ts[i]))
  }

  function OptionsTemplateRecords(ts: seq<OptionsTemplateRecord>): (r: seq<Record>)
    ensures |r| == |ts| && forall i :: 0 <= i < |r| ==> r[i] == OptionsTemplate(ts[i])
  {
    seq(|ts|, i requires 0 <= i < |ts| => OptionsTemplate(ts[i]))
  }

  // Sets and messages

  /** The records of a set's body, and the state they leave. */
  ghost function ParseRecords(config: Config, st: State, domain: int, now: nat, id: u16, body: bytes): (Option<seq<Record>>, State) {
    if id == TEMPLATE_SET_ID then
      var ts := ParseTemplates(body);
      (Some(TemplateRecords(ts)), DefineTemplates(config, st, domain, now, ts))
    else if id == OPTIONS_TEMPLATE_SET_ID then
      var ts := ParseOptionsTemplates(body);
      (Some(OptionsTemplateRecords(ts)), DefineOptions(config, st, domain, now, ts))
    else if id >= FIRST_TEMPLATE_ID then
      var view := ViewOf(config, st, domain);
      var r := ParseTemplated(view, body, id, 0);
      if r.Err? then (None, st)
      else
        var rs := Wrap(view, id, r.value);
        (Some(rs), LearnTypes(config, st, domain, rs))
    else (Some([]), st)
  }

  ghost function ParseSet(config: Config, st: State, domain: int, now: nat, input: bytes): (r: (Parse<Set>, State))
    ensures r.0.Ok? ==> |r.0.rest| < |input|
  {
    var id := BeU16(input);
    if id.Err? then (Err, st) else
    var length := BeU16(id.rest);
    if length.Err? || length.value < SET_HEADER_SIZE then (Err, st) else
    var body := Take(length.value - SET_HEADER_SIZE, length.rest);
    if body.Err? then (Err, st) else
    var (records, st') := ParseRecords(config, st, domain, now, id.value, body.value);
    if records.None? then (Err, st')
    else (Ok(body.rest, Set(id.value, length.value, records.value)), st')
  }

  /** `many0`: sets up to the first that does not parse. */
  ghost function ParseSets(config: Config, st: State, domain: int, now: nat, input: bytes): (seq<Set>, State)
    decreases |input|
  {
    var (r, st') := ParseSet(config, st, domain, now, input);
    if r.Err? then ([], st')
    else
      var (sets, st'') := ParseSets(config, st', domain, now, r.rest);
      ([r.value] + sets, st'')
  }

  function ParseHeader(input: bytes): (r: Parse<Header>)
    ensures r.Ok? ==> r.value.version == IPFIX_VERSION
  {
    var (input, version) :- BeU16(input);
    if version != IPFIX_VERSION then Err else
    var (input, length) :- BeU16(input);
    var (input, seconds) :- BeU32(input);
    var (input, sequence) :- BeU32(input);
    var (input, domain) :- BeU32(input);
    Ok(input, Header(version, length, seconds * Timestamps.SECOND, sequence, domain))
  }

  /** A message arriving at `now`. */
  ghost function ParseMessage(config: Config, st: State, now: nat, input: bytes): (Parse<Packet>, State) {
    var live := LiveState(config, st, now);
    var header := ParseHeader(input);
    if header.Err? then (Err, live) else
    var body := Take(if header.value.length < HEADER_SIZE then 0 else header.value.length - HEADER_SIZE, header.rest);
    if body.Err? then (Err, live) else
    var (sets, st') := ParseSets(config, live, header.value.domain, now, body.value);
    (Ok(body.rest, Packet(header.value, sets)), st')
  }

  /** A message sees only what is live. */
  lemma ParseLive(config: Config, st: State, now: nat, input: bytes)
    ensures ParseMessage(config, LiveState(config, st, now), now, input) == ParseMessage(config, st, now, input)
  {
    hide ParseSets, ParseHeader;
    assert LiveState(config, LiveState(config, st, now), now) == LiveState(config, st, now);
  }

  datatype Message = Message(now: nat, octets: bytes)

  ghost function ParseAll(config: Config, st: State, messages: seq<Message>): (seq<Parse<Packet>>, State)
    decreases |messages|
  {
    if messages == [] then ([], st)
    else
      var (r, st') := ParseMessage(config, st, messages[0].now, messages[0].octets);
      var (rs, st'') := ParseAll(config, st', messages[1..]);
      ([r] + rs, st'')
  }

  // Coherence: cached templates always read as a fresh resolution would

  /** A cached template is well formed and resolved against what is known now. */
  ghost predicate EntryCoherent(registry: Registry, known: Typing.Known, k: Key, fields: Fields) {
    && k.key >= FIRST_TEMPLATE_ID && fields != []
    && fields == Resolve(Types(registry, known, k.domain), Specifiers(fields))
  }

  ghost predicate CacheCoherent(registry: Registry, known: Typing.Known, m: Templates) {
    forall k :: k in m ==> EntryCoherent(registry, known, k, m[k].fields)
  }

  ghost predicate Coherent(config: Config, st: State) {
    CacheCoherent(config.registry, st.known, st.templates) && CacheCoherent(config.registry, st.known, st.options)
  }

  lemma SpecifiersOfResolve(types: map<ElementKey, IEDefinition>, specs: seq<FieldSpecifier>)
    ensures Specifiers(Resolve(types, specs)) == specs
  {
  }

  lemma DefineKeepsCoherence(
      registry: Registry, known: Typing.Known, m: Templates, domain: int, now: nat, timeout: nat,
      allId: u16, id: u16, specs: seq<FieldSpecifier>)
    requires CacheCoherent(registry, known, m)
    ensures CacheCoherent(registry, known,
              Define(m, Types(registry, known, domain), domain, now, timeout, allId, id, specs))
  {
    hide Types, Total;
    SpecifiersOfResolve(Types(registry, known, domain), specs);
  }

  lemma {:induction false} DefineTemplatesCoherent(
      config: Config, st: State, domain: int, now: nat, ts: seq<TemplateRecord>)
    requires Coherent(config, st)
    ensures Coherent(config, DefineTemplates(config, st, domain, now, ts))
    decreases |ts|
  {
    hide Define, CacheCoherent, Types;
    if ts != [] {
      DefineKeepsCoherence(config.registry, st.known, st.templates, domain, now, config.timeout,
        TEMPLATE_SET_ID, ts[0].templateId, ts[0].fields);
      var templates := Define(st.templates, Types(config.registry, st.known, domain), domain, now, config.timeout,
        TEMPLATE_SET_ID, ts[0].templateId, ts[0].fields);
      DefineTemplatesCoherent(config, st.(templates := templates), domain, now, ts[1..]);
    }
  }

  lemma {:induction false} DefineOptionsCoherent(
      config: Config, st: State, domain: int, now: nat, ts: seq<OptionsTemplateRecord>)
    requires Coherent(config, st)
    ensures Coherent(config, DefineOptions(config, st, domain, now, ts))
    decreases |ts|
  {
    hide Define, CacheCoherent, Types;
    if ts != [] {
      DefineKeepsCoherence(config.registry, st.known, st.options, domain, now, config.timeout,
        OPTIONS_TEMPLATE_SET_ID, ts[0].templateId, ts[0].fields);
      var options := Define(st.options, Types(config.registry, st.known, domain), domain, now, config.timeout,
        OPTIONS_TEMPLATE_SET_ID, ts[0].templateId, ts[0].fields);
      DefineOptionsCoherent(config, st.(options := options), domain, now, ts[1..]);
    }
  }

  lemma TypesAt(registry: Registry, known: Typing.Known, domain: int, key: ElementKey)
    ensures var types, learned := Types(registry, known, domain), Typing.Lookup(known, Place(domain, key));
            && (key in types <==> key in registry || learned.Some?)
            && (key in registry ==> types[key] == registry[key])
            && (key !in registry && learned.Some? ==> types[key] == learned.value)
  {
    var s := Place(domain, key);
    assert s.domain == domain && s.key == key;
  }

  lemma TypesAgree(registry: Registry, known: Typing.Known, known': Typing.Known, domain: int)
    requires forall s: Typing.Subject :: s.domain == domain ==> Typing.Lookup(known, s) == Typing.Lookup(known', s)
    ensures Types(registry, known, domain) == Types(registry, known', domain)
  {
    hide Types, Typing.Lookup;
    var a, b := Types(registry, known, domain), Types(registry, known', domain);
    forall key: ElementKey
      ensures (key in a <==> key in b) && (key in a ==> a[key] == b[key])
    {
      assert Typing.Lookup(known, Place(domain, key)) == Typing.Lookup(known', Place(domain, key));
      TypesAt(registry, known, domain, key);
      TypesAt(registry, known', domain, key);
    }
  }

  /** Learning touches only the domain it happens in. */
  lemma {:induction false} LearnedElsewhere(
      registry: Registry, known: Typing.Known, domain: int, rs: seq<Record>, other: int)
    requires other != domain
    ensures Types(registry, LearnRecords(registry, known, domain, rs), other) == Types(registry, known, other)
    decreases |rs|
  {
    hide Types;
    if rs != [] {
      if rs[0].OptionsData? {
        LearnedOnce(known, registry, domain, rs[0].record, other);
        var next := Typing.Learn(known, registry, domain, rs[0].record);
        TypesAgree(registry, next, known, other);
        LearnedElsewhere(registry, next, domain, rs[1..], other);
      } else {
        LearnedElsewhere(registry, known, domain, rs[1..], other);
      }
    }
  }

  lemma LearnedOnce(known: Typing.Known, registry: Registry, domain: int, record: DataRecord, other: int)
    requires other != domain
    ensures var next := Typing.Learn(known, registry, domain, record);
            forall s: Typing.Subject :: s.domain == other ==> Typing.Lookup(known, s) == Typing.Lookup(next, s)
  {
    hide Typing.Accepted, Typing.Definition;
  }

  lemma RefreshedCoherent(registry: Registry, known: Typing.Known, domain: int, rs: seq<Record>, m: Templates)
    requires CacheCoherent(registry, known, m)
    ensures var known' := LearnRecords(registry, known, domain, rs);
            CacheCoherent(registry, known', Refreshed(m, domain, Resolver(Types(registry, known', domain))))
  {
    hide Types, LearnRecords;
    var known' := LearnRecords(registry, known, domain, rs);
    var resolve := Resolver(Types(registry, known', domain));
    var m' := Refreshed(m, domain, resolve);
    forall k | k in m'
      ensures EntryCoherent(registry, known', k, m'[k].fields)
    {
      if k.domain == domain {
        SpecifiersOfResolve(Types(registry, known', domain), Specifiers(m[k].fields));
      } else {
        LearnedElsewhere(registry, known, domain, rs, k.domain);
      }
    }
  }

  lemma LiveCoherent(config: Config, st: State, now: nat)
    requires Coherent(config, st)
    ensures Coherent(config, LiveState(config, st, now))
  {
    hide EntryCoherent;
  }

  /** Every set keeps the state coherent, whether or not it parses. */
  lemma SetKeepsCoherence(config: Config, st: State, domain: int, now: nat, input: bytes)
    requires Coherent(config, st)
    ensures Coherent(config, ParseSet(config, st, domain, now, input).1)
  {
    hide Coherent, DefineTemplates, DefineOptions, ParseTemplates, ParseOptionsTemplates, ParseTemplated, ViewOf, LearnTypes;
    var id := BeU16(input);
    if id.Ok? {
      var length := BeU16(id.rest);
      if length.Ok? && length.value >= SET_HEADER_SIZE {
        var body := Take(length.value - SET_HEADER_SIZE, length.rest);
        if body.Ok? {
          if id.value == TEMPLATE_SET_ID {
            DefineTemplatesCoherent(config, st, domain, now, ParseTemplates(body.value));
          } else if id.value == OPTIONS_TEMPLATE_SET_ID {
            DefineOptionsCoherent(config, st, domain, now, ParseOptionsTemplates(body.value));
          } else if id.value >= FIRST_TEMPLATE_ID {
            var view := ViewOf(config, st, domain);
            var r := ParseTemplated(view, body.value, id.value, 0);
            if r.Ok? {
              LearnTypesCoherent(config, st, domain, Wrap(view, id.value, r.value));
            }
          }
        }
      }
    }
  }

  lemma LearnTypesCoherent(config: Config, st: State, domain: int, rs: seq<Record>)
    requires Coherent(config, st)
    ensures Coherent(config, LearnTypes(config, st, domain, rs))
  {
    hide CacheCoherent, Types, LearnRecords, Resolver;
    RefreshedCoherent(config.registry, st.known, domain, rs, st.templates);
    RefreshedCoherent(config.registry, st.known, domain, rs, st.options);
  }

  lemma {:induction false} SetsKeepCoherence(config: Config, st: State, domain: int, now: nat, input: bytes)
    requires Coherent(config, st)
    ensures Coherent(config, ParseSets(config, st, domain, now, input).1)
    decreases |input|
  {
    hide Coherent, ParseSet;
    SetKeepsCoherence(config, st, domain, now, input);
    var (r, st') := ParseSet(config, st, domain, now, input);
    if r.Ok? {
      SetsKeepCoherence(config, st', domain, now, r.rest);
    }
  }

  /** Over any run of messages, whatever they hold, every cached template stays coherent. */
  lemma {:induction false} RunKeepsCoherence(config: Config, st: State, messages: seq<Message>)
    requires Coherent(config, st)
    ensures Coherent(config, ParseAll(config, st, messages).1)
    decreases |messages|
  {
    if messages != [] {
      hide Coherent, ParseSets, ParseHeader;
      var now, input := messages[0].now, messages[0].octets;
      LiveCoherent(config, st, now);
      var header := ParseHeader(input);
      if header.Ok? {
        var body := Take(if header.value.length < HEADER_SIZE then 0 else header.value.length - HEADER_SIZE, header.rest);
        if body.Ok? {
          SetsKeepCoherence(config, LiveState(config, st, now), header.value.domain, now, body.value);
        }
      }
      RunKeepsCoherence(config, ParseMessage(config, st, now, input).1, messages[1..]);
    }
  }
}
