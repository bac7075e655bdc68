/** The parser as it runs: loops over the input, and caches and element types updated in place. */
module IpfixParsing {
  import opened Bytes
  import opened Ipfix
  import opened Scalars
  import opened Decoding
  import opened TemplateCaching
  import opened TwoLevels
  import opened Collecting
  import Typing = ElementTyping

  lemma FieldsAt(m: Templates, domain: int, id: u16)
    ensures id in FieldsIn(m, domain) <==> Place(domain, id) in m
    ensures Place(domain, id) in m ==> FieldsIn(m, domain)[id] == m[Place(domain, id)].fields
  {
    var k := Place(domain, id);
    assert k.domain == domain && k.key == id;
  }

  /** `many0`: template records up to the first that does not parse. */
  method TemplateRecordsOf(body: bytes) returns (ts: seq<TemplateRecord>)
    ensures ts == ParseTemplates(body)
  {
    ts := [];
    var input := body;
    var record := ParseTemplate(input);
    while record.Ok?
      invariant record == ParseTemplate(input)
      invariant ts + ParseTemplates(input) == ParseTemplates(body)
      decreases |input|
    {
      ts := ts + [record.value];
      input := record.rest;
      record := ParseTemplate(input);
    }
  }

  method OptionsTemplateRecordsOf(body: bytes) returns (ts: seq<OptionsTemplateRecord>)
    ensures ts == ParseOptionsTemplates(body)
  {
    ts := [];
    var input := body;
    var record := ParseOptionsTemplate(input);
    while record.Ok?
      invariant record == ParseOptionsTemplate(input)
      invariant ts + ParseOptionsTemplates(input) == ParseOptionsTemplates(body)
      decreases |input|
    {
      ts := ts + [record.value];
      input := record.rest;
      record := ParseOptionsTemplate(input);
    }
  }

  /** Resolving a coherent cache again changes nothing. */
  lemma NothingToRefresh(registry: Registry, known: Typing.Known, m: Templates, domain: int)
    requires CacheCoherent(registry, known, m)
    ensures Refreshed(m, domain, Resolver(Types(registry, known, domain))) == m
  {
    hide Types;
    forall k | k in m
      ensures Refreshed(m, domain, Resolver(Types(registry, known, domain)))[k] == m[k]
    {
      assert EntryCoherent(registry, known, k, m[k].fields);
    }
  }

  class IpfixParser {
    const config: Config
    const elementTypes: Typing.ElementTypes
    const templates: TemplateCache<ResolvedField>
    const options: TemplateCache<ResolvedField>

    ghost predicate Valid()
      reads this, elementTypes, templates, options
    {
      && templates != options
      && elementTypes.Valid() && templates.Valid() && options.Valid()
      && templates.timeout == options.timeout == config.timeout
      && CacheCoherent(config.registry, elementTypes.known, templates.stored)
      && CacheCoherent(config.registry, elementTypes.known, options.stored)
    }

    /** No template was inserted after `now`. */
    ghost predicate By(now: nat)
      reads templates, options
    {
      templates.clock <= now && options.clock <= now
    }

    ghost function StateAt(now: nat): State
      reads elementTypes, templates, options
    {
      State(elementTypes.known, templates.LiveAt(now), options.LiveAt(now))
    }

    ghost function ViewAt(domain: int, now: nat): View
      reads elementTypes, templates, options
    {
      ViewOf(config, StateAt(now), domain)
    }

    constructor (config: Config, now: nat)
      ensures Valid() && By(now) && this.config == config
      ensures fresh(elementTypes) && fresh(templates) && fresh(options)
      ensures forall t :: StateAt(t) == INITIAL
    {
      this.config := config;
      elementTypes := new Typing.ElementTypes();
      templates := new TemplateCache<ResolvedField>(config.timeout, now);
      options := new TemplateCache<ResolvedField>(config.timeout, now);
    }

    // Lookups

    method FindDefinition(domain: int, key: ElementKey) returns (definition: Option<IEDefinition>)
      requires Valid()
      ensures var types := Types(config.registry, elementTypes.known, domain);
              definition == if key in types then Some(types[key]) else None
    {
      hide Types;
      TypesAt(config.registry, elementTypes.known, domain, key);
      if key in config.registry {
        definition := Some(config.registry[key]);
      } else {
        definition := elementTypes.Find(domain, key);
      }
    }

    method DomainTypes(domain: int) returns (types: map<ElementKey, IEDefinition>)
      requires elementTypes.Valid()
      ensures types == Types(config.registry, elementTypes.known, domain)
    {
      hide Types, CacheCoherent, TwoLevels.Holds;
      var elements := Row(elementTypes.domains, domain);
      types := (map key | key in elements && elements[key].Defined? :: elements[key].definition) + config.registry;
      forall key: ElementKey
        ensures var t := Types(config.registry, elementTypes.known, domain);
                (key in types <==> key in t) && (key in types ==> types[key] == t[key])
      {
        TypesAt(config.registry, elementTypes.known, domain, key);
        HoldsAt(elementTypes.domains, elementTypes.known, Place(domain, key));
      }
    }

    method ResolveFields(domain: int, specs: seq<FieldSpecifier>) returns (fields: Fields)
      requires Valid()
      ensures fields == Resolve(Types(config.registry, elementTypes.known, domain), specs)
    {
      hide Types;
      fields := [];
      for i := 0 to |specs|
        invariant fields == Resolve(Types(config.registry, elementTypes.known, domain), specs[..i])
      {
        var key := ElementKey(specs[i].id, specs[i].enterpriseNumber);
        var definition := FindDefinition(domain, key);
        fields := fields +
          [if definition.Some? then ResolvedField(specs[i], definition.value.dataType, definition.value.name)
           else ResolvedField(specs[i], OctetArrayType, Numbered(key))];
      }
      assert specs[..|specs|] == specs;
    }

    method FindTemplate(domain: int, id: u16, now: nat) returns (fields: Option<Fields>, isData: bool)
      requires Valid()
      ensures fields == ViewAt(domain, now).FieldsOf(id)
      ensures isData <==> id in ViewAt(domain, now).templates
    {
      hide FieldsIn, Types, Live;
      FieldsAt(templates.LiveAt(now), domain, id);
      FieldsAt(options.LiveAt(now), domain, id);
      fields := templates.Get(Place(domain, id), now);
      isData := fields.Some?;
      if !isData {
        fields := options.Get(Place(domain, id), now);
      }
    }

    // Values

    method FindType(domain: int, now: nat, ghost view: View, spec: FieldSpecifier) returns (dataType: DataType)
      requires Valid() && view == ViewAt(domain, now)
      ensures dataType == view.TypeOf(spec)
    {
      hide Types, FieldsIn, Live;
      var definition := FindDefinition(domain, ElementKey(spec.id, spec.enterpriseNumber));
      dataType := if definition.Some? then definition.value.dataType else OctetArrayType;
    }

    method ParseValue(input: bytes, domain: int, now: nat, ghost view: View, dataType: DataType, length: nat, depth: nat)
      returns (r: Parse<FieldValue>)
      requires Valid() && view == ViewAt(domain, now)
      ensures r == ParseFieldValue(view, input, dataType, length, depth)
      decreases Left(depth), 0
    {
      hide ParseScalar, Taken, ParseBasicList, ParseSubTemplateList, ParseSubTemplateMultiList, ViewOf, StateAt, Valid;
      if dataType.IsList() && depth < MAX_LIST_DEPTH {
        var taken := Take(length, input);
        if taken.Err? {
          return Err;
        }
        var data, rest := taken.value, taken.rest;
        var list;
        if dataType.BasicListType? {
          list := ParseBasic(data, domain, now, view, depth + 1);
        } else if dataType.SubTemplateListType? {
          list := ParseSubTemplates(data, domain, now, view, depth + 1);
        } else {
          list := ParseMulti(data, domain, now, view, depth + 1);
        }
        return if list.Some? then Ok(rest, list.value) else Err;
      }
      r := ParseScalar(dataType, length, input);
    }

    method ParseBasic(data: bytes, domain: int, now: nat, ghost view: View, depth: nat) returns (r: Option<FieldValue>)
      requires Valid() && view == ViewAt(domain, now)
      ensures r == ParseBasicList(view, data, depth)
      decreases Left(depth), 4
    {
      hide ParseFieldValue, ParseSpecifier, ViewOf, StateAt, Valid;
      var semantic := BeU8(data);
      if semantic.Err? {
        return None;
      }
      var field := ParseSpecifier(semantic.rest);
      if field.Err? {
        return None;
      }
      var length := field.value.length;
      var dataType := FindType(domain, now, view, field.value);
      var content: seq<FieldValue> := [];
      var listData := field.rest;
      PrependNothing(ParseElements(view, field.value, field.rest, depth));
      while listData != []
        invariant ParseElements(view, field.value, field.rest, depth)
               == Prepend(content, ParseElements(view, field.value, listData, depth))
        decreases |listData|
      {
        var next := ParseFieldLength(listData, length);
        if next.Err? {
          return None;
        }
        if length == 0 || |next.rest| < next.value {
          break;
        }
        var value := ParseValue(next.rest, domain, now, view, dataType, next.value, depth);
        if value.Err? {
          return None;
        }
        PrependTwice(content, [value.value], ParseElements(view, field.value, value.rest, depth));
        content := content + [value.value];
        listData := value.rest;
      }
      assert content + [] == content;
      r := Some(BasicList(SemanticOf(semantic.value), field.value, content));
    }

    method ParseSubTemplates(data: bytes, domain: int, now: nat, ghost view: View, depth: nat) returns (r: Option<FieldValue>)
      requires Valid() && view == ViewAt(domain, now)
      ensures r == ParseSubTemplateList(view, data, depth)
      decreases Left(depth), 4
    {
      hide ParseTemplated, ViewOf, StateAt, Valid;
      var semantic := BeU8(data);
      if semantic.Err? {
        return None;
      }
      var id := BeU16(semantic.rest);
      if id.Err? {
        return None;
      }
      var records, _ := ParseTemplatedRecords(id.rest, domain, now, view, id.value, depth);
      r := if records.Err? then None
           else Some(SubTemplateList(SemanticOf(semantic.value), id.value, records.value));
    }

    method ParseMulti(data: bytes, domain: int, now: nat, ghost view: View, depth: nat) returns (r: Option<FieldValue>)
      requires Valid() && view == ViewAt(domain, now)
      ensures r == ParseSubTemplateMultiList(view, data, depth)
      decreases Left(depth), 5
    {
      hide ParseTemplated, ViewOf, StateAt, Valid;
      var semantic := BeU8(data);
      if semantic.Err? {
        return None;
      }
      var items: seq<MultiItem> := [];
      var listData := semantic.rest;
      PrependNothing(ParseItems(view, semantic.rest, depth));
      while listData != []
        invariant ParseItems(view, semantic.rest, depth) == Prepend(items, ParseItems(view, listData, depth))
        decreases |listData|
      {
        var id := BeU16(listData);
        if id.Err? {
          return None;
        }
        var length := BeU16(id.rest);
        if length.Err? {
          return None;
        }
        if length.value <= 4 {
          listData := length.rest;
          continue;
        }
        var content := Take(length.value - 4, length.rest);
        if content.Err? {
          return None;
        }
        var records, _ := ParseTemplatedRecords(content.value, domain, now, view, id.value, depth);
        if records.Err? {
          return None;
        }
        PrependTwice(items, [MultiItem(id.value, length.value, records.value)], ParseItems(view, content.rest, depth));
        items := items + [MultiItem(id.value, length.value, records.value)];
        listData := content.rest;
      }
      assert items + [] == items;
      r := Some(SubTemplateMultiList(SemanticOf(semantic.value), items));
    }

    /** Also tells whether the records are data, not options. */
    method ParseTemplatedRecords(input: bytes, domain: int, now: nat, ghost view: View, id: u16, depth: nat)
      returns (r: Parse<seq<DataRecord>>, isData: bool)
      requires Valid() && view == ViewAt(domain, now)
      ensures r == ParseTemplated(view, input, id, depth)
      ensures isData <==> id in view.templates
      decreases Left(depth), 3
    {
      hide ParseFields, ViewOf, StateAt, Valid;
      var found, data := FindTemplate(domain, id, now);
      isData := data;
      if found.None? || found.value == [] {
        return Ok(input, []), isData;
      }
      var fields := found.value;
      var records: seq<DataRecord> := [];
      var remaining := input;
      PrependNothing(ParseDataRecords(view, fields, input, depth));
      while true
        invariant ParseDataRecords(view, fields, input, depth)
               == Prepend(records, ParseDataRecords(view, fields, remaining, depth))
        decreases |remaining|
      {
        var record := ParseRecord(remaining, domain, now, view, fields, depth);
        if record.Err? {
          assert records + [] == records;
          return Ok(remaining, records), isData;
        }
        if |record.rest| == |remaining| {
          return Err, isData;
        }
        PrependTwice(records, [DataRecord(fields, record.value)], ParseDataRecords(view, fields, record.rest, depth));
        records := records + [DataRecord(fields, record.value)];
        remaining := record.rest;
      }
    }

    method ParseRecord(input: bytes, domain: int, now: nat, ghost view: View, fields: Fields, depth: nat)
      returns (r: Parse<seq<FieldValue>>)
      requires Valid() && view == ViewAt(domain, now)
      ensures r == ParseFields(view, fields, input, depth)
      decreases Left(depth), 2
    {
      hide ParseFieldValue, ParseFieldLength, ViewOf, StateAt, Valid;
      var values: seq<FieldValue> := [];
      var remaining := input;
      assert fields[0..] == fields;
      PrependNothing(ParseFields(view, fields, input, depth));
      for i := 0 to |fields|
        invariant ParseFields(view, fields, input, depth)
               == Prepend(values, ParseFields(view, fields[i..], remaining, depth))
      {
        assert fields[i..][0] == fields[i] && fields[i..][1..] == fields[i + 1..];
        var length := ParseFieldLength(remaining, fields[i].spec.length);
        if length.Err? {
          return Err;
        }
        var value := ParseValue(length.rest, domain, now, view, fields[i].dataType, length.value, depth);
        if value.Err? {
          return Err;
        }
        PrependTwice(values, [value.value], ParseFields(view, fields[i + 1..], value.rest, depth));
        values := values + [value.value];
        remaining := value.rest;
      }
      assert fields[|fields|..] == [] && values + [] == values;
      r := Ok(remaining, values);
    }

    // Sets, which change the state

    method DefineOne(cache: TemplateCache<ResolvedField>, domain: int, now: nat, allId: u16, id: u16, specs: seq<FieldSpecifier>)
      requires Valid() && By(now) && (cache == templates || cache == options)
      modifies cache
      ensures Valid() && By(now)
      ensures cache.LiveAt(now) == Define(old(cache.LiveAt(now)), Types(config.registry, elementTypes.known, domain),
                                          domain, now, config.timeout, allId, id, specs)
    {
      hide Types, Total, Live, TwoLevels.Holds, TemplateCaching.InTime;
      ghost var types := Types(config.registry, elementTypes.known, domain);
      LiveCommutes(cache.stored, now, cache.timeout, Place(domain, id), domain, s => s);
      if specs == [] {
        if id == allId {
          cache.RemoveDomain(domain);
        } else {
          cache.Remove(Place(domain, id));
        }
      } else if id >= FIRST_TEMPLATE_ID {
        var fields := ResolveFields(domain, specs);
        SpecifiersOfResolve(types, specs);
        var _ := cache.Insert(Place(domain, id), fields, now);
      }
    }

    method ParseTemplateSet(body: bytes, domain: int, now: nat) returns (ts: seq<TemplateRecord>)
      requires Valid() && By(now)
      modifies templates
      ensures Valid() && By(now) && ts == ParseTemplates(body)
      ensures StateAt(now) == DefineTemplates(config, old(StateAt(now)), domain, now, ts)
    {
      hide Define, Types, CacheCoherent;
      ts := TemplateRecordsOf(body);
      for i := 0 to |ts|
        invariant Valid() && By(now)
        invariant DefineTemplates(config, StateAt(now), domain, now, ts[i..])
               == DefineTemplates(config, old(StateAt(now)), domain, now, ts)
      {
        assert ts[i..][0] == ts[i] && ts[i..][1..] == ts[i + 1..];
        DefineOne(templates, domain, now, TEMPLATE_SET_ID, ts[i].templateId, ts[i].fields);
      }
    }

    method ParseOptionsTemplateSet(body: bytes, domain: int, now: nat) returns (ts: seq<OptionsTemplateRecord>)
      requires Valid() && By(now)
      modifies options
      ensures Valid() && By(now) && ts == ParseOptionsTemplates(body)
      ensures StateAt(now) == DefineOptions(config, old(StateAt(now)), domain, now, ts)
    {
      hide Define, Types, CacheCoherent;
      ts := OptionsTemplateRecordsOf(body);
      for i := 0 to |ts|
        invariant Valid() && By(now)
        invariant DefineOptions(config, StateAt(now), domain, now, ts[i..])
               == DefineOptions(config, old(StateAt(now)), domain, now, ts)
      {
        assert ts[i..][0] == ts[i] && ts[i..][1..] == ts[i + 1..];
        DefineOne(options, domain, now, OPTIONS_TEMPLATE_SET_ID, ts[i].templateId, ts[i].fields);
      }
    }

    /** Refreshes the cached templates only when a lookup changed; otherwise they are as a refresh would leave them. */
    method LearnElementTypes(domain: int, rs: seq<Record>, now: nat)
      requires Valid() && By(now)
      modifies elementTypes, templates, options
      ensures Valid() && By(now)
      ensures StateAt(now) == LearnTypes(config, old(StateAt(now)), domain, rs)
    {
      hide Types, CacheCoherent, Typing.Learn, TwoLevels.Holds, TemplateCaching.InTime, Total;
      ghost var known := elementTypes.known;
      var changed := false;
      for i := 0 to |rs|
        invariant elementTypes.Valid() && templates.Valid() && options.Valid()
        invariant templates.stored == old(templates.stored) && options.stored == old(options.stored) && By(now)
        invariant LearnRecords(config.registry, elementTypes.known, domain, rs[i..])
               == LearnRecords(config.registry, known, domain, rs)
        invariant !changed ==> forall s :: Typing.Lookup(elementTypes.known, s) == Typing.Lookup(known, s)
      {
        assert rs[i..][0] == rs[i] && rs[i..][1..] == rs[i + 1..];
        if rs[i].OptionsData? {
          var learned := elementTypes.LearnFrom(domain, rs[i].record, config.registry);
          changed := changed || learned;
        }
      }
      ghost var known' := elementTypes.known;
      assert known' == LearnRecords(config.registry, known, domain, rs);
      RefreshedCoherent(config.registry, known, domain, rs, templates.stored);
      RefreshedCoherent(config.registry, known, domain, rs, options.stored);
      ghost var types := Types(config.registry, known', domain);
      LiveCommutes(templates.stored, now, config.timeout, Place(0, 0), domain, Resolver(types));
      LiveCommutes(options.stored, now, config.timeout, Place(0, 0), domain, Resolver(types));
      if changed {
        var current := DomainTypes(domain);
        templates.RefreshDomain(domain, Resolver(current));
        options.RefreshDomain(domain, Resolver(current));
      } else {
        TypesAgree(config.registry, known, known', domain);
        NothingToRefresh(config.registry, known, templates.stored, domain);
        NothingToRefresh(config.registry, known, options.stored, domain);
      }
    }

    method ParseSetRecords(body: bytes, domain: int, now: nat, id: u16) returns (r: Option<seq<Record>>)
      requires Valid() && By(now)
      modifies elementTypes, templates, options
      ensures Valid() && By(now)
      ensures (r, StateAt(now)) == ParseRecords(config, old(StateAt(now)), domain, now, id, body)
    {
      hide ParseTemplates, ParseOptionsTemplates, DefineTemplates, DefineOptions, LearnTypes, ParseTemplated, CacheCoherent,
        FieldsIn, Types;
      if id == TEMPLATE_SET_ID {
        var ts := ParseTemplateSet(body, domain, now);
        r := Some(TemplateRecords(ts));
      } else if id == OPTIONS_TEMPLATE_SET_ID {
        var ts := ParseOptionsTemplateSet(body, domain, now);
        r := Some(OptionsTemplateRecords(ts));
      } else if id >= FIRST_TEMPLATE_ID {
        var records, isData := ParseTemplatedRecords(body, domain, now, ViewAt(domain, now), id, 0);
        if records.Err? {
          return None;
        }
        var wrapped := seq(|records.value|, i requires 0 <= i < |records.value| =>
          if isData then Data(records.value[i]) else OptionsData(records.value[i]));
        assert wrapped == Wrap(ViewAt(domain, now), id, records.value);
        LearnElementTypes(domain, wrapped, now);
        r := Some(wrapped);
      } else {
        r := Some([]);
      }
    }

    method ParseOneSet(input: bytes, domain: int, now: nat) returns (r: Parse<Set>)
      requires Valid() && By(now)
      modifies elementTypes, templates, options
      ensures Valid() && By(now)
      ensures (r, StateAt(now)) == ParseSet(config, old(StateAt(now)), domain, now, input)
    {
      hide ParseRecords, CacheCoherent;
      var id := BeU16(input);
      if id.Err? {
        return Err;
      }
      var length := BeU16(id.rest);
      if length.Err? || length.value < SET_HEADER_SIZE {
        return Err;
      }
      var body := Take(length.value - SET_HEADER_SIZE, length.rest);
      if body.Err? {
        return Err;
      }
      var records := ParseSetRecords(body.value, domain, now, id.value);
      r := if records.None? then Err else Ok(body.rest, Set(id.value, length.value, records.value));
    }

    /** One message; the clock is read once for all of it. */
    method Parse(input: bytes, now: nat) returns (r: Parse<Packet>)
      requires Valid() && By(now)
      modifies elementTypes, templates, options
      ensures Valid() && By(now)
      ensures (r, StateAt(now)) == ParseMessage(config, old(StateAt(now)), now, input)
    {
      hide ParseSet, ParseHeader, Valid, StateAt;
      StateIsLive(now);
      var header := ParseHeader(input);
      if header.Err? {
        return Err;
      }
      var body := Take(if header.value.length < HEADER_SIZE then 0 else header.value.length - HEADER_SIZE, header.rest);
      if body.Err? {
        return Err;
      }
      var domain := header.value.domain;
      var sets: seq<Set> := [];
      assert forall more: seq<Set> :: [] + more == more;
      var remaining := body.value;
      ghost var start := StateAt(now);
      ghost var expected := ParseSets(config, start, domain, now, body.value);
      while true
        invariant Valid() && By(now)
        invariant var more := ParseSets(config, StateAt(now), domain, now, remaining);
                  expected == (sets + more.0, more.1)
        decreases |remaining|
      {
        ghost var more := ParseSets(config, StateAt(now), domain, now, remaining);
        var r := ParseOneSet(remaining, domain, now);
        if r.Err? {
          assert more == ([], StateAt(now)) && sets + [] == sets;
          break;
        }
        ghost var later := ParseSets(config, StateAt(now), domain, now, r.rest);
        assert more == ([r.value] + later.0, later.1);
        assert sets + ([r.value] + later.0) == sets + [r.value] + later.0;
        sets := sets + [r.value];
        remaining := r.rest;
      }
      r := Ok(body.rest, Packet(header.value, sets));
    }

    lemma StateLater(now: nat, later: nat)
      requires Valid() && now <= later
      ensures StateAt(later) == LiveState(config, StateAt(now), later)
    {
      hide CacheCoherent;
      LiveLater(templates.stored, now, later, config.timeout);
      LiveLater(options.stored, now, later, config.timeout);
    }

    lemma StateIsLive(now: nat)
      requires Valid()
      ensures LiveState(config, StateAt(now), now) == StateAt(now)
    {
      hide CacheCoherent;
    }
  }

  /** From a time on, what the parser holds live is what the eager state machine does. */
  ghost predicate Follows(parser: IpfixParser, st: State, now: nat)
    reads parser, parser.elementTypes, parser.templates, parser.options
  {
    forall t: nat :: now <= t ==> parser.StateAt(t) == LiveState(parser.config, st, t)
  }

  method Receive(parser: IpfixParser, ghost st: State, m: Message) returns (r: Parse<Packet>)
    requires parser.Valid() && parser.By(m.now) && Follows(parser, st, m.now)
    modifies parser.elementTypes, parser.templates, parser.options
    ensures parser.Valid() && parser.By(m.now)
    ensures var (packet, st') := ParseMessage(parser.config, st, m.now, m.octets);
            r == packet && Follows(parser, st', m.now)
  {
    hide ParseMessage, CacheCoherent;
    ParseLive(parser.config, st, m.now, m.octets);
    r := parser.Parse(m.octets, m.now);
    ghost var st' := ParseMessage(parser.config, st, m.now, m.octets).1;
    forall t: nat | m.now <= t
      ensures parser.StateAt(t) == LiveState(parser.config, st', t)
    {
      LiveLater(parser.templates.stored, m.now, t, parser.config.timeout);
      LiveLater(parser.options.stored, m.now, t, parser.config.timeout);
      LiveLater(st'.templates, m.now, t, parser.config.timeout);
      LiveLater(st'.options, m.now, t, parser.config.timeout);
    }
  }

  /** Over any run of messages, the parser decodes what the eager state machine does. */
  method Collect(config: Config, start: nat, messages: seq<Message>) returns (packets: seq<Parse<Packet>>)
    requires forall i :: 0 <= i < |messages| ==> start <= messages[i].now
    requires forall i, j :: 0 <= i < j < |messages| ==> messages[i].now <= messages[j].now
    ensures packets == ParseAll(config, INITIAL, messages).0
  {
    hide ParseMessage, IpfixParser.Valid, IpfixParser.By, Follows;
    var parser := new IpfixParser(config, start);
    packets := [];
    ghost var st := INITIAL;
    ghost var clock: nat := start;
    FollowsInitially(parser);
    for i := 0 to |messages|
      invariant parser.Valid() && parser.config == config
      invariant fresh(parser.elementTypes) && fresh(parser.templates) && fresh(parser.options)
      invariant parser.By(clock) && forall j :: i <= j < |messages| ==> clock <= messages[j].now
      invariant Follows(parser, st, clock)
      invariant packets + ParseAll(config, st, messages[i..]).0 == ParseAll(config, INITIAL, messages).0
    {
      var m := messages[i];
      assert messages[i..][0] == m && messages[i..][1..] == messages[i + 1..];
      FollowsLater(parser, st, clock, m.now);
      var r := Receive(parser, st, m);
      packets := packets + [r];
      st, clock := ParseMessage(config, st, m.now, m.octets).1, m.now;
    }
  }

  lemma FollowsInitially(parser: IpfixParser)
    requires forall t :: parser.StateAt(t) == INITIAL
    ensures forall now: nat :: Follows(parser, INITIAL, now)
  {
    assert forall t: nat :: LiveState(parser.config, INITIAL, t) == INITIAL;
  }

  lemma FollowsLater(parser: IpfixParser, st: State, clock: nat, now: nat)
    requires parser.By(clock) && Follows(parser, st, clock) && clock <= now
    ensures parser.By(now) && Follows(parser, st, now)
  {
  }
}
