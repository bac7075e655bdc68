/** Which rate a flow takes and which times, said in terms of what was told and of element numbers. */
module FlowRates {
  import opened Bytes
  import opened Ipfix
  import opened Collecting
  import opened Domains
  import opened FlowProcessing
  import opened Sequences
  import Timestamps
  import Typing = ElementTyping

  // What was told decides the rate

  /** Some sampler was told a rate, and each that was is at this one. */
  ghost predicate AllLatest(sayings: seq<Saying>, rate: u32) {
    && (exists id: u64 :: Latest(sayings, Some(id)).Some?)
    && forall id: u64 :: Latest(sayings, Some(id)).Some? ==> Latest(sayings, Some(id)) == Some(rate)
  }

  /** The rate last told of the sampler asked for; or else the one last told of none; or else the one all samplers are at. */
  ghost predicate IsAnswer(sayings: seq<Saying>, sampler: Option<u64>, rate: Option<u32>) {
    if sampler.Some? && Latest(sayings, sampler).Some? then rate == Latest(sayings, sampler)
    else if Latest(sayings, None).Some? then rate == Latest(sayings, None)
    else forall n: u32 :: rate == Some(n) <==> AllLatest(sayings, n)
  }

  lemma SharedIsLatest(sayings: seq<Saying>, n: u32)
    requires |Told(sayings).samplers| < 1024
    ensures AllSay(Told(sayings).samplers, n) <==> AllLatest(sayings, n)
  {
    hide Told, Latest, Shared;
    RatesAreLatest(sayings);
    var samplers := Told(sayings).samplers;
    SomeSampler(samplers);
    assert forall id: u64 :: id in samplers <==> Latest(sayings, Some(id)).Some?;
  }

  /** While the samplers told of are fewer than the cap. */
  lemma RateAnswered(sayings: seq<Saying>, sampler: Option<u64>)
    requires |Told(sayings).samplers| < 1024
    ensures IsAnswer(sayings, sampler, RateFor(Told(sayings), sampler))
  {
    hide Told, Latest, Shared, AllLatest, AllSay;
    RatesAreLatest(sayings);
    var d := Told(sayings);
    forall n: u32
      ensures AllSay(d.samplers, n) <==> AllLatest(sayings, n)
    {
      SharedIsLatest(sayings, n);
    }
    if d.samplers == map[] {
      NobodySays();
    }
  }

  lemma NobodySays()
    ensures forall n: u32 :: !AllSay(map[], n)
  {
  }

  // What messages tell

  function SayingsOf(rs: seq<Record>): seq<Saying> {
    if rs == [] then []
    else SayingOf(rs[0]) + SayingsOf(rs[1..])
  }

  function SayingOf(r: Record): seq<Saying> {
    if !r.OptionsData? then []
    else
      var rate := RateOf(ObserveAll(UNSEEN, r.record.fields, r.record.values));
      if rate.Some? then [Saying(SamplerIn(r.record.fields, r.record.values), rate.value)] else []
  }

  function SayingsOfSets(sets: seq<Set>): seq<Saying> {
    if sets == [] then [] else SayingsOf(sets[0].records) + SayingsOfSets(sets[1..])
  }

  /** Boot times aside. */
  predicate SameRates(d: Domain, e: Domain) {
    d.rate == e.rate && d.samplers == e.samplers && d.shared == e.shared
  }

  lemma OneNoted(d: Domain, sayings: seq<Saying>, r: Record)
    requires SameRates(d, Told(sayings))
    ensures SameRates(Noted(d, r), Told(sayings + SayingOf(r)))
  {
    hide ObserveAll, RateOf, Shared, SamplerIn, BootIn;
    assert sayings + [] == sayings;
    var all := sayings + SayingOf(r);
    if SayingOf(r) != [] {
      assert all[..|all| - 1] == sayings;
    }
  }

  lemma {:induction false} AllNoted(d: Domain, sayings: seq<Saying>, rs: seq<Record>)
    requires SameRates(d, Told(sayings))
    ensures SameRates(NotedAll(d, rs), Told(sayings + SayingsOf(rs)))
    decreases |rs|
  {
    hide Noted, Told, SayingOf, SameRates;
    if rs == [] {
      assert sayings + [] == sayings;
    } else {
      OneNoted(d, sayings, rs[0]);
      AllNoted(Noted(d, rs[0]), sayings + SayingOf(rs[0]), rs[1..]);
      Regroup(sayings, SayingOf(rs[0]), SayingsOf(rs[1..]));
    }
  }

  lemma {:induction false} SetsNoted(d: Domain, sayings: seq<Saying>, sets: seq<Set>)
    requires SameRates(d, Told(sayings))
    ensures SameRates(NotedSets(d, sets), Told(sayings + SayingsOfSets(sets)))
    decreases |sets|
  {
    hide NotedAll, Told, SayingsOf, SameRates;
    if sets == [] {
      assert sayings + [] == sayings;
    } else {
      AllNoted(d, sayings, sets[0].records);
      SetsNoted(NotedAll(d, sets[0].records), sayings + SayingsOf(sets[0].records), sets[1..]);
      Regroup(sayings, SayingsOf(sets[0].records), SayingsOfSets(sets[1..]));
    }
  }

  /** What the messages decoded so far told of a domain, in order. */
  function SayingsIn(answers: seq<Answer>, domain: int): seq<Saying> {
    if answers == [] then [] else SayingsIn(answers[..|answers| - 1], domain) + SayingsBy(answers[|answers| - 1], domain)
  }

  function SayingsBy(answer: Answer, domain: int): seq<Saying> {
    if answer.packet.Ok? && answer.packet.value.header.domain == domain then SayingsOfSets(answer.packet.value.sets) else []
  }

  lemma {:induction false} OneMore(config: Config, kept: Kept, ms: seq<Message>, m: Message)
    ensures var (before, answers) := ProcessAll(config, kept, ms);
            var (after, answer) := Process(config, before, m.now, m.octets);
            ProcessAll(config, kept, ms + [m]) == (after, answers + [answer])
    decreases |ms|
  {
    hide Process;
    if ms == [] {
      assert ms + [m] == [m] && [m][1..] == [];
      var (after, answer) := Process(config, kept, m.now, m.octets);
      assert ProcessAll(config, after, [m][1..]) == (after, []);
      assert [answer] + [] == [answer] == [] + [answer];
    } else {
      assert (ms + [m])[1..] == ms[1..] + [m] && (ms + [m])[0] == ms[0];
      var (next, first) := Process(config, kept, ms[0].now, ms[0].octets);
      OneMore(config, next, ms[1..], m);
      var (before, rest) := ProcessAll(config, next, ms[1..]);
      Regroup([first], rest, [Process(config, before, m.now, m.octets).1]);
    }
  }

  /** A domain is what it was told. */
  lemma {:induction false} DomainIsTold(config: Config, ms: seq<Message>, id: int)
    ensures var (kept, answers) := ProcessAll(config, NEW, ms);
            SameRates(DomainIn(kept.domains, id), Told(SayingsIn(answers, id)))
    decreases |ms|
  {
    hide ProcessAll, Process, Told, SayingsBy;
    if ms == [] {
      NothingTold(config, id);
    } else {
      var before, m := ms[..|ms| - 1], ms[|ms| - 1];
      assert before + [m] == ms;
      DomainIsTold(config, before, id);
      OneMore(config, NEW, before, m);
      var (kept, answers) := ProcessAll(config, NEW, before);
      var (after, answer) := Process(config, kept, m.now, m.octets);
      assert (answers + [answer])[..|answers|] == answers;
      DomainStep(config, kept, m, id, SayingsIn(answers, id));
    }
  }

  lemma NothingTold(config: Config, id: int)
    ensures ProcessAll(config, NEW, []) == (NEW, []) && DomainIn(NEW.domains, id) == Told([]) && SayingsIn([], id) == []
  {
  }

  lemma DomainStep(config: Config, kept: Kept, m: Message, id: int, sayings: seq<Saying>)
    requires SameRates(DomainIn(kept.domains, id), Told(sayings))
    ensures var (after, answer) := Process(config, kept, m.now, m.octets);
            SameRates(DomainIn(after.domains, id), Told(sayings + SayingsBy(answer, id)))
  {
    hide ParseMessage, NotedSets, ConvertSets, Told, SayingsOfSets;
    assert sayings + [] == sayings;
    var r := ParseMessage(config, kept.parser, m.now, m.octets).0;
    if r.Ok? && r.value.header.domain == id {
      SetsNoted(DomainIn(kept.domains, id), sayings, r.value.sets);
    }
  }

  // Boot times: the last one told counts

  function BootOf(r: Record): seq<int> {
    if !r.OptionsData? then []
    else
      var boot := BootIn(r.record.fields, r.record.values);
      if boot.Some? then [boot.value] else []
  }

  function BootsOf(rs: seq<Record>): seq<int> {
    if rs == [] then [] else BootOf(rs[0]) + BootsOf(rs[1..])
  }

  function BootsOfSets(sets: seq<Set>): seq<int> {
    if sets == [] then [] else BootsOf(sets[0].records) + BootsOfSets(sets[1..])
  }

  function BootsBy(answer: Answer, domain: int): seq<int> {
    if answer.packet.Ok? && answer.packet.value.header.domain == domain then BootsOfSets(answer.packet.value.sets) else []
  }

  function BootsIn(answers: seq<Answer>, domain: int): seq<int> {
    if answers == [] then [] else BootsIn(answers[..|answers| - 1], domain) + BootsBy(answers[|answers| - 1], domain)
  }

  function Last(boots: seq<int>): Option<int> {
    if boots == [] then None else Some(boots[|boots| - 1])
  }

  lemma {:induction false} BootsNoted(d: Domain, boots: seq<int>, rs: seq<Record>)
    requires d.boot == Last(boots)
    ensures NotedAll(d, rs).boot == Last(boots + BootsOf(rs))
    decreases |rs|
  {
    hide NotedRate, BootIn;
    if rs == [] {
      assert boots + [] == boots;
    } else {
      OneBoot(d, boots, rs[0]);
      BootsNoted(Noted(d, rs[0]), boots + BootOf(rs[0]), rs[1..]);
      Regroup(boots, BootOf(rs[0]), BootsOf(rs[1..]));
    }
  }

  lemma OneBoot(d: Domain, boots: seq<int>, r: Record)
    requires d.boot == Last(boots)
    ensures Noted(d, r).boot == Last(boots + BootOf(r))
  {
    hide BootIn, ObserveAll, RateOf, Shared, SamplerIn;
    assert boots + [] == boots;
  }

  lemma {:induction false} BootsNotedSets(d: Domain, boots: seq<int>, sets: seq<Set>)
    requires d.boot == Last(boots)
    ensures NotedSets(d, sets).boot == Last(boots + BootsOfSets(sets))
    decreases |sets|
  {
    hide NotedAll, BootsOf, Last;
    if sets == [] {
      assert boots + [] == boots;
    } else {
      BootsNoted(d, boots, sets[0].records);
      BootsNotedSets(NotedAll(d, sets[0].records), boots + BootsOf(sets[0].records), sets[1..]);
      Regroup(boots, BootsOf(sets[0].records), BootsOfSets(sets[1..]));
    }
  }

  /** A domain's boot time is the last that its messages told. */
  lemma {:induction false} BootIsLast(config: Config, ms: seq<Message>, id: int)
    ensures var (kept, answers) := ProcessAll(config, NEW, ms);
            DomainIn(kept.domains, id).boot == Last(BootsIn(answers, id))
    decreases |ms|
  {
    hide ProcessAll, Process, BootsBy;
    if ms == [] {
      NothingTold(config, id);
    } else {
      var before, m := ms[..|ms| - 1], ms[|ms| - 1];
      assert before + [m] == ms;
      BootIsLast(config, before, id);
      OneMore(config, NEW, before, m);
      var (kept, answers) := ProcessAll(config, NEW, before);
      var (after, answer) := Process(config, kept, m.now, m.octets);
      assert (answers + [answer])[..|answers|] == answers;
      BootStep(config, kept, m, id, BootsIn(answers, id));
    }
  }

  lemma BootStep(config: Config, kept: Kept, m: Message, id: int, boots: seq<int>)
    requires DomainIn(kept.domains, id).boot == Last(boots)
    ensures var (after, answer) := Process(config, kept, m.now, m.octets);
            DomainIn(after.domains, id).boot == Last(boots + BootsBy(answer, id))
  {
    hide ParseMessage, NotedSets, ConvertSets, BootsOfSets, Last;
    assert boots + [] == boots;
    var r := ParseMessage(config, kept.parser, m.now, m.octets).0;
    if r.Ok? && r.value.header.domain == id {
      BootsNotedSets(DomainIn(kept.domains, id), boots, r.value.sets);
    }
  }

  // The flows of a message

  function DataIn(rs: seq<Record>): seq<DataRecord> {
    if rs == [] then [] else (if rs[0].Data? then [rs[0].record] else []) + DataIn(rs[1..])
  }

  function DataInSets(sets: seq<Set>): seq<DataRecord> {
    if sets == [] then [] else DataIn(sets[0].records) + DataInSets(sets[1..])
  }

  lemma {:induction false} FlowOfEach(d: Domain, header: Header, rs: seq<Record>)
    ensures var flows := ConvertAll(d, header, rs);
            |flows| == |DataIn(rs)| && forall k :: 0 <= k < |flows| ==> flows[k] == Convert(d, header, DataIn(rs)[k])
  {
    hide Convert;
    if rs != [] {
      FlowOfEach(d, header, rs[1..]);
    }
  }

  lemma {:induction false} FlowOfEachIn(d: Domain, header: Header, sets: seq<Set>)
    ensures var flows := ConvertSets(d, header, sets);
            && |flows| == |DataInSets(sets)|
            && forall k :: 0 <= k < |flows| ==> flows[k] == Convert(d, header, DataInSets(sets)[k])
  {
    hide Convert, ConvertAll, DataIn;
    if sets != [] {
      FlowOfEach(d, header, sets[0].records);
      FlowOfEachIn(d, header, sets[1..]);
    }
  }

  /** The rate a record states itself. */
  function OwnRate(record: DataRecord): Option<u32> {
    RateOf(ObserveAll(UNSEEN, record.fields, record.values))
  }

  lemma {:induction false} TimesKeepRate(
    facts: FlowFacts, header: Header, boot: Option<int>, fields: seq<ResolvedField>, values: seq<FieldValue>)
    ensures Times(facts, header, boot, fields, values).rate == facts.rate
    decreases |fields|
  {
    hide TimeField, IsStart, IsEnd;
    if fields != [] && values != [] {
      var t := TimeField(header, boot, fields[0], values[0]);
      var next :=
        if IsStart(fields[0]) then facts.(start := t) else if IsEnd(fields[0]) then facts.(end := t) else facts;
      TimesKeepRate(next, header, boot, fields[1..], values[1..]);
    }
  }

  /** Whatever messages came before, each data record of a message is a flow, in order, and takes the rate it states; or
      else the answer to what its domain was told, this message included. */
  lemma {:induction false} FlowRatesAnswered(config: Config, ms: seq<Message>, m: Message)
    ensures var answers := ProcessAll(config, NEW, ms + [m]).1;
            var answer := answers[|ms|];
            answer.packet.Ok? ==>
              var records := DataInSets(answer.packet.value.sets);
              var sayings := SayingsIn(answers, answer.packet.value.header.domain);
              && |answer.flows| == |records|
              && (|Told(sayings).samplers| < 1024 ==> forall k :: 0 <= k < |records| ==>
                    if OwnRate(records[k]).Some? then answer.flows[k].rate == OwnRate(records[k])
                    else IsAnswer(sayings, SamplerIn(records[k].fields, records[k].values), answer.flows[k].rate))
  {
    hide ProcessAll, Process, Told, SayingsIn, IsAnswer, OwnRate, SamplerIn, DataInSets, RateFor;
    var (before, earlier) := ProcessAll(config, NEW, ms);
    OneMore(config, NEW, ms, m);
    var (kept, answers) := ProcessAll(config, NEW, ms + [m]);
    var answer := answers[|ms|];
    assert answer == Process(config, before, m.now, m.octets).1;
    if answer.packet.Ok? {
      var p := answer.packet.value;
      var d, sayings := DomainIn(kept.domains, p.header.domain), SayingsIn(answers, p.header.domain);
      DomainIsTold(config, ms + [m], p.header.domain);
      FlowsOfDomain(config, before, m);
      FlowOfEachIn(d, p.header, p.sets);
      if |Told(sayings).samplers| < 1024 {
        var records := DataInSets(p.sets);
        forall k | 0 <= k < |records|
          ensures if OwnRate(records[k]).Some? then answer.flows[k].rate == OwnRate(records[k])
                  else IsAnswer(sayings, SamplerIn(records[k].fields, records[k].values), answer.flows[k].rate)
        {
          var sampler := SamplerIn(records[k].fields, records[k].values);
          RateTaken(d, p.header, records[k]);
          RateAnswered(sayings, sampler);
          SameAnswer(d, Told(sayings), sampler);
        }
      }
    }
  }

  lemma SameAnswer(d: Domain, e: Domain, sampler: Option<u64>)
    requires SameRates(d, e)
    ensures RateFor(d, sampler) == RateFor(e, sampler)
  {
  }

  lemma RateTaken(d: Domain, header: Header, record: DataRecord)
    ensures Convert(d, header, record).rate
         == if OwnRate(record).Some? then OwnRate(record) else RateFor(d, SamplerIn(record.fields, record.values))
  {
    hide RateOf, ObserveAll, RateFor, SamplerIn, Times;
    var own := OwnRate(record);
    var rate := if own.Some? then own else RateFor(d, SamplerIn(record.fields, record.values));
    TimesKeepRate(FlowFacts(rate, None, None), header, d.boot, record.fields, record.values);
  }

  lemma FlowsOfDomain(config: Config, kept: Kept, m: Message)
    ensures var (after, answer) := Process(config, kept, m.now, m.octets);
            answer.packet.Ok? ==>
              var p := answer.packet.value;
              answer.flows == ConvertSets(DomainIn(after.domains, p.header.domain), p.header, p.sets)
  {
    hide ParseMessage, NotedSets, ConvertSets;
  }

  // Fields by element number

  function Field(id: u16, length: u16): ResolvedField {
    ResolvedField(FieldSpecifier(false, id, length, None), UnsignedType, Registered([]))
  }

  function Single(id: u16, v: FieldValue): DataRecord {
    DataRecord([Field(id, 8)], [v])
  }

  lemma SingleParts(id: u16, v: FieldValue)
    ensures ObserveAll(UNSEEN, [Field(id, 8)], [v]) == Observe(UNSEEN, Field(id, 8), v)
    ensures SamplerIn([Field(id, 8)], [v]) == if id == 48 || id == 302 then Typing.Number(v) else None
  {
    assert [Field(id, 8)][1..] == [] && [v][1..] == [];
  }

  /** samplingInterval is 34, samplerRandomInterval 50, samplingPacketInterval 305 and samplingPacketSpace 306; samplerId is
      48 and selectorId 302. */
  lemma RatesByNumber(id: u16, n: u32)
    ensures OwnRate(Single(id, Unsigned32(n))) == if id == 34 || id == 50 || id == 305 then Some(n) else None
    ensures SamplerIn([Field(id, 8)], [Unsigned32(n)]) == if id == 48 || id == 302 then Some(n) else None
  {
    SingleParts(id, Unsigned32(n));
  }

  lemma PairByNumber(packets: u32, space: u32, n: u32)
    requires packets > 0
    ensures OwnRate(DataRecord([Field(305, 4), Field(306, 4)], [Unsigned32(packets), Unsigned32(space)])) == Some(n)
            <==> packets * n == packets + space
  {
    var fields, values := [Field(305, 4), Field(306, 4)], [Unsigned32(packets), Unsigned32(space)];
    assert fields[1..] == [Field(306, 4)] && values[1..] == [Unsigned32(space)];
    assert [Field(306, 4)][1..] == [] && [Unsigned32(space)][1..] == [];
    var first := Observe(UNSEEN, fields[0], values[0]);
    assert ObserveAll(first, fields[1..], values[1..]) == Observe(first, Field(306, 4), Unsigned32(space));
    PairIsOneIn(packets, space, n);
  }

  /** systemInitTimeMilliseconds is 160. */
  lemma BootByNumber(id: u16, t: Time)
    ensures BootIn([Field(id, 8)], [DateTimeMilliseconds(t)]) == if id == 160 then Some(t / 1_000_000) else None
  {
    assert [Field(id, 8)][1..] == [];
  }

  lemma SingleTimes(d: Domain, header: Header, id: u16, v: FieldValue)
    ensures var facts := Convert(d, header, Single(id, v));
            && facts.start == (if IsStart(Field(id, 8)) then TimeField(header, d.boot, Field(id, 8), v) else None)
            && facts.end == (if IsEnd(Field(id, 8)) && !IsStart(Field(id, 8)) then TimeField(header, d.boot, Field(id, 8), v)
                             else None)
  {
    hide RateFor, TimeField, RateOf, Observe, IsStart, IsEnd;
    var field := Field(id, 8);
    assert [field][1..] == [] && [v][1..] == [];
    var own := RateOf(ObserveAll(UNSEEN, [field], [v]));
    var first := FlowFacts(if own.Some? then own else RateFor(d, SamplerIn([field], [v])), None, None);
    var t := TimeField(header, d.boot, field, v);
    var next := if IsStart(field) then first.(start := t) else if IsEnd(field) then first.(end := t) else first;
    assert Times(first, header, d.boot, [field], [v]) == Times(next, header, d.boot, [field][1..], [v][1..]) == next;
  }

  /** flowStartDeltaMicroseconds is 158 and flowEndDeltaMicroseconds 159: so long before the export time. */
  lemma DeltasByNumber(d: Domain, header: Header, delta: u32)
    requires Nanos(header.exportTime).Some?
    ensures Convert(d, header, Single(158, Unsigned32(delta))).start == Some(header.exportTime - delta * 1_000)
    ensures Convert(d, header, Single(158, Unsigned32(delta))).end == None
    ensures Convert(d, header, Single(159, Unsigned32(delta))).end == Some(header.exportTime - delta * 1_000)
    ensures Convert(d, header, Single(159, Unsigned32(delta))).start == None
  {
    hide Convert;
    SingleTimes(d, header, 158, Unsigned32(delta));
    SingleTimes(d, header, 159, Unsigned32(delta));
  }

  /** flowStartSysUpTime is 22 and flowEndSysUpTime 21: so long after the exporter booted, while the difference to the
      export time fits. */
  lemma UptimesByNumber(d: Domain, header: Header, boot: int, uptime: u32)
    requires d.boot == Some(boot) && -0x8000_0000 <= Timestamps.Millis(header.exportTime) - boot - uptime < 0x8000_0000
    ensures var t := Nanos((boot + uptime) * 1_000_000 + header.exportTime % 1_000_000);
            && Convert(d, header, Single(22, Unsigned32(uptime))).start == t
            && Convert(d, header, Single(22, Unsigned32(uptime))).end == None
            && Convert(d, header, Single(21, Unsigned32(uptime))).end == t
            && Convert(d, header, Single(21, Unsigned32(uptime))).start == None
  {
    hide Convert, Timestamps.UptimeToAbsolute;
    SingleTimes(d, header, 22, Unsigned32(uptime));
    SingleTimes(d, header, 21, Unsigned32(uptime));
    assert Timestamps.Wrapped(uptime) == uptime;
    Timestamps.IpfixUptimeIsExact(header.exportTime, boot, uptime);
  }

  function DateValue(form: nat, t: Time): FieldValue
    requires form < 4
  {
    match form
    case 0 => DateTimeSeconds(t)
    case 1 => DateTimeMilliseconds(t)
    case 2 => DateTimeMicroseconds(t)
    case _ => DateTimeNanoseconds(t)
  }

  /** flowStartSeconds, Milliseconds, Microseconds and Nanoseconds are 150, 152, 154 and 156, and the ends 151 to 157. */
  lemma DatesByNumber(d: Domain, header: Header, k: nat, form: nat, t: Time)
    requires k < 4 && form < 4 && Nanos(t).Some?
    ensures Convert(d, header, Single(150 + 2 * k, DateValue(form, t))).start == Some(t)
    ensures Convert(d, header, Single(150 + 2 * k, DateValue(form, t))).end == None
    ensures Convert(d, header, Single(151 + 2 * k, DateValue(form, t))).end == Some(t)
    ensures Convert(d, header, Single(151 + 2 * k, DateValue(form, t))).start == None
  {
    hide Convert;
    SingleTimes(d, header, 150 + 2 * k, DateValue(form, t));
    SingleTimes(d, header, 151 + 2 * k, DateValue(form, t));
  }
}
