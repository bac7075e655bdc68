/** What options records say of an observation domain, and what the flows converted from its data records take from it. */
module Domains {
  import opened Bytes
  import opened Ipfix
  import Timestamps
  import Typing = ElementTyping

  const FLOW_END_SYS_UP_TIME: u16 := 21
  const FLOW_START_SYS_UP_TIME: u16 := 22
  const SAMPLING_INTERVAL: u16 := 34
  const SAMPLER_ID: u16 := 48
  const SAMPLER_RANDOM_INTERVAL: u16 := 50
  const FLOW_START_DELTA_MICROSECONDS: u16 := 158
  const FLOW_END_DELTA_MICROSECONDS: u16 := 159
  const SYSTEM_INIT_TIME_MILLISECONDS: u16 := 160
  const SELECTOR_ID: u16 := 302
  const SAMPLING_PACKET_INTERVAL: u16 := 305
  const SAMPLING_PACKET_SPACE: u16 := 306

  const MAX_SAMPLERS: nat := 1024

  // A record's fields

  predicate IsIana(field: ResolvedField, id: u16) {
    field.spec.enterpriseNumber == None && field.spec.id == id
  }

  function Number32(v: FieldValue): Option<u32> {
    var n := Typing.Below(v, 0x1_0000_0000);
    if n.Some? then Some(n.value) else None
  }

  /** What the fields seen so far say of sampling. */
  datatype Sampling = Sampling(rate: Option<u32>, packets: Option<u32>, space: Option<u32>)

  const UNSEEN: Sampling := Sampling(None, None, None)

  function Observe(s: Sampling, field: ResolvedField, v: FieldValue): Sampling {
    if IsIana(field, SAMPLING_INTERVAL) || IsIana(field, SAMPLER_RANDOM_INTERVAL) then
      if s.rate.Some? then s else s.(rate := Number32(v))
    else if IsIana(field, SAMPLING_PACKET_INTERVAL) then s.(packets := Number32(v))
    else if IsIana(field, SAMPLING_PACKET_SPACE) then s.(space := Number32(v))
    else s
  }

  function ObserveAll(s: Sampling, fields: seq<ResolvedField>, values: seq<FieldValue>): Sampling
    decreases |fields|
  {
    if fields == [] || values == [] then s
    else ObserveAll(Observe(s, fields[0], values[0]), fields[1..], values[1..])
  }

  /** One packet in how many; a number taken and a number skipped count only if the one divides the other. */
  function RateOf(s: Sampling): Option<u32> {
    if s.rate.Some? then s.rate
    else if s.packets.Some? && s.packets.value > 0 && s.space.Some? then
      var all := s.packets.value + s.space.value;
      if all % s.packets.value == 0 && all / s.packets.value < 0x1_0000_0000 then Some(all / s.packets.value) else None
    else s.packets
  }

  /** A pair is read as one in `n` exactly when it says so. */
  lemma PairIsOneIn(packets: u32, space: u32, n: u32)
    requires packets > 0
    ensures RateOf(Sampling(None, Some(packets), Some(space))) == Some(n) <==> packets * n == packets + space
  {
    var all := packets + space;
    if packets * n == all {
      ModUnique(all, packets, n, 0);
    }
  }

  method SamplingRate(record: DataRecord) returns (rate: Option<u32>)
    ensures rate == RateOf(ObserveAll(UNSEEN, record.fields, record.values))
  {
    var s := UNSEEN;
    var n := if |record.fields| < |record.values| then |record.fields| else |record.values|;
    for i := 0 to n
      invariant ObserveAll(s, record.fields[i..], record.values[i..]) == ObserveAll(UNSEEN, record.fields, record.values)
    {
      assert record.fields[i..][1..] == record.fields[i + 1..] && record.values[i..][1..] == record.values[i + 1..];
      s := Observe(s, record.fields[i], record.values[i]);
    }
    rate := RateOf(s);
  }

  /** The number in the first field that names a sampler. */
  function SamplerIn(fields: seq<ResolvedField>, values: seq<FieldValue>): Option<u64>
    decreases |fields|
  {
    if fields == [] || values == [] then None
    else if IsIana(fields[0], SAMPLER_ID) || IsIana(fields[0], SELECTOR_ID) then Typing.Number(values[0])
    else SamplerIn(fields[1..], values[1..])
  }

  /** The first boot time that is a date in milliseconds. */
  function BootIn(fields: seq<ResolvedField>, values: seq<FieldValue>): Option<int>
    decreases |fields|
  {
    if fields == [] || values == [] then None
    else if IsIana(fields[0], SYSTEM_INIT_TIME_MILLISECONDS) && values[0].DateTimeMilliseconds? then
      var DateTimeMilliseconds(t) := values[0];
      Some(Timestamps.Millis(t))
    else BootIn(fields[1..], values[1..])
  }

  // Rates by sampler

  /** A rate told without a sampler, rates told with one, and the rate these have in common. */
  datatype Domain = Domain(rate: Option<u32>, samplers: map<u64, u32>, shared: Option<u32>, boot: Option<int>)

  const BLANK: Domain := Domain(None, map[], None, None)

  predicate AllSay(samplers: map<u64, u32>, rate: u32) {
    samplers != map[] && forall id :: id in samplers ==> samplers[id] == rate
  }

  lemma SomeSampler(samplers: map<u64, u32>)
    ensures samplers == map[] || exists id :: id in samplers
  {
    if forall id :: id !in samplers {
      assert samplers == map[];
    }
  }

  lemma OneRate(samplers: map<u64, u32>, a: u32, b: u32)
    requires AllSay(samplers, a) && AllSay(samplers, b)
    ensures a == b
  {
    SomeSampler(samplers);
  }

  ghost function Shared(samplers: map<u64, u32>): (r: Option<u32>)
    ensures forall n: u32 :: r == Some(n) <==> AllSay(samplers, n)
  {
    if n: u32 :| AllSay(samplers, n) then
      assert forall k: u32 :: AllSay(samplers, k) ==> k == n by {
        forall k: u32 | AllSay(samplers, k)
          ensures k == n
        {
          OneRate(samplers, k, n);
        }
      }
      Some(n)
    else None
  }

  /** The first rate, if every other is the same. */
  method Agreed(samplers: map<u64, u32>) returns (r: Option<u32>)
    ensures r == Shared(samplers)
  {
    if samplers == map[] {
      return None;
    }
    SomeSampler(samplers);
    var any :| any in samplers;
    var first := samplers[any];
    var left := samplers.Keys;
    while left != {}
      invariant left <= samplers.Keys
      invariant forall id :: id in samplers && id !in left ==> samplers[id] == first
      decreases |left|
    {
      var id :| id in left;
      if samplers[id] != first {
        assert forall n: u32 :: !AllSay(samplers, n);
        return None;
      }
      left := left - {id};
    }
    assert AllSay(samplers, first);
    r := Some(first);
  }

  function WithSampler(samplers: map<u64, u32>, id: u64, rate: u32): map<u64, u32> {
    if |samplers| < MAX_SAMPLERS || id in samplers then samplers[id := rate] else samplers
  }

  ghost function WithRate(d: Domain, sampler: Option<u64>, rate: u32): Domain {
    match sampler
    case None => Domain(Some(rate), d.samplers, Shared(d.samplers), d.boot)
    case Some(id) =>
      var samplers := WithSampler(d.samplers, id, rate);
      Domain(d.rate, samplers, Shared(samplers), d.boot)
  }

  method SetSamplingRate(d: Domain, sampler: Option<u64>, rate: u32) returns (r: Domain)
    ensures r == WithRate(d, sampler, rate)
  {
    r := d;
    match sampler {
      case None => r := r.(rate := Some(rate));
      case Some(id) => r := r.(samplers := WithSampler(d.samplers, id, rate));
    }
    var shared := Agreed(r.samplers);
    r := r.(shared := shared);
  }

  /** A sampler's own rate, or else the domain's, or else the one all samplers have. */
  function RateFor(d: Domain, sampler: Option<u64>): Option<u32> {
    if d.samplers == map[] then d.rate
    else if sampler.Some? && sampler.value in d.samplers then Some(d.samplers[sampler.value])
    else if d.rate.Some? then d.rate
    else d.shared
  }

  // What was said, and what is answered

  datatype Saying = Saying(sampler: Option<u64>, rate: u32)

  ghost function Told(sayings: seq<Saying>): Domain {
    if sayings == [] then BLANK
    else
      var last := sayings[|sayings| - 1];
      WithRate(Told(sayings[..|sayings| - 1]), last.sampler, last.rate)
  }

  /** The rate last said of a sampler, or of none. */
  function Latest(sayings: seq<Saying>, sampler: Option<u64>): Option<u32> {
    if sayings == [] then None
    else
      var last := sayings[|sayings| - 1];
      if last.sampler == sampler then Some(last.rate) else Latest(sayings[..|sayings| - 1], sampler)
  }

  /** Up to the cap each sampler has the rate last said of it; past it, only samplers known already are heard. */
  lemma {:induction false} RatesAreLatest(sayings: seq<Saying>)
    ensures var d := Told(sayings);
            && d.rate == Latest(sayings, None) && |d.samplers| <= 1024 && d.shared == Shared(d.samplers)
            && (forall id :: id in d.samplers ==> Latest(sayings, Some(id)) == Some(d.samplers[id]))
            && (|d.samplers| < 1024 ==> forall id: u64 :: id !in d.samplers ==> Latest(sayings, Some(id)) == None)
  {
    if sayings != [] {
      var before, last := sayings[..|sayings| - 1], sayings[|sayings| - 1];
      RatesAreLatest(before);
      if last.sampler.Some? {
        SamplerAdded(Told(before).samplers, last.sampler.value, last.rate);
      }
    }
  }

  lemma SamplerAdded(samplers: map<u64, u32>, id: u64, rate: u32)
    requires |samplers| <= MAX_SAMPLERS
    ensures var r := WithSampler(samplers, id, rate);
            && |samplers| <= |r| <= MAX_SAMPLERS && r.Keys >= samplers.Keys
            && (forall k :: k in r ==> if k == id && (id in samplers || |samplers| < MAX_SAMPLERS) then r[k] == rate
                                       else k in samplers && r[k] == samplers[k])
  {
    if id in samplers {
      assert samplers[id := rate].Keys == samplers.Keys;
    } else {
      assert samplers[id := rate].Keys == samplers.Keys + {id};
    }
  }

  // Options records

  ghost function NotedRate(d: Domain, record: DataRecord): Domain {
    var rate := RateOf(ObserveAll(UNSEEN, record.fields, record.values));
    if rate.Some? then WithRate(d, SamplerIn(record.fields, record.values), rate.value) else d
  }

  function NotedBoot(d: Domain, record: DataRecord): Domain {
    var boot := BootIn(record.fields, record.values);
    if boot.Some? then d.(boot := boot) else d
  }

  ghost function Noted(d: Domain, r: Record): Domain {
    if r.OptionsData? then NotedBoot(NotedRate(d, r.record), r.record) else d
  }

  ghost function NotedAll(d: Domain, rs: seq<Record>): Domain
    decreases |rs|
  {
    if rs == [] then d else NotedAll(Noted(d, rs[0]), rs[1..])
  }

  ghost function NotedSets(d: Domain, sets: seq<Set>): Domain
    decreases |sets|
  {
    if sets == [] then d else NotedSets(NotedAll(d, sets[0].records), sets[1..])
  }

  method Note(d: Domain, r: Record) returns (after: Domain)
    ensures after == Noted(d, r)
  {
    after := d;
    if r.OptionsData? {
      var rate := SamplingRate(r.record);
      if rate.Some? {
        after := SetSamplingRate(after, SamplerIn(r.record.fields, r.record.values), rate.value);
      }
      after := NotedBoot(after, r.record);
    }
  }

  method NoteSets(d: Domain, sets: seq<Set>) returns (after: Domain)
    ensures after == NotedSets(d, sets)
  {
    hide Noted;
    after := d;
    for i := 0 to |sets|
      invariant NotedSets(after, sets[i..]) == NotedSets(d, sets)
    {
      assert sets[i..][1..] == sets[i + 1..];
      ghost var before := after;
      var rs := sets[i].records;
      for k := 0 to |rs|
        invariant NotedAll(after, rs[k..]) == NotedAll(before, rs)
      {
        assert rs[k..][1..] == rs[k + 1..];
        after := Note(after, rs[k]);
      }
    }
  }

  /** What it agrees on is what its samplers say. */
  ghost predicate DomainOk(d: Domain) {
    d.shared == Shared(d.samplers)
  }

  lemma {:induction false} NotedAllOk(d: Domain, rs: seq<Record>)
    requires DomainOk(d)
    ensures DomainOk(NotedAll(d, rs))
    decreases |rs|
  {
    if rs != [] {
      NotedAllOk(Noted(d, rs[0]), rs[1..]);
    }
  }

  lemma {:induction false} NotedSetsOk(d: Domain, sets: seq<Set>)
    requires DomainOk(d)
    ensures DomainOk(NotedSets(d, sets))
    decreases |sets|
  {
    hide DomainOk;
    if sets != [] {
      NotedAllOk(d, sets[0].records);
      NotedSetsOk(NotedAll(d, sets[0].records), sets[1..]);
    }
  }

  // Flows

  /** What of a flow depends on more than its record and header, and the fields that decide it. */
  datatype FlowFacts = FlowFacts(rate: Option<u32>, start: Option<int>, end: Option<int>)

  /** Nanoseconds that fit 64 bits. */
  function Nanos(t: Time): Option<int> {
    if -0x8000_0000_0000_0000 <= t < 0x8000_0000_0000_0000 then Some(t) else None
  }

  function DateOf(v: FieldValue): Option<int> {
    match v
    case DateTimeSeconds(t) => Nanos(t)
    case DateTimeMilliseconds(t) => Nanos(t)
    case DateTimeMicroseconds(t) => Nanos(t)
    case DateTimeNanoseconds(t) => Nanos(t)
    case _ => None
  }

  function FromUptime(header: Header, boot: Option<int>, v: FieldValue): Option<int> {
    var uptime := Number32(v);
    if uptime.Some? && boot.Some? then
      Nanos(Timestamps.IpfixUptimeToAbsolute(header.exportTime, boot.value, uptime.value))
    else None
  }

  /** Microseconds back from the export time. */
  function FromDelta(header: Header, v: FieldValue): Option<int> {
    var delta := Number32(v);
    if delta.Some? && Nanos(header.exportTime).Some? then Some(header.exportTime - delta.value * 1_000) else None
  }

  /** The time in a field that gives a flow's start or end. */
  function TimeField(header: Header, boot: Option<int>, field: ResolvedField, v: FieldValue): Option<int> {
    if field.spec.id == FLOW_START_SYS_UP_TIME || field.spec.id == FLOW_END_SYS_UP_TIME then FromUptime(header, boot, v)
    else if field.spec.id == FLOW_START_DELTA_MICROSECONDS || field.spec.id == FLOW_END_DELTA_MICROSECONDS
    then FromDelta(header, v)
    else DateOf(v)
  }

  predicate IsStart(field: ResolvedField) {
    && field.spec.enterpriseNumber == None
    && field.spec.id in {FLOW_START_SYS_UP_TIME, 150, 152, 154, 156, FLOW_START_DELTA_MICROSECONDS}
  }

  predicate IsEnd(field: ResolvedField) {
    && field.spec.enterpriseNumber == None
    && field.spec.id in {FLOW_END_SYS_UP_TIME, 151, 153, 155, 157, FLOW_END_DELTA_MICROSECONDS}
  }

  /** Of several fields for one time the last counts. */
  function Times(flow: FlowFacts, header: Header, boot: Option<int>, fields: seq<ResolvedField>, values: seq<FieldValue>): FlowFacts
    decreases |fields|
  {
    if fields == [] || values == [] then flow
    else
      var t := TimeField(header, boot, fields[0], values[0]);
      var next := if IsStart(fields[0]) then flow.(start := t) else if IsEnd(fields[0]) then flow.(end := t) else flow;
      Times(next, header, boot, fields[1..], values[1..])
  }

  /** A record's own rate comes before its domain's. */
  function Convert(d: Domain, header: Header, record: DataRecord): FlowFacts {
    var own := RateOf(ObserveAll(UNSEEN, record.fields, record.values));
    var rate := if own.Some? then own else RateFor(d, SamplerIn(record.fields, record.values));
    Times(FlowFacts(rate, None, None), header, d.boot, record.fields, record.values)
  }

  function ConvertAll(d: Domain, header: Header, rs: seq<Record>): seq<FlowFacts> {
    if rs == [] then []
    else (if rs[0].Data? then [Convert(d, header, rs[0].record)] else []) + ConvertAll(d, header, rs[1..])
  }

  function ConvertSets(d: Domain, header: Header, sets: seq<Set>): seq<FlowFacts> {
    if sets == [] then [] else ConvertAll(d, header, sets[0].records) + ConvertSets(d, header, sets[1..])
  }
}
