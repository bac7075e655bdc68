/** From the frames an exporter captures to the records a collector decodes: the accounts agree. */
module MeterToCollector {
  import opened Bytes
  import opened Ipfix
  import opened Flows
  import opened FlowCaching
  import opened Metering
  import opened Sequences
  import opened Exporting
  import opened EndToEnd
  import opened Collecting
  import Timestamps
  import Domains
  import Encoding
  import Typing = ElementTyping

  // Exporting batch after batch

  /** What the collector is to see of the batches. */
  function Joined(batches: seq<seq<FlowData>>): seq<FlowData> {
    if batches == [] then [] else Joined(batches[..|batches| - 1]) + ByFamily(batches[|batches| - 1])
  }

  lemma {:induction false} ConcatJoin(a: seq<seq<Outgoing>>, b: seq<seq<Outgoing>>)
    ensures Concat(a + b) == Concat(a) + Concat(b)
  {
    if a == [] {
      assert a + b == b;
    } else {
      ConcatJoin(a[1..], b);
      assert (a + b)[1..] == a[1..] + b;
      Regroup(a[0], Concat(a[1..]), Concat(b));
    }
  }

  lemma SplitsJoin(fs: seq<FlowData>, parts: seq<seq<Outgoing>>, gs: seq<FlowData>, more: seq<seq<Outgoing>>)
    requires IsSplit(ToOutgoingAll(fs), parts) && IsSplit(ToOutgoingAll(gs), more)
    ensures IsSplit(ToOutgoingAll(fs + gs), parts + more)
  {
    hide ToOutgoing, OneMessage, Concat;
    ConcatJoin(parts, more);
    assert ToOutgoingAll(fs + gs) == ToOutgoingAll(fs) + ToOutgoingAll(gs);
  }

  /** After the first attempt, one for each part. */
  ghost predicate SentParts(tried: seq<Attempt>, parts: seq<seq<Outgoing>>) {
    && |tried| == 1 + |parts|
    && forall k :: 0 <= k < |parts| ==> parts[k] != [] && tried[k + 1].packet.sets == [MessageSet(parts[k])]
  }

  lemma SentMore(before: seq<Attempt>, tried: seq<Attempt>, parts: seq<seq<Outgoing>>, more: seq<seq<Outgoing>>)
    requires SentParts(before, parts) && |tried| == |before| + |more| && before == tried[..|before|]
    requires Sets(tried[|before|..]) == MessageSets(more)
    requires forall k :: 0 <= k < |more| ==> OneMessage(more[k])
    ensures SentParts(tried, parts + more)
  {
    hide OneMessage, MessageSet;
    var all := parts + more;
    forall k | 0 <= k < |all|
      ensures all[k] != [] && tried[k + 1].packet.sets == [MessageSet(all[k])]
    {
      if k < |parts| {
        assert before[k + 1] == tried[k + 1];
      } else {
        var j := k - |parts|;
        assert OneMessage(more[j]);
        NotEmpty(more[j]);
        assert tried[|before|..][j] == tried[k + 1];
        assert Sets(tried[|before|..])[j] == tried[k + 1].packet.sets;
      }
    }
  }

  lemma NotEmpty(rs: seq<Outgoing>)
    requires OneMessage(rs)
    ensures rs != []
  {
  }

  /** The templates, and then every batch as it comes. */
  method ExportBatches(domain: u32, batches: seq<seq<FlowData>>, clock: nat -> Time)
    returns (wire: seq<bytes>, ghost headers: seq<Header>, ghost parts: seq<seq<Outgoing>>)
    ensures EndToEnd.IsExport(domain, wire, headers, parts) && IsSplit(ToOutgoingAll(Joined(batches)), parts)
  {
    hide Values, Packed, Greedy, Concat, OneMessage, MessageSet, Encoding.EncodePacket, FlowTemplates, SequenceCorrect,
      RecordsSent, Family, Datagrams, ByFamily, ToOutgoing, Sets, MessageSets;
    var exporter := new Exporter(domain, n => false, clock);
    var _ := exporter.SendTemplates(FlowTemplates(), SAMPLING_TEMPLATE);
    ghost var taught := exporter.tried;
    assert |taught| == 1 && taught[0].packet.sets == TemplateSets(FlowTemplates(), SAMPLING_TEMPLATE);
    parts := [];
    NothingSplit();
    for i := 0 to |batches|
      invariant exporter.Valid() && fresh(exporter) && exporter.domain == domain && exporter.clock == clock
      invariant forall n :: !exporter.fails(n)
      invariant SentParts(exporter.tried, parts) && exporter.tried[0] == taught[0]
      invariant IsSplit(ToOutgoingAll(Joined(batches[..i])), parts)
    {
      assert batches[..i + 1][..i] == batches[..i];
      var ipv4, ipv6 := Partition(batches[i]);
      var rs := ToOutgoingAll(ipv4 + ipv6);
      assert ipv4 + ipv6 == ByFamily(batches[i]) by {
        FamiliesJoin(batches[i]);
      }
      ghost var before := exporter.tried;
      var _ := exporter.SendRecords(rs);
      GreedyIsSplit(rs);
      SentMore(before, exporter.tried, parts, Greedy(rs));
      SplitsJoin(Joined(batches[..i]), parts, ByFamily(batches[i]), Greedy(rs));
      parts := parts + Greedy(rs);
    }
    assert batches[..|batches|] == batches;
    wire := exporter.wire;
    headers := HeadersOf(exporter.tried);
    Exported(exporter, domain, clock, parts);
  }

  ghost function HeadersOf(tried: seq<Attempt>): (headers: seq<Header>)
    ensures |headers| == |tried| && forall i :: 0 <= i < |tried| ==> headers[i] == tried[i].packet.header
  {
    seq(|tried|, i requires 0 <= i < |tried| => tried[i].packet.header)
  }

  lemma NothingSplit()
    ensures IsSplit(ToOutgoingAll([]), []) && Joined([]) == []
  {
  }

  lemma FamiliesJoin(fs: seq<FlowData>)
    ensures Family(fs, true) + Family(fs, false) == ByFamily(fs)
  {
  }

  lemma Exported(exporter: Exporter, domain: u32, clock: nat -> Time, parts: seq<seq<Outgoing>>)
    requires exporter.Valid() && exporter.domain == domain && exporter.clock == clock
    requires forall n :: !exporter.fails(n)
    requires SentParts(exporter.tried, parts)
    requires exporter.tried[0].packet.sets == TemplateSets(FlowTemplates(), SAMPLING_TEMPLATE)
    ensures EndToEnd.IsExport(domain, exporter.wire, HeadersOf(exporter.tried), parts)
  {
    hide Encoding.EncodePacket, FlowTemplates, SequenceCorrect, RecordsSent, MessageSet, Datagrams;
    AllDatagrams(exporter.tried);
  }

  // What a collector makes of a record

  function AddressOf(v: Option<FieldValue>): Option<Address> {
    match v
    case Some(Ipv4Address(b)) => Some(V4(b))
    case Some(Ipv6Address(b)) => Some(V6(b))
    case _ => None
  }

  function NumberOf(v: Option<FieldValue>): Option<u64> {
    if v.Some? then Typing.Number(v.value) else None
  }

  function BelowOf(v: Option<FieldValue>, limit: nat): (r: Option<nat>)
    ensures r.Some? ==> r.value < limit
  {
    if v.Some? then Typing.Below(v.value, limit) else None
  }

  /** The first of two addresses a record has. */
  function Either(r: DataRecord, v4: u16, v6: u16): Option<Address> {
    if Element(r, v4).Some? then AddressOf(Element(r, v4)) else AddressOf(Element(r, v6))
  }

  /** The flow key in a decoded record, if it has one: addresses, protocol and ports by their elements. */
  function KeyOf(r: DataRecord): Option<FlowKey> {
    var source, destination := Either(r, 8, 27), Either(r, 12, 28);
    var protocol := BelowOf(Element(r, 4), 0x100);
    var sourcePort, destinationPort := BelowOf(Element(r, 7), 0x1_0000), BelowOf(Element(r, 11), 0x1_0000);
    if source.Some? && destination.Some? && protocol.Some? && sourcePort.Some? && destinationPort.Some? then
      Some(FlowKey(source.value, destination.value, protocol.value, sourcePort.value, destinationPort.value))
    else None
  }

  /** octetDeltaCount, packetDeltaCount and tcpControlBits of a decoded record. */
  function CountersOf(r: DataRecord): Account {
    var octets, packets := NumberOf(Element(r, 1)), NumberOf(Element(r, 2));
    var flags := BelowOf(Element(r, 6), 0x1_0000);
    if octets.Some? && packets.Some? && flags.Some? then Account(packets.value, octets.value, flags.value as bv16)
    else NOTHING
  }

  function RecordAccount(r: DataRecord, key: FlowKey): Account {
    if KeyOf(r) == Some(key) then CountersOf(r) else NOTHING
  }

  /** What the records of a key add up to. */
  function RecordTotal(rs: seq<DataRecord>, key: FlowKey): Account {
    if rs == [] then NOTHING else Plus(RecordAccount(rs[0], key), RecordTotal(rs[1..], key))
  }

  // Adding up what is exported

  function DataAccount(d: FlowData, key: FlowKey): Account {
    if FlowKey(d.sourceIp, d.destinationIp, d.protocol, d.sourcePort, d.destinationPort) == key
    then Account(d.packetCount, d.octetCount, d.tcpFlags as bv16) else NOTHING
  }

  function DataTotal(ds: seq<FlowData>, key: FlowKey): Account {
    if ds == [] then NOTHING else Plus(DataAccount(ds[0], key), DataTotal(ds[1..], key))
  }

  lemma CollectedAccount(registry: Registry, d: FlowData, key: FlowKey)
    requires FlowOk(d)
    ensures RecordAccount(Collected(registry, d), key) == DataAccount(d, key)
  {
    hide Collected, Element, FlowOk;
    CollectedHolds(registry, d);
  }

  predicate AllOk(fs: seq<FlowData>) {
    forall i :: 0 <= i < |fs| ==> FlowOk(fs[i])
  }

  lemma {:induction false} CollectedTotal(registry: Registry, ds: seq<FlowData>, key: FlowKey)
    requires AllOk(ds)
    ensures RecordTotal(CollectedAll(registry, ds), key) == DataTotal(ds, key)
  {
    hide Plus, Collected, RecordAccount, DataAccount, FlowOk;
    if ds != [] {
      CollectedAccount(registry, ds[0], key);
      CollectedTotal(registry, ds[1..], key);
      assert CollectedAll(registry, ds)[1..] == CollectedAll(registry, ds[1..]);
    }
  }

  lemma {:induction false} DataTotalConcat(a: seq<FlowData>, b: seq<FlowData>, key: FlowKey)
    ensures DataTotal(a + b, key) == Plus(DataTotal(a, key), DataTotal(b, key))
  {
    hide Plus, DataAccount;
    if a == [] {
      assert a + b == b;
      PlusLaws(DataTotal(b, key), NOTHING, NOTHING);
    } else {
      DataTotalConcat(a[1..], b, key);
      assert (a + b)[1..] == a[1..] + b;
      PlusLaws(DataAccount(a[0], key), DataTotal(a[1..], key), DataTotal(b, key));
    }
  }

  /** Sorting by family leaves the sum. */
  lemma {:induction false} FamilyTotal(ds: seq<FlowData>, key: FlowKey)
    ensures Plus(DataTotal(Family(ds, true), key), DataTotal(Family(ds, false), key)) == DataTotal(ds, key)
  {
    hide Plus, DataAccount, IsV4;
    if ds == [] {
      PlusLaws(NOTHING, NOTHING, NOTHING);
    } else {
      var x := DataAccount(ds[0], key);
      var v4, v6 := DataTotal(Family(ds[1..], true), key), DataTotal(Family(ds[1..], false), key);
      FamilyTotal(ds[1..], key);
      PlusLaws(x, v4, v6);
      PlusLaws(v4, x, v6);
      PlusLaws(x, v4, NOTHING);
      if IsV4(ds[0]) {
        assert Family(ds, true)[1..] == Family(ds[1..], true) && Family(ds, false) == Family(ds[1..], false);
      } else {
        assert Family(ds, false)[1..] == Family(ds[1..], false) && Family(ds, true) == Family(ds[1..], true);
      }
    }
  }

  function ToFlowDataAll(fs: seq<Flow>): (ds: seq<FlowData>)
    ensures |ds| == |fs| && forall i :: 0 <= i < |ds| ==> ds[i] == ToFlowData(fs[i])
  {
    seq(|fs|, i requires 0 <= i < |fs| => ToFlowData(fs[i]))
  }

  lemma FlagsKept(flags: bv16)
    ensures (flags as int) as bv16 == flags
  {
  }

  lemma {:induction false} FlowDataTotal(fs: seq<Flow>, key: FlowKey)
    ensures DataTotal(ToFlowDataAll(fs), key) == FlowTotal(fs, key)
  {
    hide Plus;
    if fs != [] {
      var before, last := fs[..|fs| - 1], fs[|fs| - 1];
      FlowDataTotal(before, key);
      DataTotalConcat(ToFlowDataAll(before), [ToFlowData(last)], key);
      assert ToFlowDataAll(fs) == ToFlowDataAll(before) + [ToFlowData(last)];
      assert [ToFlowData(last)][1..] == [];
      FlagsKept(last.tcpFlags);
      PlusLaws(DataAccount(ToFlowData(last), key), NOTHING, NOTHING);
    }
  }

  /** The interval the exporter reports is the rate its domain has at the collector. */
  lemma SamplingTold(registry: Registry, domain: u32, interval: u32, d: Domains.Domain)
    ensures Domains.Noted(d, OptionsData(SamplingRecord(registry, domain, interval))).rate == Some(interval)
  {
    hide Resolve, Domains.Shared;
    var r := SamplingRecord(registry, domain, interval);
    SamplingFields(registry);
    SamplingObserved(r.fields, r.values, interval);
  }

  lemma SamplingFields(registry: Registry)
    ensures var fields := Resolve(registry, SAMPLING_TEMPLATE.fields);
            |fields| == 5 && forall i :: 0 <= i < 5 ==> fields[i].spec == SAMPLING_TEMPLATE.fields[i]
  {
  }

  lemma SamplingObserved(fields: seq<ResolvedField>, values: seq<FieldValue>, interval: u32)
    requires |fields| == |values| == 5 && forall i :: 0 <= i < 5 ==> fields[i].spec == SAMPLING_TEMPLATE.fields[i]
    requires values[1] == Unsigned32(interval)
    ensures Domains.RateOf(Domains.ObserveAll(Domains.UNSEEN, fields, values)) == Some(interval)
    ensures Domains.SamplerIn(fields, values) == None
    ensures Domains.BootIn(fields, values) == None
  {
    var s1 := Domains.Observe(Domains.UNSEEN, fields[0], values[0]);
    var s2 := Domains.Observe(s1, fields[1], values[1]);
    assert s2.rate == Some(interval);
    NoMoreRate(s2, fields[2..], values[2..]);
    assert fields[1..][1..] == fields[2..] && values[1..][1..] == values[2..];
    assert fields[2..][1..] == fields[3..] && values[2..][1..] == values[3..];
    assert fields[3..][1..] == fields[4..] && values[3..][1..] == values[4..];
    assert fields[4..][1..] == [] && values[4..][1..] == [];
    assert Domains.SamplerIn(fields[4..], values[4..]) == None && Domains.BootIn(fields[4..], values[4..]) == None;
    assert Domains.SamplerIn(fields[3..], values[3..]) == None && Domains.BootIn(fields[3..], values[3..]) == None;
    assert Domains.SamplerIn(fields[2..], values[2..]) == None && Domains.BootIn(fields[2..], values[2..]) == None;
    assert Domains.SamplerIn(fields[1..], values[1..]) == None && Domains.BootIn(fields[1..], values[1..]) == None;
  }

  lemma {:induction false} NoMoreRate(s: Domains.Sampling, fields: seq<ResolvedField>, values: seq<FieldValue>)
    requires s.rate.Some?
    ensures Domains.ObserveAll(s, fields, values).rate == s.rate
    decreases |fields|
  {
    if fields != [] && values != [] {
      NoMoreRate(Domains.Observe(s, fields[0], values[0]), fields[1..], values[1..]);
    }
  }

  /** The batches a meter hands out. */
  function Batches(records: seq<Records>): seq<seq<FlowData>> {
    if records == [] then []
    else
      var last := records[|records| - 1];
      Batches(records[..|records| - 1]) + [ToFlowDataAll(if last.FlowRecords? then last.flows else [])]
  }

  lemma {:induction false} BatchesTotal(records: seq<Records>, key: FlowKey)
    ensures DataTotal(Joined(Batches(records)), key) == FlowTotal(FlowsOf(records), key)
  {
    hide Plus, ToFlowDataAll, DataTotal, FlowTotal, ByFamily;
    if records == [] {
      NoneTotal(key);
    } else {
      var n := |records| - 1;
      var before, last := records[..n], if records[n].FlowRecords? then records[n].flows else [];
      BatchesTotal(before, key);
      assert Batches(records)[..|Batches(before)|] == Batches(before);
      DataTotalConcat(Joined(Batches(before)), ByFamily(ToFlowDataAll(last)), key);
      ByFamilyTotal(ToFlowDataAll(last), key);
      FlowDataTotal(last, key);
      FlowTotalConcat(FlowsOf(before), last, key);
    }
  }

  lemma NoneTotal(key: FlowKey)
    ensures DataTotal([], key) == FlowTotal([], key) == NOTHING
  {
  }

  lemma ByFamilyTotal(ds: seq<FlowData>, key: FlowKey)
    ensures DataTotal(ByFamily(ds), key) == DataTotal(ds, key)
  {
    hide Plus, DataTotal, Family;
    DataTotalConcat(Family(ds, true), Family(ds, false), key);
    FamilyTotal(ds, key);
  }

  // Every flow handed out can be exported

  predicate TimeOk(t: Time) {
    0 <= t && Timestamps.Seconds(t) <= Timestamps.MAX_SECONDS
  }

  /** Both addresses of the network layer's family. */
  predicate KeyOk(k: FlowKey) {
    AddressOk(k.sourceIp) && AddressOk(k.destinationIp) && k.sourceIp.V4? == k.destinationIp.V4?
  }

  predicate FramesOk(events: seq<Event>) {
    forall i :: 0 <= i < |events| && events[i].Captured? ==> TimeOk(events[i].frame.time)
  }

  ghost predicate KeysOk(setup: Setup) {
    forall data :: setup.parse(data).Some? ==> KeyOk(setup.parse(data).value.key)
  }

  predicate SightsOk(s: seq<Sight>) {
    forall i :: 0 <= i < |s| ==> TimeOk(s[i].frame.time)
  }

  predicate PacketsOk(ps: seq<FlowCaching.Packet>) {
    forall i :: 0 <= i < |ps| ==> KeyOk(ps[i].key) && TimeOk(ps[i].seen.time)
  }

  lemma {:induction false} CapturesOk(events: seq<Event>)
    requires FramesOk(events)
    ensures SightsOk(Captures(events))
  {
    hide TimeOk;
    if events != [] {
      CapturesOk(events[..|events| - 1]);
    }
  }

  lemma {:induction false} SampledOk(s: seq<Sight>, interval: nat)
    requires interval > 0 && SightsOk(s)
    ensures SightsOk(Sampled(s, interval))
  {
    hide TimeOk;
    if s != [] {
      SampledOk(s[..|s| - 1], interval);
    }
  }

  lemma {:induction false} MeteredOk(setup: Setup, s: seq<Sight>)
    requires KeysOk(setup) && SightsOk(s)
    ensures PacketsOk(MeteredFlows(setup, s))
  {
    hide TimeOk, KeyOk, Metering.IsExport;
    if s != [] {
      MeteredOk(setup, s[..|s| - 1]);
    }
  }

  lemma FlowsOk(fs: seq<Flow>, offered: seq<FlowCaching.Packet>)
    requires AllCome(fs, offered) && PacketsOk(offered)
    ensures AllOk(ToFlowDataAll(fs))
  {
    hide AddressOk;
    forall n | 0 <= n < |fs|
      ensures FlowOk(ToFlowData(fs[n]))
    {
      assert ComesFrom(fs[n], offered);
    }
  }

  lemma ByFamilyOk(fs: seq<FlowData>)
    requires AllOk(fs)
    ensures AllOk(ByFamily(fs))
  {
    hide FlowOk, Family;
    FamilyOk(fs, true);
    FamilyOk(fs, false);
  }

  lemma AllOkConcat(a: seq<FlowData>, b: seq<FlowData>)
    ensures AllOk(a + b) <==> AllOk(a) && AllOk(b)
  {
    hide FlowOk;
    var c := a + b;
    if AllOk(c) {
      assert forall i :: 0 <= i < |a| ==> a[i] == c[i];
      assert forall i :: 0 <= i < |b| ==> b[i] == c[|a| + i];
    }
  }

  lemma {:induction false} BatchesOk(records: seq<Records>)
    requires AllOk(ToFlowDataAll(FlowsOf(records)))
    ensures AllOk(Joined(Batches(records)))
  {
    hide AllOk, ToFlowData, ByFamily;
    if records == [] {
      assert Joined([]) == ToFlowDataAll([]);
    } else {
      var n := |records| - 1;
      var before, last := records[..n], if records[n].FlowRecords? then records[n].flows else [];
      assert ToFlowDataAll(FlowsOf(records)) == ToFlowDataAll(FlowsOf(before)) + ToFlowDataAll(last);
      AllOkConcat(ToFlowDataAll(FlowsOf(before)), ToFlowDataAll(last));
      BatchesOk(before);
      ByFamilyOk(ToFlowDataAll(last));
      AllOkConcat(Joined(Batches(before)), ByFamily(ToFlowDataAll(last)));
      assert Batches(records)[..|Batches(before)|] == Batches(before);
    }
  }

  /** For any run of captured frames and timer ticks, over a network that loses nothing, to a collector the datagrams
      reach within the template timeout, what is collected of every key adds up to the sampled packets that parse and
      are not the exporter's own. */
  method MeterAndCollect(
      setup: Setup, mode: Mode, interval: u32, events: seq<Event>,
      config: Config, domain: u32, clock: nat -> Time, arrival: nat -> nat)
    returns (collected: seq<DataRecord>)
    requires mode.FlowMode? && 1 <= mode.maxFlows && KeysOk(setup) && FramesOk(events)
    requires KnowsFlows(config.registry) && config.timeout > 0
    requires forall m, n :: m <= n ==> arrival(m) <= arrival(n) < arrival(0) + config.timeout
    ensures forall key :: RecordTotal(collected, key)
                       == PacketTotal(MeteredFlows(setup, Sampled(Captures(events), Max(interval, 1))), key)
  {
    hide RecordTotal, FlowTotal, PacketTotal, MeteredFlows, Sampled, Captures, FlowsOf, KnowsFlows, CollectedAll, FlowOk,
      EndToEnd.IsExport, Metering.IsExport, IsSplit, Joined, AllCome, FramesOk, KeysOk, Batches, SightsOk, PacketsOk,
      ToFlowDataAll, ToOutgoingAll;
    var records := Metering.Run(setup, mode, interval, events);
    ghost var offered := MeteredFlows(setup, Sampled(Captures(events), Max(interval, 1)));
    CapturesOk(events);
    SampledOk(Captures(events), Max(interval, 1));
    MeteredOk(setup, Sampled(Captures(events), Max(interval, 1)));
    FlowsOk(FlowsOf(records), offered);
    BatchesOk(records);
    var wire, headers, parts := ExportBatches(domain, Batches(records), clock);
    collected := CollectFlows(config, wire, arrival, domain, headers, parts, Joined(Batches(records)));
    forall key
      ensures RecordTotal(collected, key) == PacketTotal(offered, key)
    {
      CollectedTotal(config.registry, Joined(Batches(records)), key);
      BatchesTotal(records, key);
    }
  }
}
