/** What becomes of captured frames: sampling, own traffic set aside, flows or packets handed out. */
module Metering {
  import opened Bytes
  import opened Ipfix
  import opened Flows
  import opened FlowCaching
  import opened Sequences

  // Sampling

  /** Every `interval`-th of a sequence, the first included. */
  function Sampled<T>(s: seq<T>, interval: nat): (r: seq<T>)
    requires interval > 0
  {
    if s == [] then []
    else
      var n := |s| - 1;
      Sampled(s[..n], interval) + if n % interval == 0 then [s[n]] else []
  }

  /** n frames sample ceil(n / interval). */
  lemma {:induction false} SampledCount<T>(s: seq<T>, interval: nat)
    requires interval > 0
    ensures |Sampled(s, interval)| == (|s| + interval - 1) / interval
  {
    if s == [] {
      ModUnique(interval - 1, interval, 0, interval - 1);
    } else {
      var n := |s| - 1;
      SampledCount(s[..n], interval);
      CeilingStep(n, interval);
    }
  }

  lemma NextResidue(n: nat, d: nat)
    requires d > 0
    ensures (n + 1) % d == if n % d == d - 1 then 0 else n % d + 1
  {
    var q, r := n / d, n % d;
    assert d * (q + 1) == d * q + d;
    if r == d - 1 {
      ModUnique(n + 1, d, q + 1, 0);
    } else {
      ModUnique(n + 1, d, q, r + 1);
    }
  }

  /** Systematic count-based sampling, by a countdown. */
  class Sampler {
    const interval: nat
    var countdown: nat
    ghost var seen: nat

    ghost predicate Valid()
      reads this
    {
      1 <= countdown <= interval && seen % interval == (if countdown == 1 then 0 else interval + 1 - countdown)
    }

    /** An interval of zero selects everything. */
    constructor (interval: u32)
      ensures Valid() && seen == 0 && this.interval == Max(interval, 1)
    {
      this.interval := Max(interval, 1);
      countdown, seen := 1, 0;
    }

    method Select() returns (selected: bool)
      requires Valid()
      modifies this
      ensures Valid() && seen == old(seen) + 1
      ensures selected <==> old(seen) % interval == 0
    {
      NextResidue(seen, interval);
      if countdown > 1 {
        countdown := countdown - 1;
        selected := false;
      } else {
        countdown := interval;
        selected := true;
      }
      seen := seen + 1;
    }
  }

  // What is metered

  datatype Link = Ethernet | Ip

  datatype Frame = Frame(time: Time, length: u32, data: bytes)

  datatype PacketInfo = PacketInfo(key: FlowKey, size: u64, tcpFlags: bv16)

  datatype PacketData = PacketData(link: Link, length: u32, section: bytes)

  /** How frames are read, and where the exporter's own datagrams go. */
  datatype Setup = Setup(
    link: Link, parse: bytes -> Option<PacketInfo>, localPort: u16, collectorIp: Address, collectorPort: u16)

  datatype Sight = Sight(frame: Frame, instant: nat)

  const UDP: u8 := 17

  predicate IsExport(setup: Setup, p: PacketInfo) {
    && p.key.protocol == UDP && p.key.sourcePort == setup.localPort
    && p.key.destinationIp == setup.collectorIp && p.key.destinationPort == setup.collectorPort
  }

  /** What a sampled frame adds to the flows: nothing when it does not parse or is the exporter's own. */
  function MeteredFlow(setup: Setup, s: Sight): seq<FlowCaching.Packet> {
    match setup.parse(s.frame.data)
    case None => []
    case Some(p) =>
      if IsExport(setup, p) then []
      else [FlowCaching.Packet(p.key, p.size, p.tcpFlags, Seen(s.frame.time, s.instant))]
  }

  /** What a sampled frame adds to the packets: its start, parsed or not, unless it is the exporter's own. */
  function MeteredPacket(setup: Setup, clip: nat, s: Sight): seq<PacketData> {
    var p := setup.parse(s.frame.data);
    if p.Some? && IsExport(setup, p.value) then []
    else [PacketData(setup.link, s.frame.length, s.frame.data[..if |s.frame.data| < clip then |s.frame.data| else clip])]
  }

  function MeteredFlows(setup: Setup, sights: seq<Sight>): seq<FlowCaching.Packet> {
    if sights == [] then []
    else MeteredFlows(setup, sights[..|sights| - 1]) + MeteredFlow(setup, sights[|sights| - 1])
  }

  function MeteredPackets(setup: Setup, clip: nat, sights: seq<Sight>): seq<PacketData> {
    if sights == [] then []
    else MeteredPackets(setup, clip, sights[..|sights| - 1]) + MeteredPacket(setup, clip, sights[|sights| - 1])
  }

  /** A UDP packet from the local port to the collector's address and port. */
  predicate IsOwn(setup: Setup, key: FlowKey) {
    key.protocol == 17 && key.sourcePort == setup.localPort
    && key.destinationIp == setup.collectorIp && key.destinationPort == setup.collectorPort
  }

  /** A frame that gives the packet, seen then. */
  predicate Gives(setup: Setup, s: Sight, p: FlowCaching.Packet) {
    && setup.parse(s.frame.data) == Some(PacketInfo(p.key, p.size, p.tcpFlags))
    && p.seen == Seen(s.frame.time, s.instant)
  }

  /** The packets metered are those of the frames that parse, but for the exporter's own. */
  lemma {:induction false} MeteredAre(setup: Setup, sights: seq<Sight>, p: FlowCaching.Packet)
    ensures p in MeteredFlows(setup, sights) <==>
            !IsOwn(setup, p.key) && exists i :: 0 <= i < |sights| && Gives(setup, sights[i], p)
  {
    if sights != [] {
      var n := |sights| - 1;
      MeteredAre(setup, sights[..n], p);
      assert forall i :: 0 <= i < n ==> sights[..n][i] == sights[i];
      assert p in MeteredFlow(setup, sights[n]) <==> !IsOwn(setup, p.key) && Gives(setup, sights[n], p);
    }
  }

  /** In packet mode a frame is left out only if it parses to the exporter's own; of the rest the start is kept. */
  lemma PacketKept(setup: Setup, clip: nat, s: Sight)
    ensures var parsed, r := setup.parse(s.frame.data), MeteredPacket(setup, clip, s);
            && (r == [] <==> parsed.Some? && IsOwn(setup, parsed.value.key))
            && (r != [] ==> |r| == 1 && r[0].link == setup.link && r[0].length == s.frame.length
                            && r[0].section <= s.frame.data
                            && |r[0].section| == if |s.frame.data| < clip then |s.frame.data| else clip)
  {
  }

  datatype Mode = FlowMode(active: nat, inactive: nat, maxFlows: nat) | PacketMode(clip: nat)

  datatype Output = ToFlows(cache: FlowCache) | ToPackets(clip: nat, pending: seq<PacketData>)

  datatype Records = FlowRecords(flows: seq<Flow>) | PacketRecords(packets: seq<PacketData>)

  /** Handed out at a tick: flows ended to make room, and flows at a timeout. */
  ghost predicate DueFlows(cache: FlowCache, records: Records, now: nat)
  {
    records.FlowRecords? && DueAt(records.flows, cache.activeTimeout, cache.inactiveTimeout, now)
  }

  ghost predicate DueAt(flows: seq<Flow>, active: nat, inactive: nat, now: nat) {
    forall i :: 0 <= i < |flows| ==> flows[i].endReason == Some(LackOfResources) || TimedOut(flows[i], active, inactive, now)
  }

  /** Handed out at shutdown. */
  ghost predicate LastFlows(records: Records) {
    records.FlowRecords? && forall i :: 0 <= i < |records.flows| ==>
      records.flows[i].endReason == Some(LackOfResources) || records.flows[i].endReason == Some(ForcedEnd)
  }

  ghost predicate AllInTime(cache: FlowCache, records: Records, ticks: seq<nat>) {
    records.FlowRecords? && InTimeFor(records.flows, ticks, cache.activeTimeout, cache.inactiveTimeout)
  }

  ghost predicate InTimeFor(flows: seq<Flow>, ticks: seq<nat>, active: nat, inactive: nat) {
    forall i :: 0 <= i < |flows| ==> Timely(flows[i], ticks, active, inactive)
  }

  class Meter {
    const setup: Setup
    const sampler: Sampler
    var output: Output

    // Every frame seen, and every packet handed out.
    ghost var sights: seq<Sight>
    ghost var handed: seq<PacketData>

    ghost function Repr(): set<object>
      reads this
    {
      {this, sampler} + if output.ToFlows? then {output.cache} else {}
    }

    ghost predicate Valid()
      reads this, Repr()
    {
      && sampler.Valid() && sampler.seen == |sights|
      && match output
         case ToFlows(cache) =>
           cache.Valid() && cache.offered == MeteredFlows(setup, Sampled(sights, sampler.interval))
         case ToPackets(clip, pending) =>
           handed + pending == MeteredPackets(setup, clip, Sampled(sights, sampler.interval))
    }

    constructor (setup: Setup, mode: Mode, interval: u32)
      requires mode.FlowMode? ==> 1 <= mode.maxFlows
      ensures Valid() && fresh(Repr()) && sights == [] && handed == []
      ensures this.setup == setup && sampler.interval == Max(interval, 1)
      ensures mode.FlowMode? <==> output.ToFlows?
      ensures mode.FlowMode? ==> output.cache.exported == []
      ensures mode.PacketMode? ==> output.clip == mode.clip
      ensures mode.FlowMode? ==> HasTimeouts(mode.active, mode.inactive)
      ensures OnTime([])
    {
      this.setup, sights, handed := setup, [], [];
      sampler := new Sampler(interval);
      match mode {
        case FlowMode(active, inactive, maxFlows) =>
          var cache := new FlowCache(active, inactive, maxFlows);
          output := ToFlows(cache);
        case PacketMode(clip) =>
          output := ToPackets(clip, []);
      }
    }

    /** No flow was left past a timeout by a tick. */
    ghost predicate OnTime(ticks: seq<nat>)
      reads this, Repr()
    {
      output.ToFlows? ==> output.cache.OnTime(ticks)
    }

    /** The cache of a mode has its timeouts. */
    ghost predicate HasTimeouts(active: nat, inactive: nat)
      reads this
    {
      output.ToFlows? ==> output.cache.activeTimeout == active && output.cache.inactiveTimeout == inactive
    }

    method Observe(frame: Frame, instant: nat, ghost ticks: seq<nat>)
      requires Valid()
      modifies Repr()
      ensures old(OnTime(ticks)) && (forall i :: 0 <= i < |ticks| ==> ticks[i] <= instant) ==> OnTime(ticks)
      ensures output.ToFlows? ==> output == old(output)
      ensures Valid() && sights == old(sights) + [Sight(frame, instant)] && handed == old(handed)
      ensures Repr() == old(Repr()) && (output.ToFlows? ==> output.cache.exported == old(output.cache.exported))
      ensures old(output).ToFlows? <==> output.ToFlows?
      ensures output.ToPackets? ==> output.clip == old(output.clip)
    {
      hide MeteredFlows, MeteredPackets, Sampled, FlowCache.Valid, FlowCache.OnTime, IsExport;
      ghost var sight := Sight(frame, instant);
      SampledStep(sights, sight, sampler.interval);
      MeteredStep(setup, if output.ToPackets? then output.clip else 0, Sampled(sights, sampler.interval), sight);
      var selected := sampler.Select();
      sights := sights + [sight];
      if selected {
        var packet := setup.parse(frame.data);
        if packet.None? || !IsExport(setup, packet.value) {
          Count(frame, instant, packet, ticks);
          if output.ToPackets? {
            assert handed + output.pending
                == handed + old(output.pending) + MeteredPacket(setup, output.clip, sight);
          }
        }
      }
    }

    method Count(frame: Frame, instant: nat, packet: Option<PacketInfo>, ghost ticks: seq<nat>)
      requires setup.parse(frame.data) == packet && (packet.Some? ==> !IsExport(setup, packet.value))
      requires output.ToFlows? ==> output.cache.Valid()
      modifies this`output, if output.ToFlows? then {output.cache} else {}
      ensures old(output).ToFlows? && old(output.cache.OnTime(ticks)) && (forall i :: 0 <= i < |ticks| ==> ticks[i] <= instant)
              ==> output.ToFlows? && output.cache.OnTime(ticks)
      ensures match output
              case ToFlows(cache) =>
                && old(output) == output && cache.Valid() && cache.exported == old(cache.exported)
                && cache.offered == old(cache.offered) + MeteredFlow(setup, Sight(frame, instant))
              case ToPackets(clip, pending) =>
                && old(output).ToPackets? && clip == old(output.clip)
                && pending == old(output.pending) + MeteredPacket(setup, clip, Sight(frame, instant))
    {
      hide FlowCache.Valid, FlowCache.OnTime, IsExport;
      match output {
        case ToFlows(cache) =>
          if packet.Some? {
            var p := packet.value;
            cache.UpdateFlow(FlowCaching.Packet(p.key, p.size, p.tcpFlags, Seen(frame.time, instant)), ticks);
          }
        case ToPackets(clip, pending) =>
          var section := frame.data[..if |frame.data| < clip then |frame.data| else clip];
          output := ToPackets(clip, pending + [PacketData(setup.link, frame.length, section)]);
      }
    }

    method TakeDue(now: nat, ghost ticks: seq<nat>) returns (records: Records)
      requires Valid()
      modifies Repr()
      ensures Valid() && Repr() == old(Repr()) && sights == old(sights)
      ensures Handed(records)
      ensures output.ToFlows? ==> output == old(output) && output.cache.evicted == [] && DueFlows(output.cache, records, now)
      ensures output.ToFlows? ==> forall k :: k in output.cache.flows ==>
        && !Aged(output.cache.flows[k].firstSeen, output.cache.activeTimeout, now)
        && !Aged(output.cache.flows[k].lastSeen, output.cache.inactiveTimeout, now)
      ensures output.ToPackets? ==> output == ToPackets(old(output).clip, []) && records == PacketRecords(old(output).pending)
      ensures old(OnTime(ticks)) ==> OnTime(ticks + [now]) && (output.ToFlows? ==> AllInTime(output.cache, records, ticks))
    {
      hide FlowCache.OnTime, FlowCache.Valid, Timely, Aged, MeteredFlows, MeteredPackets, Sampled;
      match output {
        case ToFlows(cache) =>
          var flows := cache.CheckExpiredFlows(now, ticks);
          records := FlowRecords(flows);
        case ToPackets(clip, pending) =>
          records := PacketRecords(pending);
          handed := handed + pending;
          output := ToPackets(clip, []);
      }
    }

    method TakeAll(ghost ticks: seq<nat>) returns (records: Records)
      requires Valid()
      modifies Repr()
      ensures output.ToFlows? ==> output == old(output) && LastFlows(records)
      ensures old(OnTime(ticks)) && output.ToFlows? ==> AllInTime(output.cache, records, ticks)
      ensures Valid() && Repr() == old(Repr()) && sights == old(sights)
      ensures Handed(records)
      ensures output.ToFlows? ==> output.cache.flows == map[] && output.cache.evicted == []
      ensures output.ToFlows? ==>
        && AllCome(output.cache.exported, output.cache.offered)
        && forall k :: FlowTotal(output.cache.exported, k) == PacketTotal(output.cache.offered, k)
      ensures output.ToFlows? ==> output.cache.offered == MeteredFlows(setup, Sampled(sights, sampler.interval))
      ensures output.ToPackets? ==>
        output.pending == [] && handed == MeteredPackets(setup, output.clip, Sampled(sights, sampler.interval))
    {
      hide FlowCache.OnTime, Timely;
      match output {
        case ToFlows(cache) =>
          var flows := cache.ExportAll(ticks);
          records := FlowRecords(flows);
        case ToPackets(clip, pending) =>
          records := PacketRecords(pending);
          handed := handed + pending;
          output := ToPackets(clip, []);
      }
    }

    /** The records are what was just added to what has been handed out. */
    twostate predicate Handed(records: Records)
      reads this, Repr()
    {
      && (old(output).ToFlows? <==> output.ToFlows?) && (records.FlowRecords? <==> output.ToFlows?)
      && (output.ToFlows? ==> output.cache == old(output.cache)
                              && output.cache.exported == old(output.cache.exported) + records.flows)
      && (output.ToPackets? ==> output.clip == old(output.clip) && handed == old(handed) + records.packets)
    }
  }

  lemma SampledStep<T>(s: seq<T>, x: T, interval: nat)
    requires interval > 0
    ensures Sampled(s + [x], interval) == if |s| % interval == 0 then Sampled(s, interval) + [x] else Sampled(s, interval)
  {
    assert (s + [x])[..|s|] == s;
  }

  lemma MeteredStep(setup: Setup, clip: nat, s: seq<Sight>, x: Sight)
    ensures MeteredFlows(setup, s + [x]) == MeteredFlows(setup, s) + MeteredFlow(setup, x)
    ensures MeteredPackets(setup, clip, s + [x]) == MeteredPackets(setup, clip, s) + MeteredPacket(setup, clip, x)
    ensures MeteredFlow(setup, x) == [] ==> MeteredFlows(setup, s + [x]) == MeteredFlows(setup, s)
    ensures MeteredPacket(setup, clip, x) == [] ==> MeteredPackets(setup, clip, s + [x]) == MeteredPackets(setup, clip, s)
  {
    assert (s + [x])[..|s|] == s;
  }

  // Runs

  datatype Event = Captured(frame: Frame, instant: nat) | Tick(now: nat)

  function TimeOf(e: Event): nat {
    match e
    case Captured(_, instant) => instant
    case Tick(now) => now
  }

  function Ticks(events: seq<Event>): seq<nat> {
    if events == [] then []
    else
      var last := events[|events| - 1];
      Ticks(events[..|events| - 1]) + if last.Tick? then [last.now] else []
  }

  /** The monotonic clock. */
  predicate Forward(events: seq<Event>) {
    forall i, j :: 0 <= i < j < |events| ==> TimeOf(events[i]) <= TimeOf(events[j])
  }

  lemma {:induction false} TicksBefore(events: seq<Event>, t: nat)
    requires forall i :: 0 <= i < |events| ==> TimeOf(events[i]) <= t
    ensures forall i :: 0 <= i < |Ticks(events)| ==> Ticks(events)[i] <= t
  {
    if events != [] {
      TicksBefore(events[..|events| - 1], t);
    }
  }

  /** Each tick hands out flows that are due or made room, and none that an earlier tick should have. */
  ghost predicate TickedRight(records: seq<Records>, ticks: seq<nat>, active: nat, inactive: nat, forward: bool)
  {
    && |records| == |ticks|
    && forall j :: 0 <= j < |records| ==>
         && records[j].FlowRecords? && DueAt(records[j].flows, active, inactive, ticks[j])
         && (forward ==> InTimeFor(records[j].flows, ticks[..j], active, inactive))
  }

  lemma NoTicks(active: nat, inactive: nat, forward: bool)
    ensures TickedRight([], [], active, inactive, forward)
  {
  }

  lemma TickedMore(records: seq<Records>, ticks: seq<nat>, active: nat, inactive: nat, forward: bool, r: Records, now: nat)
    requires TickedRight(records, ticks, active, inactive, forward)
    requires r.FlowRecords? && DueAt(r.flows, active, inactive, now)
    requires forward ==> InTimeFor(r.flows, ticks, active, inactive)
    ensures TickedRight(records + [r], ticks + [now], active, inactive, forward)
  {
    hide DueAt, InTimeFor;
    var rs, ts := records + [r], ticks + [now];
    forall j | 0 <= j < |rs|
      ensures rs[j].FlowRecords? && DueAt(rs[j].flows, active, inactive, ts[j])
      ensures forward ==> InTimeFor(rs[j].flows, ts[..j], active, inactive)
    {
      if j < |records| {
        assert ts[..j] == ticks[..j];
      } else {
        assert ts[..j] == ticks;
      }
    }
  }

  function Captures(events: seq<Event>): seq<Sight> {
    if events == [] then []
    else
      var last := events[|events| - 1];
      Captures(events[..|events| - 1]) + if last.Captured? then [Sight(last.frame, last.instant)] else []
  }

  function FlowsOf(rs: seq<Records>): seq<Flow> {
    if rs == [] then []
    else FlowsOf(rs[..|rs| - 1]) + if rs[|rs| - 1].FlowRecords? then rs[|rs| - 1].flows else []
  }

  function PacketsOf(rs: seq<Records>): seq<PacketData> {
    if rs == [] then []
    else PacketsOf(rs[..|rs| - 1]) + if rs[|rs| - 1].PacketRecords? then rs[|rs| - 1].packets else []
  }

  lemma EventStep(events: seq<Event>, i: nat)
    requires i < |events|
    ensures match events[i]
            case Captured(frame, instant) =>
              && Captures(events[..i + 1]) == Captures(events[..i]) + [Sight(frame, instant)]
              && Ticks(events[..i + 1]) == Ticks(events[..i])
            case Tick(now) =>
              && Captures(events[..i + 1]) == Captures(events[..i])
              && Ticks(events[..i + 1]) == Ticks(events[..i]) + [now]
    ensures Forward(events) ==> forall j :: 0 <= j < |Ticks(events[..i])| ==> Ticks(events[..i])[j] <= TimeOf(events[i])
  {
    assert events[..i + 1][..i] == events[..i];
    if Forward(events) {
      TicksBefore(events[..i], TimeOf(events[i]));
    }
  }

  lemma RecordsStep(records: seq<Records>, r: Records)
    ensures FlowsOf(records + [r]) == FlowsOf(records) + if r.FlowRecords? then r.flows else []
    ensures PacketsOf(records + [r]) == PacketsOf(records) + if r.PacketRecords? then r.packets else []
  {
    assert (records + [r])[..|records|] == records;
  }

  lemma NoEvents(events: seq<Event>)
    ensures Captures(events[..0]) == [] && Ticks(events[..0]) == [] && FlowsOf([]) == [] && PacketsOf([]) == []
  {
  }

  /** Over any run of captures and timer ticks, shut down at its end, every sampled packet that parses and is not the
      exporter's own is accounted for in the exported flows, and no other; or, in packet mode, exported once, in order. */
  method Run(setup: Setup, mode: Mode, interval: u32, events: seq<Event>) returns (records: seq<Records>)
    requires mode.FlowMode? ==> 1 <= mode.maxFlows
    ensures mode.FlowMode? ==> forall k :: FlowTotal(FlowsOf(records), k)
                                        == PacketTotal(MeteredFlows(setup, Sampled(Captures(events), Max(interval, 1))), k)
    ensures mode.FlowMode? ==>
      AllCome(FlowsOf(records), MeteredFlows(setup, Sampled(Captures(events), Max(interval, 1))))
    ensures mode.PacketMode? ==>
      PacketsOf(records) == MeteredPackets(setup, mode.clip, Sampled(Captures(events), Max(interval, 1)))
    ensures forall i :: 0 <= i < |records| ==> (records[i].FlowRecords? <==> mode.FlowMode?)
    ensures |records| == |Ticks(events)| + 1
    ensures mode.FlowMode? ==>
      && TickedRight(records[..|records| - 1], Ticks(events), mode.active, mode.inactive, Forward(events))
      && LastFlows(records[|records| - 1])
      && (Forward(events) ==> InTimeFor(records[|records| - 1].flows, Ticks(events), mode.active, mode.inactive))
  {
    hide AllCome, FlowTotal, PacketTotal, MeteredFlows, MeteredPackets, Sampled, TickedRight, DueAt, InTimeFor, LastFlows;
    hide Captures, Ticks, FlowsOf, PacketsOf, Forward, Meter.Valid, Meter.OnTime, FlowCache.Valid;
    var meter := new Meter(setup, mode, interval);
    records := [];
    NoEvents(events);
    if mode.FlowMode? {
      NoTicks(mode.active, mode.inactive, Forward(events));
    }
    for i := 0 to |events|
      invariant meter.Valid() && fresh(meter.Repr()) && meter.setup == setup
      invariant meter.sampler.interval == Max(interval, 1) && meter.sights == Captures(events[..i])
      invariant mode.FlowMode? <==> meter.output.ToFlows?
      invariant mode.PacketMode? ==> meter.output.clip == mode.clip && meter.handed == PacketsOf(records)
      invariant mode.FlowMode? ==> meter.output.cache.exported == FlowsOf(records)
      invariant forall j :: 0 <= j < |records| ==> (records[j].FlowRecords? <==> mode.FlowMode?)
      invariant |records| == |Ticks(events[..i])| && (Forward(events) ==> meter.OnTime(Ticks(events[..i])))
      invariant mode.FlowMode? ==> meter.HasTimeouts(mode.active, mode.inactive)
      invariant mode.FlowMode? ==> TickedRight(records, Ticks(events[..i]), mode.active, mode.inactive, Forward(events))
    {
      ghost var ticks := Ticks(events[..i]);
      EventStep(events, i);
      match events[i] {
        case Captured(frame, instant) =>
          meter.Observe(frame, instant, ticks);
        case Tick(now) =>
          var due := meter.TakeDue(now, ticks);
          if mode.FlowMode? {
            TickedMore(records, ticks, mode.active, mode.inactive, Forward(events), due, now);
          }
          RecordsStep(records, due);
          records := records + [due];
      }
    }
    assert events[..|events|] == events;
    var last := meter.TakeAll(Ticks(events));
    RecordsStep(records, last);
    ghost var before := records;
    records := records + [last];
    assert records[..|records| - 1] == before && records[|records| - 1] == last;
  }
}
