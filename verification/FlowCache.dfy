/** The flow cache: timeouts, eviction, and the accounting they conserve. */
module FlowCaching {
  import opened Bytes
  import opened Flows
  import opened Selection
  import opened Sequences

  const EVICTION_FRACTION: nat := 8

  /** A metered packet. */
  datatype Packet = Packet(key: FlowKey, size: u64, tcpFlags: bv16, seen: Seen)

  // Accounts: packets and octets modulo 2^64, and the union of the TCP flags

  datatype Account = Account(packets: u64, octets: u64, tcpFlags: bv16)

  const NOTHING: Account := Account(0, 0, 0)

  function Union(a: bv16, b: bv16): bv16 {
    a | b
  }

  function Plus(a: Account, b: Account): Account {
    Account(WrappingAdd(a.packets, b.packets), WrappingAdd(a.octets, b.octets), Union(a.tcpFlags, b.tcpFlags))
  }

  lemma AddLaws(a: u64, b: u64, c: u64)
    ensures WrappingAdd(a, b) == WrappingAdd(b, a) && WrappingAdd(a, 0) == a
    ensures WrappingAdd(a, WrappingAdd(b, c)) == WrappingAdd(WrappingAdd(a, b), c)
  {
  }

  lemma UnionLaws(a: bv16, b: bv16, c: bv16)
    ensures Union(a, b) == Union(b, a) && Union(a, 0) == a
    ensures Union(a, Union(b, c)) == Union(Union(a, b), c)
  {
  }

  lemma PlusLaws(a: Account, b: Account, c: Account)
    ensures Plus(a, b) == Plus(b, a) && Plus(a, NOTHING) == a && Plus(NOTHING, a) == a
    ensures Plus(a, Plus(b, c)) == Plus(Plus(a, b), c)
  {
    hide WrappingAdd, Union;
    AddLaws(a.packets, b.packets, c.packets);
    AddLaws(a.octets, b.octets, c.octets);
    UnionLaws(a.tcpFlags, b.tcpFlags, c.tcpFlags);
    AddLaws(a.packets, 0, 0);
    AddLaws(a.octets, 0, 0);
    UnionLaws(a.tcpFlags, 0, 0);
  }

  function FlowAccount(f: Flow): Account {
    Account(f.packetCount, f.octetCount, f.tcpFlags)
  }

  /** What the flows of a key add up to. */
  function FlowTotal(fs: seq<Flow>, key: FlowKey): Account {
    if fs == [] then NOTHING
    else
      var last := fs[|fs| - 1];
      Plus(FlowTotal(fs[..|fs| - 1], key), if last.key == key then FlowAccount(last) else NOTHING)
  }

  /** What the packets of a key add up to. */
  function PacketTotal(ps: seq<Packet>, key: FlowKey): Account {
    if ps == [] then NOTHING
    else
      var last := ps[|ps| - 1];
      Plus(PacketTotal(ps[..|ps| - 1], key), if last.key == key then Account(1, last.size, last.tcpFlags) else NOTHING)
  }

  lemma {:induction false} FlowTotalConcat(a: seq<Flow>, b: seq<Flow>, key: FlowKey)
    ensures FlowTotal(a + b, key) == Plus(FlowTotal(a, key), FlowTotal(b, key))
  {
    hide Plus;
    if b == [] {
      assert a + b == a;
      PlusLaws(FlowTotal(a, key), NOTHING, NOTHING);
    } else {
      var before, last := b[..|b| - 1], b[|b| - 1];
      var one := if last.key == key then FlowAccount(last) else NOTHING;
      FlowTotalConcat(a, before, key);
      assert (a + b)[..|a + b| - 1] == a + before;
      PlusLaws(FlowTotal(a, key), FlowTotal(before, key), one);
    }
  }

  lemma FlowTotalOne(f: Flow, key: FlowKey)
    ensures FlowTotal([f], key) == if f.key == key then FlowAccount(f) else NOTHING
  {
    assert [f][..0] == [];
    PlusLaws(FlowAccount(f), NOTHING, NOTHING);
  }

  /** What the cache holds of a key. */
  function Cached(flows: map<FlowKey, Flow>, key: FlowKey): Account {
    if key in flows then FlowAccount(flows[key]) else NOTHING
  }

  // Ending flows

  /** The ended flows, each once, in some order. */
  ghost predicate Ends(fs: seq<Flow>, flows: map<FlowKey, Flow>, reasons: map<FlowKey, EndReason>)
    requires reasons.Keys <= flows.Keys
  {
    && |fs| == |reasons|
    && (forall i :: 0 <= i < |fs| ==> exists k :: k in reasons && fs[i] == Ended(flows[k], reasons[k]))
    && (forall k :: k in reasons ==> Ended(flows[k], reasons[k]) in fs)
  }

  ghost predicate Keyed(flows: map<FlowKey, Flow>) {
    forall k :: k in flows ==> flows[k].key == k
  }

  lemma NonemptyMap<V>(m: map<FlowKey, V>)
    ensures m.Keys == {} || exists k :: k in m
  {
    if forall k :: k !in m {
      assert m.Keys == {};
    }
  }

  /** Each flow with a reason is ended, but for the rest. */
  ghost predicate EndedBut(
    ended: seq<Flow>, flows: map<FlowKey, Flow>, reasons: map<FlowKey, EndReason>, rest: map<FlowKey, EndReason>)
    requires reasons.Keys <= flows.Keys
  {
    && rest.Keys <= reasons.Keys && (forall k :: k in rest ==> rest[k] == reasons[k])
    && |ended| == |reasons| - |rest|
    && (forall i :: 0 <= i < |ended| ==> exists k :: k in reasons && ended[i] == Ended(flows[k], reasons[k]))
    && (forall k :: k in reasons && k !in rest ==> Ended(flows[k], reasons[k]) in ended)
  }

  ghost predicate TotalBut(
    ended: seq<Flow>, flows: map<FlowKey, Flow>, reasons: map<FlowKey, EndReason>, rest: map<FlowKey, EndReason>)
    requires reasons.Keys <= flows.Keys
  {
    forall k :: FlowTotal(ended, k) == if k in reasons && k !in rest then FlowAccount(flows[k]) else NOTHING
  }

  lemma EndNext(
    ended: seq<Flow>, flows: map<FlowKey, Flow>, reasons: map<FlowKey, EndReason>, rest: map<FlowKey, EndReason>,
    key: FlowKey)
    requires reasons.Keys <= flows.Keys && EndedBut(ended, flows, reasons, rest) && key in rest
    ensures EndedBut(ended + [Ended(flows[key], rest[key])], flows, reasons, rest - {key})
  {
    hide Ended;
    assert |rest - {key}| == |rest| - 1;
  }

  lemma TotalNext(
    ended: seq<Flow>, flows: map<FlowKey, Flow>, reasons: map<FlowKey, EndReason>, rest: map<FlowKey, EndReason>,
    key: FlowKey)
    requires reasons.Keys <= flows.Keys && TotalBut(ended, flows, reasons, rest) && key in rest
    requires Keyed(flows) && rest.Keys <= reasons.Keys
    ensures TotalBut(ended + [Ended(flows[key], rest[key])], flows, reasons, rest - {key})
  {
    hide Plus, FlowTotal;
    var flow := Ended(flows[key], rest[key]);
    forall k
      ensures FlowTotal(ended + [flow], k)
           == if k in reasons && (k !in rest || k == key) then FlowAccount(flows[k]) else NOTHING
    {
      FlowTotalConcat(ended, [flow], k);
      FlowTotalOne(flow, k);
      PlusLaws(FlowTotal(ended, k), NOTHING, NOTHING);
      PlusLaws(FlowAccount(flow), NOTHING, NOTHING);
    }
  }

  method EndFlows(flows: map<FlowKey, Flow>, reasons: map<FlowKey, EndReason>) returns (ended: seq<Flow>)
    requires reasons.Keys <= flows.Keys && Keyed(flows)
    ensures Ends(ended, flows, reasons)
    ensures forall k :: FlowTotal(ended, k) == if k in reasons then FlowAccount(flows[k]) else NOTHING
  {
    hide FlowTotal;
    ended := [];
    var rest := reasons;
    TotalOfNone();
    while rest.Keys != {}
      invariant EndedBut(ended, flows, reasons, rest) && TotalBut(ended, flows, reasons, rest)
      decreases |rest|
    {
      NonemptyMap(rest);
      var key :| key in rest;
      EndNext(ended, flows, reasons, rest, key);
      TotalNext(ended, flows, reasons, rest, key);
      ended := ended + [Ended(flows[key], rest[key])];
      rest := rest - {key};
    }
  }

  lemma TotalOfNone()
    ensures forall k :: FlowTotal([], k) == NOTHING
  {
  }

  // Eviction

  /** The flows not seen since `c`. */
  ghost function SeenBy(flows: map<FlowKey, Flow>, c: nat): set<FlowKey> {
    set k | k in flows && flows[k].lastSeen <= c
  }

  /** No two flows were last seen at once. */
  ghost predicate SeenApart(flows: map<FlowKey, Flow>) {
    forall j, k :: j in flows && k in flows && j != k ==> flows[j].lastSeen != flows[k].lastSeen
  }

  /** The last-seen times of the flows, in some order. */
  ghost predicate Times(times: seq<nat>, flows: map<FlowKey, Flow>) {
    && |times| == |flows|
    && (forall c :: CountAtMost(times, c) == |SeenBy(flows, c)|)
    && (forall t :: t in times ==> exists k :: k in flows && flows[k].lastSeen == t)
    && (SeenApart(flows) ==> Distinct(times))
  }

  lemma TimesStep(times: seq<nat>, flows: map<FlowKey, Flow>, key: FlowKey, flow: Flow)
    requires Times(times, flows) && key !in flows
    ensures Times(times + [flow.lastSeen], flows[key := flow])
  {
    var more, t := flows[key := flow], flow.lastSeen;
    forall c
      ensures CountAtMost(times + [t], c) == |SeenBy(more, c)|
    {
      CountConcat(times, [t], c);
      assert [t][1..] == [];
      assert SeenBy(more, c) == SeenBy(flows, c) + if t <= c then {key} else {};
    }
    forall u | u in times + [t]
      ensures exists k :: k in more && more[k].lastSeen == u
    {
      if u in times {
        var k :| k in flows && flows[k].lastSeen == u;
        assert more[k].lastSeen == u;
      } else {
        assert more[key].lastSeen == u;
      }
    }
    if SeenApart(more) {
      TimesApart(times, flows, key, flow);
    }
  }

  lemma TimesApart(times: seq<nat>, flows: map<FlowKey, Flow>, key: FlowKey, flow: Flow)
    requires Times(times, flows) && key !in flows && SeenApart(flows[key := flow])
    ensures Distinct(times + [flow.lastSeen])
  {
    var more := flows[key := flow];
    forall j, k | j in flows && k in flows && j != k
      ensures flows[j].lastSeen != flows[k].lastSeen
    {
      assert more[j].lastSeen != more[k].lastSeen;
    }
    forall i | 0 <= i < |times|
      ensures times[i] != flow.lastSeen
    {
      assert times[i] in times;
      var k :| k in flows && flows[k].lastSeen == times[i];
      assert more[k].lastSeen != more[key].lastSeen;
    }
  }

  /** The times of all flows but the rest. */
  ghost predicate TimesBut(times: seq<nat>, flows: map<FlowKey, Flow>, rest: map<FlowKey, Flow>) {
    && rest.Keys <= flows.Keys && (forall k :: k in rest ==> rest[k] == flows[k])
    && Times(times, flows - rest.Keys)
  }

  lemma TimesNext(times: seq<nat>, flows: map<FlowKey, Flow>, rest: map<FlowKey, Flow>, key: FlowKey)
    requires TimesBut(times, flows, rest) && key in rest
    ensures TimesBut(times + [rest[key].lastSeen], flows, rest - {key})
  {
    hide Times;
    TimesStep(times, flows - rest.Keys, key, rest[key]);
    assert (flows - rest.Keys)[key := rest[key]] == flows - (rest - {key}).Keys;
  }

  method LastSeenTimes(flows: map<FlowKey, Flow>) returns (times: seq<nat>)
    ensures Times(times, flows)
  {
    hide Times;
    times := [];
    var rest := flows;
    NoTimes();
    assert flows - flows.Keys == map[];
    while rest.Keys != {}
      invariant TimesBut(times, flows, rest)
      decreases |rest|
    {
      NonemptyMap(rest);
      var key :| key in rest;
      TimesNext(times, flows, rest, key);
      times := times + [rest[key].lastSeen];
      rest := rest - {key};
    }
    assert flows - {} == flows;
  }

  lemma NoTimes()
    ensures Times([], map[])
  {
    assert forall c :: SeenBy(map[], c) == {};
  }

  /** The flows not seen after the cutoff number at least `count`, and just so many when seen apart. */
  method Cutoff(flows: map<FlowKey, Flow>, count: nat) returns (cutoff: nat)
    requires 0 < count <= |flows|
    ensures |SeenBy(flows, cutoff)| >= count
    ensures SeenApart(flows) ==> |SeenBy(flows, cutoff)| == count
  {
    var times := LastSeenTimes(flows);
    cutoff := NthSmallest(times, count - 1);
  }

  /** How many flows make room. */
  function BatchSize(maxFlows: nat): nat {
    Max(maxFlows / EVICTION_FRACTION, 1)
  }

  /** An eighth of the cache, at least one. */
  lemma BatchIs(maxFlows: nat)
    ensures var n := BatchSize(maxFlows);
            n >= 1 && (maxFlows >= 8 ==> 8 * n <= maxFlows < 8 * n + 8) && (maxFlows < 8 ==> n == 1)
  {
  }

  function All(keys: set<FlowKey>, reason: EndReason): map<FlowKey, EndReason> {
    map k | k in keys :: reason
  }

  /** A batch of flows made room: those idle longest, and no more than the batch when all were seen apart. */
  ghost predicate Evicts(before: map<FlowKey, Flow>, after: map<FlowKey, Flow>, ended: seq<Flow>, batch: nat) {
    && after.Keys <= before.Keys && (forall k :: k in after ==> after[k] == before[k])
    && Ends(ended, before, All(before.Keys - after.Keys, LackOfResources))
    && (forall j, k :: j in before && j !in after && k in after ==> before[j].lastSeen < before[k].lastSeen)
    && |before.Keys - after.Keys| >= batch
    && (SeenApart(before) ==> |before.Keys - after.Keys| == batch)
  }

  lemma IdleEvicted(flows: map<FlowKey, Flow>, cutoff: nat, ended: seq<Flow>, batch: nat)
    requires |SeenBy(flows, cutoff)| >= batch && (SeenApart(flows) ==> |SeenBy(flows, cutoff)| == batch)
    requires Ends(ended, flows, All(SeenBy(flows, cutoff), LackOfResources))
    ensures Evicts(flows, flows - SeenBy(flows, cutoff), ended, batch)
    ensures |flows - SeenBy(flows, cutoff)| == |flows| - |SeenBy(flows, cutoff)|
  {
    hide Ends;
    var kept, gone := flows - SeenBy(flows, cutoff), SeenBy(flows, cutoff);
    assert flows.Keys - kept.Keys == gone;
    assert kept.Keys == flows.Keys - gone;
  }

  // Expiry

  function SaturatingSince(now: nat, then_: nat): nat {
    if now < then_ then 0 else now - then_
  }

  function ExpiryReason(f: Flow, active: nat, inactive: nat, now: nat): Option<EndReason> {
    if SaturatingSince(now, f.firstSeen) >= active then Some(ActiveTimeout)
    else if SaturatingSince(now, f.lastSeen) >= inactive then Some(IdleTimeout)
    else None
  }

  function Expired(flows: map<FlowKey, Flow>, active: nat, inactive: nat, now: nat): map<FlowKey, EndReason> {
    map k | k in flows && ExpiryReason(flows[k], active, inactive, now).Some?
      :: ExpiryReason(flows[k], active, inactive, now).value
  }

  /** A timeout or more has passed since. */
  predicate Aged(since: nat, timeout: nat, now: nat) {
    now - since >= timeout || timeout == 0
  }

  /** A flow handed out at a timeout says which: the active one, or, only if that has not passed, the idle one. */
  ghost predicate TimedOut(f: Flow, active: nat, inactive: nat, now: nat) {
    && (f.endReason == Some(ActiveTimeout) <==> Aged(f.firstSeen, active, now))
    && (f.endReason == Some(IdleTimeout) <==> !Aged(f.firstSeen, active, now) && Aged(f.lastSeen, inactive, now))
    && (f.endReason == Some(ActiveTimeout) || f.endReason == Some(IdleTimeout))
  }

  /** At every check since it was last seen, no timeout had passed. */
  ghost predicate Timely(f: Flow, checks: seq<nat>, active: nat, inactive: nat) {
    forall i :: 0 <= i < |checks| && f.lastSeen < checks[i] ==>
      !Aged(f.firstSeen, active, checks[i]) && !Aged(f.lastSeen, inactive, checks[i])
  }

  ghost predicate AllTimely(flows: map<FlowKey, Flow>, checks: seq<nat>, active: nat, inactive: nat) {
    forall k :: k in flows ==> Timely(flows[k], checks, active, inactive)
  }

  lemma CountedTimely(flows: map<FlowKey, Flow>, p: Packet, checks: seq<nat>, active: nat, inactive: nat)
    requires AllTimely(flows, checks, active, inactive) && forall i :: 0 <= i < |checks| ==> checks[i] <= p.seen.instant
    ensures AllTimely(Counted(flows, p), checks, active, inactive)
  {
  }

  lemma EndedTimely(
    flows: map<FlowKey, Flow>, ended: seq<Flow>, reasons: map<FlowKey, EndReason>, checks: seq<nat>,
    active: nat, inactive: nat)
    requires reasons.Keys <= flows.Keys && Ends(ended, flows, reasons) && AllTimely(flows, checks, active, inactive)
    ensures forall i :: 0 <= i < |ended| ==> Timely(ended[i], checks, active, inactive)
  {
    hide Aged;
    forall i | 0 <= i < |ended|
      ensures Timely(ended[i], checks, active, inactive)
    {
      var k :| k in reasons && ended[i] == Ended(flows[k], reasons[k]);
      assert Timely(flows[k], checks, active, inactive);
    }
  }

  lemma EndedAll(flows: map<FlowKey, Flow>, ended: seq<Flow>, keys: set<FlowKey>, reason: EndReason)
    requires keys <= flows.Keys && Ends(ended, flows, All(keys, reason))
    ensures forall i :: 0 <= i < |ended| ==> ended[i].endReason == Some(reason)
  {
  }

  /** A check leaves no flow past a timeout. */
  lemma CheckedTimely(
    flows: map<FlowKey, Flow>, kept: map<FlowKey, Flow>, checks: seq<nat>, now: nat, active: nat, inactive: nat)
    requires AllTimely(flows, checks, active, inactive)
    requires forall k :: k in kept ==>
      && k in flows && kept[k] == flows[k]
      && !Aged(flows[k].firstSeen, active, now) && !Aged(flows[k].lastSeen, inactive, now)
    ensures AllTimely(kept, checks + [now], active, inactive)
  {
    hide Aged;
    forall k | k in kept
      ensures Timely(kept[k], checks + [now], active, inactive)
    {
      assert Timely(flows[k], checks, active, inactive);
    }
  }

  lemma EndedTimedOut(
    kept: map<FlowKey, Flow>, flows: map<FlowKey, Flow>, ended: seq<Flow>, active: nat, inactive: nat, now: nat)
    requires Ends(ended, flows, Expired(flows, active, inactive, now))
    requires kept == flows - Expired(flows, active, inactive, now).Keys
    ensures forall i :: 0 <= i < |ended| ==> TimedOut(ended[i], active, inactive, now)
    ensures forall k :: k in flows ==>
      (k in kept <==> !Aged(flows[k].firstSeen, active, now) && !Aged(flows[k].lastSeen, inactive, now))
  {
  }

  // Accounting

  /** Per key, what has left and what is cached add up to what came in. */
  ghost predicate Balanced(left: seq<Flow>, flows: map<FlowKey, Flow>, offered: seq<Packet>) {
    forall k :: Plus(FlowTotal(left, k), Cached(flows, k)) == PacketTotal(offered, k)
  }

  lemma EndingBalances(
    left: seq<Flow>, flows: map<FlowKey, Flow>, offered: seq<Packet>, ended: seq<Flow>, keys: set<FlowKey>)
    requires Balanced(left, flows, offered) && keys <= flows.Keys
    requires forall k :: FlowTotal(ended, k) == if k in keys then FlowAccount(flows[k]) else NOTHING
    ensures Balanced(left + ended, flows - keys, offered)
  {
    hide Plus, FlowTotal, PacketTotal;
    forall k
      ensures Plus(FlowTotal(left + ended, k), Cached(flows - keys, k)) == PacketTotal(offered, k)
    {
      FlowTotalConcat(left, ended, k);
      PlusLaws(FlowTotal(left, k), FlowTotal(ended, k), Cached(flows - keys, k));
      PlusLaws(FlowTotal(ended, k), NOTHING, NOTHING);
      PlusLaws(Cached(flows - keys, k), NOTHING, NOTHING);
    }
  }

  lemma NothingCached(left: seq<Flow>, offered: seq<Packet>)
    requires Balanced(left, map[], offered)
    ensures forall k :: FlowTotal(left, k) == PacketTotal(offered, k)
  {
    hide Plus, FlowTotal, PacketTotal;
    forall k
      ensures FlowTotal(left, k) == PacketTotal(offered, k)
    {
      PlusLaws(FlowTotal(left, k), NOTHING, NOTHING);
    }
  }

  /** The flows after a packet, when there is room for it. */
  function Counted(flows: map<FlowKey, Flow>, p: Packet): map<FlowKey, Flow> {
    var flow := if p.key in flows then flows[p.key] else NewFlow(p.key, p.seen);
    flows[p.key := Update(flow, p.size, p.tcpFlags, p.seen)]
  }

  lemma CountingBalances(left: seq<Flow>, flows: map<FlowKey, Flow>, offered: seq<Packet>, p: Packet)
    requires Balanced(left, flows, offered)
    ensures Balanced(left, Counted(flows, p), offered + [p])
  {
    hide Plus, FlowTotal;
    forall k
      ensures Plus(FlowTotal(left, k), Cached(Counted(flows, p), k)) == PacketTotal(offered + [p], k)
    {
      assert (offered + [p])[..|offered|] == offered;
      var one := if p.key == k then Account(1, p.size, p.tcpFlags) else NOTHING;
      CountedAccount(flows, p, k);
      PlusLaws(FlowTotal(left, k), Cached(flows, k), one);
    }
  }

  lemma UpdatedAccount(f: Flow, p: Packet)
    ensures FlowAccount(Update(f, p.size, p.tcpFlags, p.seen)) == Plus(FlowAccount(f), Account(1, p.size, p.tcpFlags))
  {
    hide WrappingAdd;
  }

  lemma CountedAccount(flows: map<FlowKey, Flow>, p: Packet, k: FlowKey)
    ensures Cached(Counted(flows, p), k)
         == Plus(Cached(flows, k), if p.key == k then Account(1, p.size, p.tcpFlags) else NOTHING)
  {
    hide Plus, Update;
    PlusLaws(Cached(flows, k), NOTHING, NOTHING);
    UpdatedAccount(if k in flows then flows[k] else NewFlow(k, p.seen), p);
  }

  // Times

  /** When a packet of the key was last seen. */
  function LatestSeen(offered: seq<Packet>, key: FlowKey): Option<Seen> {
    if offered == [] then None
    else if offered[|offered| - 1].key == key then Some(offered[|offered| - 1].seen)
    else LatestSeen(offered[..|offered| - 1], key)
  }

  /** A flow starts with a packet of its key and ends with the latest. */
  ghost predicate Spans(f: Flow, offered: seq<Packet>) {
    && LatestSeen(offered, f.key) == Some(Seen(f.end, f.lastSeen))
    && exists i :: 0 <= i < |offered| && offered[i].key == f.key && offered[i].seen == Seen(f.start, f.firstSeen)
  }

  ghost predicate AllSpan(flows: map<FlowKey, Flow>, offered: seq<Packet>) {
    forall k :: k in flows ==> Spans(flows[k], offered)
  }

  lemma CountingSpans(flows: map<FlowKey, Flow>, offered: seq<Packet>, p: Packet)
    requires AllSpan(flows, offered) && Keyed(flows)
    ensures AllSpan(Counted(flows, p), offered + [p])
  {
    hide WrappingAdd;
    var more := offered + [p];
    assert more[..|offered|] == offered;
    forall k | k in Counted(flows, p)
      ensures Spans(Counted(flows, p)[k], more)
    {
      if k in flows {
        assert Spans(flows[k], offered);
        var i :| 0 <= i < |offered| && offered[i].key == k && offered[i].seen == Seen(flows[k].start, flows[k].firstSeen);
        assert more[i] == offered[i];
      } else {
        assert more[|offered|] == p;
      }
    }
  }

  /** Where a flow that was handed out began and ended: with packets of its key. */
  ghost predicate ComesFrom(f: Flow, offered: seq<Packet>) {
    && (exists i :: 0 <= i < |offered| && offered[i].key == f.key && offered[i].seen == Seen(f.start, f.firstSeen))
    && (exists j :: 0 <= j < |offered| && offered[j].key == f.key && offered[j].seen == Seen(f.end, f.lastSeen))
  }

  ghost predicate AllCome(fs: seq<Flow>, offered: seq<Packet>) {
    forall i :: 0 <= i < |fs| ==> ComesFrom(fs[i], offered)
  }

  lemma ComeLater(fs: seq<Flow>, offered: seq<Packet>, p: Packet)
    requires AllCome(fs, offered)
    ensures AllCome(fs, offered + [p])
  {
    var more := offered + [p];
    assert forall i :: 0 <= i < |offered| ==> more[i] == offered[i];
    forall n | 0 <= n < |fs|
      ensures ComesFrom(fs[n], more)
    {
      assert ComesFrom(fs[n], offered);
      var i :| 0 <= i < |offered| && offered[i].key == fs[n].key && offered[i].seen == Seen(fs[n].start, fs[n].firstSeen);
      var j :| 0 <= j < |offered| && offered[j].key == fs[n].key && offered[j].seen == Seen(fs[n].end, fs[n].lastSeen);
      assert more[i] == offered[i] && more[j] == offered[j];
    }
  }

  lemma {:induction false} LatestIsOffered(offered: seq<Packet>, key: FlowKey)
    requires LatestSeen(offered, key).Some?
    ensures exists j :: 0 <= j < |offered| && offered[j].key == key && offered[j].seen == LatestSeen(offered, key).value
  {
    var n := |offered| - 1;
    if offered[n].key != key {
      LatestIsOffered(offered[..n], key);
      var j :| 0 <= j < n && offered[..n][j].key == key && offered[..n][j].seen == LatestSeen(offered, key).value;
      assert offered[j] == offered[..n][j];
    }
  }

  lemma EndedCome(
    left: seq<Flow>, flows: map<FlowKey, Flow>, offered: seq<Packet>, ended: seq<Flow>, reasons: map<FlowKey, EndReason>)
    requires AllCome(left, offered) && AllSpan(flows, offered)
    requires reasons.Keys <= flows.Keys && Ends(ended, flows, reasons)
    ensures AllCome(left + ended, offered)
  {
    hide ComesFrom, LatestSeen;
    forall i | 0 <= i < |ended|
      ensures ComesFrom(ended[i], offered)
    {
      var k :| k in reasons && ended[i] == Ended(flows[k], reasons[k]);
      assert Spans(flows[k], offered);
      EndedComes(flows[k], reasons[k], offered);
    }
  }

  lemma EndedComes(f: Flow, reason: EndReason, offered: seq<Packet>)
    requires Spans(f, offered)
    ensures ComesFrom(Ended(f, reason), offered)
  {
    LatestIsOffered(offered, f.key);
  }

  class FlowCache {
    const activeTimeout: nat
    const inactiveTimeout: nat
    const maxFlows: nat
    var flows: map<FlowKey, Flow>
    var evicted: seq<Flow>

    // Every packet metered, and every flow handed out.
    ghost var offered: seq<Packet>
    ghost var exported: seq<Flow>

    ghost predicate Valid()
      reads this
    {
      && Keyed(flows) && |flows| <= maxFlows && 1 <= maxFlows
      && Balanced(exported + evicted, flows, offered)
      && AllSpan(flows, offered) && AllCome(exported + evicted, offered)
      && forall i :: 0 <= i < |evicted| ==> evicted[i].endReason == Some(LackOfResources)
    }

    /** No flow was left past a timeout by a check made after it was last seen. */
    ghost predicate OnTime(checks: seq<nat>)
      reads this
    {
      && AllTimely(flows, checks, activeTimeout, inactiveTimeout)
      && forall i :: 0 <= i < |evicted| ==> Timely(evicted[i], checks, activeTimeout, inactiveTimeout)
    }

    constructor (activeTimeout: nat, inactiveTimeout: nat, maxFlows: nat)
      requires 1 <= maxFlows
      ensures Valid() && flows == map[] && evicted == exported == [] && offered == []
      ensures this.activeTimeout == activeTimeout && this.inactiveTimeout == inactiveTimeout && this.maxFlows == maxFlows
    {
      this.activeTimeout, this.inactiveTimeout, this.maxFlows := activeTimeout, inactiveTimeout, maxFlows;
      flows, evicted, offered, exported := map[], [], [], [];
      new;
      PlusLaws(NOTHING, NOTHING, NOTHING);
    }

    method UpdateFlow(p: Packet, ghost checks: seq<nat>)
      requires Valid()
      modifies this
      ensures old(OnTime(checks)) && (forall i :: 0 <= i < |checks| ==> checks[i] <= p.seen.instant) ==> OnTime(checks)
      ensures Valid() && offered == old(offered) + [p] && exported == old(exported)
      ensures p.key in old(flows) || |old(flows)| < maxFlows ==>
        evicted == old(evicted) && flows == Counted(old(flows), p)
      ensures p.key !in old(flows) && |old(flows)| >= maxFlows ==>
        && |evicted| >= |old(evicted)| && evicted[..|old(evicted)|] == old(evicted)
        && Evicts(old(flows), flows - {p.key}, evicted[|old(evicted)|..], BatchSize(maxFlows))
        && flows == Counted(flows - {p.key}, p)
    {
      hide Balanced, Evicts, Spans, AllCome, Timely;
      if p.key in flows {
        StillTimely(checks, p, flows);
        CountingBalances(exported + evicted, flows, offered, p);
        CountingSpans(flows, offered, p);
        ComeLater(exported + evicted, offered, p);
        flows := flows[p.key := Update(flows[p.key], p.size, p.tcpFlags, p.seen)];
        offered := offered + [p];
        return;
      }
      if |flows| >= maxFlows {
        EvictIdleLongest(checks);
      }
      StillTimely(checks, p, flows);
      CountingBalances(exported + evicted, flows, offered, p);
      CountingSpans(flows, offered, p);
      ComeLater(exported + evicted, offered, p);
      ghost var room := flows;
      flows := flows[p.key := Update(NewFlow(p.key, p.seen), p.size, p.tcpFlags, p.seen)];
      assert flows - {p.key} == room;
      offered := offered + [p];
    }

    lemma StillTimely(checks: seq<nat>, p: Packet, room: map<FlowKey, Flow>)
      requires OnTime(checks) ==> AllTimely(room, checks, activeTimeout, inactiveTimeout)
      ensures OnTime(checks) && (forall i :: 0 <= i < |checks| ==> checks[i] <= p.seen.instant) ==>
        AllTimely(Counted(room, p), checks, activeTimeout, inactiveTimeout)
    {
      hide Timely, Counted;
      if OnTime(checks) && forall i :: 0 <= i < |checks| ==> checks[i] <= p.seen.instant {
        CountedTimely(room, p, checks, activeTimeout, inactiveTimeout);
      }
    }

    method EvictIdleLongest(ghost checks: seq<nat>)
      requires Valid() && |flows| >= maxFlows
      modifies this`flows, this`evicted
      ensures Valid() && |flows| < maxFlows && flows.Keys <= old(flows).Keys
      ensures |evicted| >= |old(evicted)| && evicted[..|old(evicted)|] == old(evicted)
      ensures Evicts(old(flows), flows, evicted[|old(evicted)|..], BatchSize(maxFlows))
      ensures old(OnTime(checks)) ==> OnTime(checks)
    {
      hide Balanced, Ends, Evicts, Spans, AllCome, Timely;
      var cutoff := Cutoff(flows, BatchSize(maxFlows));
      var idle := set k | k in flows && flows[k].lastSeen <= cutoff;
      var ended := EndFlows(flows, All(idle, LackOfResources));
      EndingBalances(exported + evicted, flows, offered, ended, idle);
      EndedCome(exported + evicted, flows, offered, ended, All(idle, LackOfResources));
      IdleEvicted(flows, cutoff, ended, BatchSize(maxFlows));
      EndedAll(flows, ended, idle, LackOfResources);
      if OnTime(checks) {
        EndedTimely(flows, ended, All(idle, LackOfResources), checks, activeTimeout, inactiveTimeout);
      }
      assert idle == SeenBy(flows, cutoff);
      assert exported + (evicted + ended) == exported + evicted + ended;
      evicted := evicted + ended;
      flows := flows - idle;
      assert evicted[|old(evicted)|..] == ended;
    }

    method CheckExpiredFlows(now: nat, ghost checks: seq<nat>) returns (expired: seq<Flow>)
      requires Valid()
      modifies this
      ensures old(OnTime(checks)) ==>
        && OnTime(checks + [now])
        && forall i :: 0 <= i < |expired| ==> Timely(expired[i], checks, activeTimeout, inactiveTimeout)
      ensures Valid() && offered == old(offered) && exported == old(exported) + expired && evicted == []
      ensures |old(evicted)| <= |expired| && expired[..|old(evicted)|] == old(evicted)
      ensures forall i :: 0 <= i < |old(evicted)| ==> expired[i].endReason == Some(LackOfResources)
      ensures Ends(expired[|old(evicted)|..], old(flows), Expired(old(flows), activeTimeout, inactiveTimeout, now))
      ensures flows == old(flows) - Expired(old(flows), activeTimeout, inactiveTimeout, now).Keys
      ensures forall i :: |old(evicted)| <= i < |expired| ==> TimedOut(expired[i], activeTimeout, inactiveTimeout, now)
      ensures forall k :: k in old(flows) ==>
        && (k in flows <==> !Aged(old(flows)[k].firstSeen, activeTimeout, now)
                            && !Aged(old(flows)[k].lastSeen, inactiveTimeout, now))
        && (k in flows ==> flows[k] == old(flows)[k])
    {
      hide Balanced, Ends, Spans, AllCome, Timely;
      var reasons := Expired(flows, activeTimeout, inactiveTimeout, now);
      expired := TakeEnded(reasons, checks);
      EndedTimedOut(flows, old(flows), expired[|old(evicted)|..], activeTimeout, inactiveTimeout, now);
      if old(OnTime(checks)) {
        CheckedTimely(old(flows), flows, checks, now, activeTimeout, inactiveTimeout);
      }
    }

    method ExportAll(ghost checks: seq<nat>) returns (all: seq<Flow>)
      requires Valid()
      modifies this
      ensures old(OnTime(checks)) ==>
        forall i :: 0 <= i < |all| ==> Timely(all[i], checks, activeTimeout, inactiveTimeout)
      ensures forall i :: |old(evicted)| <= i < |all| ==> all[i].endReason == Some(ForcedEnd)
      ensures Valid() && offered == old(offered) && exported == old(exported) + all && evicted == []
      ensures |old(evicted)| <= |all| && all[..|old(evicted)|] == old(evicted)
      ensures forall i :: 0 <= i < |old(evicted)| ==> all[i].endReason == Some(LackOfResources)
      ensures Ends(all[|old(evicted)|..], old(flows), All(old(flows).Keys, ForcedEnd))
      ensures flows == map[]
      ensures forall k :: FlowTotal(exported, k) == PacketTotal(offered, k)
      ensures AllCome(exported, offered)
    {
      hide Balanced, Ends, Spans, AllCome, Timely, FlowTotal, PacketTotal;
      all := TakeEnded(All(flows.Keys, ForcedEnd), checks);
      EndedAll(old(flows), all[|old(evicted)|..], old(flows).Keys, ForcedEnd);
      assert exported + evicted == exported;
      NothingCached(exported, offered);
    }

    /** Hands out the evicted flows and then those with a reason to end. */
    method TakeEnded(reasons: map<FlowKey, EndReason>, ghost checks: seq<nat>) returns (taken: seq<Flow>)
      requires Valid() && reasons.Keys <= flows.Keys
      modifies this
      ensures old(OnTime(checks)) ==>
        forall i :: 0 <= i < |taken| ==> Timely(taken[i], checks, activeTimeout, inactiveTimeout)
      ensures Valid() && offered == old(offered) && exported == old(exported) + taken && evicted == []
      ensures |old(evicted)| <= |taken| && taken[..|old(evicted)|] == old(evicted)
      ensures Ends(taken[|old(evicted)|..], old(flows), reasons)
      ensures flows == old(flows) - reasons.Keys
    {
      hide Balanced, Ends, Spans, AllCome, Timely;
      var ended := EndFlows(flows, reasons);
      if OnTime(checks) {
        EndedTimely(flows, ended, reasons, checks, activeTimeout, inactiveTimeout);
      }
      EndingBalances(exported + evicted, flows, offered, ended, reasons.Keys);
      EndedCome(exported + evicted, flows, offered, ended, reasons);
      taken := evicted + ended;
      assert taken[|old(evicted)|..] == ended;
      ghost var all := exported + taken;
      assert exported + evicted + ended == all && all + [] == all;
      flows := flows - reasons.Keys;
      assert |old(flows).Keys| == |flows.Keys| + |reasons.Keys|;
      evicted := [];
      exported := all;
    }
  }
}
