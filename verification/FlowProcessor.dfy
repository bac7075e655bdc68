/** An exporter's parser and its domains: messages parsed and their records converted to flows. */
module FlowProcessing {
  import opened Bytes
  import opened Ipfix
  import opened Flows
  import opened TemplateCaching
  import opened Collecting
  import opened Processing
  import Domains

  /** What is kept of an exporter. */
  datatype Kept = Kept(parser: State, domains: map<int, Domains.Domain>)

  const NEW: Kept := Kept(INITIAL, map[])

  /** The message, and its data records as flows. */
  datatype Answer = Answer(packet: Parse<Packet>, flows: seq<Domains.FlowFacts>)

  function DomainIn(domains: map<int, Domains.Domain>, id: int): Domains.Domain {
    if id in domains then domains[id] else Domains.BLANK
  }

  ghost function Process(config: Config, kept: Kept, now: nat, input: bytes): (Kept, Answer) {
    var (r, st) := ParseMessage(config, kept.parser, now, input);
    if r.Err? then (Kept(st, kept.domains), Answer(Err, []))
    else
      var header := r.value.header;
      var domain := Domains.NotedSets(DomainIn(kept.domains, header.domain), r.value.sets);
      (Kept(st, kept.domains[header.domain := domain]), Answer(r, Domains.ConvertSets(domain, header, r.value.sets)))
  }

  ghost function Processor(config: Config): (Kept, nat, bytes) -> (Kept, Answer) {
    (kept: Kept, now: nat, input: bytes) => Process(config, kept, now, input)
  }

  ghost function ProcessAll(config: Config, kept: Kept, ms: seq<Message>): (r: (Kept, seq<Answer>))
    ensures |r.1| == |ms|
    decreases |ms|
  {
    if ms == [] then (kept, [])
    else
      var (next, answer) := Process(config, kept, ms[0].now, ms[0].octets);
      var (last, answers) := ProcessAll(config, next, ms[1..]);
      (last, [answer] + answers)
  }

  /** The parser knows no element types, and no domain was told of any rate or boot time. */
  predicate ToldNothing(kept: Kept) {
    kept.parser.known == map[] && forall id :: id in kept.domains ==> kept.domains[id] == Domains.BLANK
  }

  // Exporters that are as good as new

  ghost predicate SameDomains(a: map<int, Domains.Domain>, b: map<int, Domains.Domain>) {
    forall id :: DomainIn(a, id) == DomainIn(b, id)
  }

  ghost predicate SameKept(config: Config, a: Kept, b: Kept, t: nat) {
    && LiveState(config, a.parser, t) == LiveState(config, b.parser, t)
    && SameDomains(a.domains, b.domains)
  }

  ghost function Same(config: Config): (Kept, Kept, nat) -> bool {
    (a: Kept, b: Kept, t: nat) => SameKept(config, a, b, t)
  }

  lemma ProcessSame(config: Config, a: Kept, b: Kept, t: nat, input: bytes)
    requires SameKept(config, a, b, t)
    ensures Process(config, a, t, input).1 == Process(config, b, t, input).1
    ensures SameKept(config, Process(config, a, t, input).0, Process(config, b, t, input).0, t)
  {
    hide ParseMessage, LiveState, Domains.NotedSets, Domains.ConvertSets, DomainIn;
    ParseLive(config, a.parser, t, input);
    ParseLive(config, b.parser, t, input);
    var r := ParseMessage(config, a.parser, t, input).0;
    if r.Ok? {
      var id := r.value.header.domain;
      DomainSet(a.domains, b.domains, id, Domains.NotedSets(DomainIn(a.domains, id), r.value.sets));
    }
  }

  lemma DomainSet(a: map<int, Domains.Domain>, b: map<int, Domains.Domain>, k: int, d: Domains.Domain)
    requires SameDomains(a, b)
    ensures SameDomains(a[k := d], b[k := d])
  {
    var a', b' := a[k := d], b[k := d];
    forall id
      ensures DomainIn(a', id) == DomainIn(b', id)
    {
      assert DomainIn(a, id) == DomainIn(b, id);
    }
  }

  lemma SameLater(config: Config, a: Kept, b: Kept, t: nat, u: nat)
    requires SameKept(config, a, b, t) && t <= u
    ensures SameKept(config, a, b, u)
  {
    hide Live;
    LiveLater(a.parser.templates, t, u, config.timeout);
    LiveLater(b.parser.templates, t, u, config.timeout);
    LiveLater(a.parser.options, t, u, config.timeout);
    LiveLater(b.parser.options, t, u, config.timeout);
  }

  lemma {:induction false} AllSame(config: Config, a: Kept, b: Kept, t: nat, ms: seq<Message>)
    requires SameKept(config, a, b, t) && Onward(t, ms)
    ensures ProcessAll(config, a, ms).1 == ProcessAll(config, b, ms).1
    decreases |ms|
  {
    hide SameKept, Process;
    if ms != [] {
      SameLater(config, a, b, t, ms[0].now);
      ProcessSame(config, a, b, ms[0].now, ms[0].octets);
      AllSame(config, Process(config, a, ms[0].now, ms[0].octets).0, Process(config, b, ms[0].now, ms[0].octets).0,
              ms[0].now, ms[1..]);
    }
  }

  /** The clock never goes back, from this time on. */
  predicate Onward(clock: nat, ms: seq<Message>) {
    && (forall i :: 0 <= i < |ms| ==> clock <= ms[i].now)
    && (forall i, j :: 0 <= i < j < |ms| ==> ms[i].now <= ms[j].now)
  }

  lemma ProcessorLawful(config: Config)
    ensures Lawful(Processor(config), Same(config))
  {
    hide SameKept, Process;
    forall p: Kept, q: Kept, t: nat
      ensures SameKept(config, p, p, t) && (SameKept(config, p, q, t) ==> SameKept(config, q, p, t))
    {
      SameSymmetric(config, p, q, t);
    }
    forall p: Kept, q: Kept, t: nat, u: nat | SameKept(config, p, q, t) && t <= u
      ensures SameKept(config, p, q, u)
    {
      SameLater(config, p, q, t, u);
    }
    forall p: Kept, q: Kept, t: nat, m: bytes | SameKept(config, p, q, t)
      ensures Process(config, p, t, m).1 == Process(config, q, t, m).1
      ensures SameKept(config, Process(config, p, t, m).0, Process(config, q, t, m).0, t)
    {
      ProcessSame(config, p, q, t, m);
    }
  }

  lemma SameSymmetric(config: Config, p: Kept, q: Kept, t: nat)
    ensures SameKept(config, p, p, t) && (SameKept(config, p, q, t) ==> SameKept(config, q, p, t))
  {
    hide LiveState;
  }

  /** A timeout after its last message, an exporter that told nothing is as good as new. */
  lemma NothingLeft(config: Config, kept: Kept, last: nat, t: nat)
    requires StateSentBy(kept.parser, last) && ToldNothing(kept) && last + config.timeout <= t
    ensures SameKept(config, kept, NEW, t)
  {
    SentByFades(kept.parser.templates, last, config.timeout);
    SentByFades(kept.parser.options, last, config.timeout);
    assert SameKept(config, kept, NEW, last + config.timeout);
    SameLater(config, kept, NEW, last + config.timeout, t);
  }

  lemma ProcessSentBy(config: Config, kept: Kept, now: nat, input: bytes)
    requires StateSentBy(kept.parser, now)
    ensures StateSentBy(Process(config, kept, now, input).0.parser, now)
  {
    hide ParseMessage, StateSentBy;
    MessageSentBy(config, kept.parser, now, input);
  }

  // Runs of many exporters

  /** Every exporter heard again only a timeout later or more had told nothing when it fell quiet. */
  ghost predicate QuietToldNothing(config: Config, kept: map<Address, Kept>, ds: seq<Datagram<bytes>>)
    decreases |ds|
  {
    ds == [] ||
    (var d := ds[0];
     var after := Process(config, ParserOf(kept, d.src, NEW), d.now, d.payload).0;
     && (NotBefore(NextHeard(ds[1..], d.src), d.now + config.timeout) ==> ToldNothing(after))
     && QuietToldNothing(config, kept[d.src := after], ds[1..]))
  }

  lemma {:induction false} KeptFade(config: Config, kept: map<Address, Kept>, clock: nat, ds: seq<Datagram<bytes>>)
    requires InOrder(clock, ds) && QuietToldNothing(config, kept, ds)
    requires forall a :: a in kept ==> StateSentBy(kept[a].parser, clock)
    ensures QuietFade(Processor(config), NEW, Same(config), config.timeout, kept, ds)
    decreases |ds|
  {
    hide Process, SameKept, ToldNothing;
    if ds != [] {
      var d := ds[0];
      var before := ParserOf(kept, d.src, NEW);
      var after := Process(config, before, d.now, d.payload).0;
      assert StateSentBy(before.parser, d.now);
      ProcessSentBy(config, before, d.now, d.payload);
      if ToldNothing(after) {
        NothingLeft(config, after, d.now, d.now + config.timeout);
      }
      KeptFade(config, kept[d.src := after], d.now, ds[1..]);
    }
  }

  /** Forgetting quiet exporters changes nothing of what any message decodes to, nor of the flows its records become, as
      long as those heard again had told nothing: others may tell all they like. */
  lemma ForgettingHidesNoFlow(config: Config, start: nat, ds: seq<Datagram<bytes>>)
    requires InOrder(start, ds) && QuietToldNothing(config, map[], ds)
    ensures SweptRun(Processor(config), NEW, config.timeout, Exporters(map[], start), ds)
         == KeptRun(Processor(config), NEW, map[], ds)
  {
    hide Lawful, SweptRun, KeptRun, QuietFade, Process, QuietToldNothing, SameKept;
    ProcessorLawful(config);
    KeptFade(config, map[], start, ds);
    SameSymmetric(config, NEW, NEW, start);
    SweepInvisible(Processor(config), NEW, Same(config), config.timeout, Exporters(map[], start), map[], start, ds);
  }
}
