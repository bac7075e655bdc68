/** The exporters of a processor as they run: a table of parsers and domains, swept in place. */
module ExporterTables {
  import opened Bytes
  import opened Ipfix
  import opened Flows
  import opened Collecting
  import opened IpfixParsing
  import opened Processing
  import opened FlowProcessing
  import Domains

  /** An exporter's parser and its domains. */
  datatype Heeded = Heeded(parser: IpfixParser, domains: map<int, Domains.Domain>)

  /** A parser and what of it changes as it parses. */
  ghost function Parts(p: IpfixParser): set<object> {
    {p, p.elementTypes, p.templates, p.options}
  }

  /** The parser is the config's, and goes on as the state says. */
  ghost predicate Runs(p: IpfixParser, config: Config, st: State, clock: nat)
    reads Parts(p)
  {
    p.Valid() && p.config == config && p.By(clock) && Follows(p, st, clock)
  }

  lemma RunsLater(p: IpfixParser, config: Config, st: State, clock: nat, now: nat)
    requires Runs(p, config, st, clock) && clock <= now
    ensures Runs(p, config, st, now)
  {
    hide IpfixParser.Valid;
    FollowsLater(p, st, clock, now);
  }

  method NewParser(config: Config, now: nat) returns (parser: IpfixParser)
    ensures fresh(Parts(parser)) && Runs(parser, config, INITIAL, now)
  {
    parser := new IpfixParser(config, now);
    FollowsInitially(parser);
  }

  method ParseOne(parser: IpfixParser, config: Config, ghost st: State, d: Datagram<bytes>) returns (answer: Parse<Packet>)
    requires Runs(parser, config, st, d.now)
    modifies Parts(parser)
    ensures var (r, after) := ParseMessage(config, st, d.now, d.payload);
            answer == r && Runs(parser, config, after, d.now)
  {
    hide ParseMessage, IpfixParser.Valid, Follows;
    answer := IpfixParsing.Receive(parser, st, Message(d.now, d.payload));
  }

  /** The table, each parser for the state it has come to. */
  ghost function Specified(
    table: map<Address, Exporter<Heeded>>, states: map<Address, State>, nextSweep: nat): Exporters<Kept>
    requires states.Keys == table.Keys
  {
    Exporters(map a | a in table :: Exporter(Kept(states[a], table[a].parser.domains), table[a].lastSeen), nextSweep)
  }

  lemma SpecifiedKept(
    table: map<Address, Exporter<Heeded>>, states: map<Address, State>, nextSweep: nat,
    src: Address, held: Heeded, now: nat, st: State)
    requires states.Keys == table.Keys
    ensures var before := Specified(table, states, nextSweep);
            Specified(table[src := Exporter(held, now)], states[src := st], nextSweep)
            == before.(table := before.table[src := Exporter(Kept(st, held.domains), now)])
  {
  }

  lemma SpecifiedNoted(
    table: map<Address, Exporter<Heeded>>, states: map<Address, State>, nextSweep: nat,
    src: Address, domains: map<int, Domains.Domain>, st: State)
    requires states.Keys == table.Keys && src in table
    ensures var noted := table[src := table[src].(parser := table[src].parser.(domains := domains))];
            && noted.Keys == table.Keys && states[src := st].Keys == states.Keys
            && (forall a :: a in noted ==> noted[a].parser.parser == table[a].parser.parser)
            && Specified(noted, states[src := st], nextSweep)
               == Stored(Specified(table, states, nextSweep), src, Kept(st, domains))
  {
  }

  class ExporterTable {
    const config: Config
    var table: map<Address, Exporter<Heeded>>
    var nextSweep: nat
    /** What each exporter's parser has come to, and every object in use. */
    ghost var states: map<Address, State>
    ghost var repr: set<object>

    ghost predicate Apart()
      reads this
    {
      && this in repr && states.Keys == table.Keys
      && (forall a :: a in table ==> Parts(table[a].parser.parser) <= repr - {this})
      && forall a, b :: a in table && b in table && a != b ==> Parts(table[a].parser.parser) !! Parts(table[b].parser.parser)
    }

    ghost predicate AllRun(clock: nat)
      requires Apart()
      reads this, repr
    {
      forall a :: a in table ==> Runs(table[a].parser.parser, config, states[a], clock)
    }

    ghost function Spec(): Exporters<Kept>
      requires states.Keys == table.Keys
      reads this
    {
      Specified(table, states, nextSweep)
    }

    constructor (config: Config, now: nat)
      ensures Apart() && AllRun(now) && fresh(repr)
      ensures this.config == config && Spec() == Exporters(map[], now)
    {
      this.config, table, nextSweep, states, repr := config, map[], now, map[], {this};
    }

    /** Forgets exporters quiet for the timeout, when that is due. */
    method Sweep(now: nat, ghost clock: nat)
      requires Apart() && AllRun(clock)
      modifies this
      ensures Apart() && AllRun(clock) && repr == old(repr)
      ensures Spec() == if now >= old(nextSweep)
                        then Exporters(Heard(old(Spec()).table, now, config.timeout), now + SWEEP_INTERVAL) else old(Spec())
    {
      hide Runs, Parts;
      if now >= nextSweep {
        table := Heard(table, now, config.timeout);
        nextSweep := now + SWEEP_INTERVAL;
        states := map a | a in table :: states[a];
      }
    }

    lemma AllLater(clock: nat, now: nat)
      requires Apart() && AllRun(clock) && clock <= now
      ensures AllRun(now)
    {
      hide Runs, Parts;
      forall a | a in table
        ensures Runs(table[a].parser.parser, config, states[a], now)
      {
        RunsLater(table[a].parser.parser, config, states[a], clock, now);
      }
    }

    /** The parser and the domains are the exporter's, seen now. */
    method Keep(src: Address, held: Heeded, now: nat, ghost st: State)
      requires Apart() && AllRun(now) && Runs(held.parser, config, st, now) && this !in Parts(held.parser)
      requires forall a :: a in table && a != src ==> Parts(table[a].parser.parser) !! Parts(held.parser)
      modifies this
      ensures Apart() && AllRun(now) && repr == old(repr) + Parts(held.parser)
      ensures src in table && table[src] == Exporter(held, now) && states[src] == st
      ensures Spec() == old(Spec()).(table := old(Spec()).table[src := Exporter(Kept(st, held.domains), now)])
    {
      hide Runs, Parts, Specified;
      SpecifiedKept(table, states, nextSweep, src, held, now, st);
      table := table[src := Exporter(held, now)];
      states := states[src := st];
      repr := repr + Parts(held.parser);
    }

    /** The exporter's entry, a new one on first contact or after it was forgotten. */
    method Entry(src: Address, now: nat, ghost clock: nat)
      requires Apart() && AllRun(clock) && clock <= now
      modifies this
      ensures Apart() && AllRun(now) && fresh(repr - old(repr)) && src in table
      ensures Spec() == Entered(old(Spec()), src, now, config.timeout, NEW)
    {
      hide Runs, Heard;
      Sweep(now, clock);
      AllLater(clock, now);
      if src in table {
        ghost var st := states[src];
        Keep(src, table[src].parser, now, st);
      } else {
        var parser := NewParser(config, now);
        Keep(src, Heeded(parser, map[]), now, INITIAL);
      }
    }

    /** The exporter's parser has come to another state, and its domains to others. */
    method Note(src: Address, domains: map<int, Domains.Domain>, ghost st: State)
      requires Apart() && src in table
      modifies this`states, this`table
      ensures Apart() && states == old(states)[src := st] && table.Keys == old(table.Keys)
      ensures forall a :: a in table ==> table[a].parser.parser == old(table[a].parser.parser)
      ensures Spec() == Stored(old(Spec()), src, Kept(st, domains))
    {
      hide Parts, Specified, Stored;
      SpecifiedNoted(table, states, nextSweep, src, domains, st);
      table := table[src := table[src].(parser := table[src].parser.(domains := domains))];
      states := states[src := st];
    }

    /** One datagram: found or made anew, the exporter's parser parses it, and its domains note what it says. */
    method Receive(d: Datagram<bytes>, ghost clock: nat) returns (answer: Answer)
      requires Apart() && AllRun(clock) && clock <= d.now
      modifies repr
      ensures Apart() && AllRun(d.now) && fresh(repr - old(repr))
      ensures var entered := Entered(old(Spec()), d.src, d.now, config.timeout, NEW);
              var (kept, r) := Process(config, entered.table[d.src].parser, d.now, d.payload);
              answer == r && Spec() == Stored(entered, d.src, kept)
    {
      hide Runs, Entered, Process, Stored, Parts;
      Entry(d.src, d.now, clock);
      answer := ProcessAt(d);
    }

    /** The parsers of other exporters are not touched. */
    method ProcessAt(d: Datagram<bytes>) returns (answer: Answer)
      requires Apart() && AllRun(d.now) && d.src in table
      modifies this`states, this`table, Parts(table[d.src].parser.parser)
      ensures Apart() && AllRun(d.now)
      ensures var (kept, r) := Process(config, old(Spec()).table[d.src].parser, d.now, d.payload);
              answer == r && Spec() == Stored(old(Spec()), d.src, kept)
    {
      hide Runs, ParseMessage, Stored, Parts, Domains.NotedSets, Domains.ConvertSets, DomainIn;
      ghost var st := states[d.src];
      var domains := table[d.src].parser.domains;
      var packet := ParseOne(table[d.src].parser.parser, config, st, d);
      answer := Answer(packet, []);
      if packet.Ok? {
        var header, sets := packet.value.header, packet.value.sets;
        var domain := Domains.NoteSets(DomainIn(domains, header.domain), sets);
        domains := domains[header.domain := domain];
        answer := Answer(packet, Domains.ConvertSets(domain, header, sets));
      }
      OthersRun(d);
      Note(d.src, domains, ParseMessage(config, st, d.now, d.payload).1);
    }

    twostate lemma OthersRun(d: Datagram<bytes>)
      requires old(Apart()) && old(AllRun(d.now)) && d.src in old(table)
      requires table == old(table) && states == old(states) && repr == old(repr)
      requires forall o :: o in old(repr) && o !in old(Parts(table[d.src].parser.parser)) ==> unchanged(o)
      ensures forall a :: a in table && a != d.src ==> Runs(table[a].parser.parser, config, states[a], d.now)
    {
      hide Runs;
      forall a | a in table && a != d.src
        ensures Runs(table[a].parser.parser, config, states[a], d.now)
      {
        assert old(Runs(table[a].parser.parser, config, states[a], d.now));
      }
    }
  }

  /** Over any run of datagrams from any exporters, the table answers as the specified run does: every message as decoded,
      every data record as the flow it becomes. */
  method ReceiveAll(config: Config, start: nat, ds: seq<Datagram<bytes>>) returns (answers: seq<Answer>)
    requires InOrder(start, ds)
    ensures answers == SweptRun(Processor(config), NEW, config.timeout, Exporters(map[], start), ds)
  {
    hide Process, Entered, Runs, Parts;
    var exporters := new ExporterTable(config, start);
    answers := [];
    ghost var clock: nat := start;
    for i := 0 to |ds|
      invariant exporters.config == config && exporters.Apart() && exporters.AllRun(clock) && fresh(exporters.repr)
      invariant forall j :: i <= j < |ds| ==> clock <= ds[j].now
      invariant answers + SweptRun(Processor(config), NEW, config.timeout, exporters.Spec(), ds[i..])
             == SweptRun(Processor(config), NEW, config.timeout, Exporters(map[], start), ds)
    {
      assert ds[i..][0] == ds[i] && ds[i..][1..] == ds[i + 1..];
      var answer := exporters.Receive(ds[i], clock);
      answers := answers + [answer];
      clock := ds[i].now;
    }
  }

  /** And, as long as no exporter heard again after a timeout had told anything, as if none were ever forgotten. */
  method ReceiveForever(config: Config, start: nat, ds: seq<Datagram<bytes>>) returns (answers: seq<Answer>)
    requires InOrder(start, ds) && QuietToldNothing(config, map[], ds)
    ensures answers == KeptRun(Processor(config), NEW, map[], ds)
  {
    answers := ReceiveAll(config, start, ds);
    ForgettingHidesNoFlow(config, start, ds);
  }
}
