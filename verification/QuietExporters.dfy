/** Who is forgotten, and when: no exporter before its timeout, and none kept long after it. */
module QuietExporters {
  import opened Bytes
  import opened Ipfix
  import opened Flows
  import opened Processing

  /** Another exporter's datagram, or none, takes no parser from an exporter heard within the timeout. */
  lemma KeptWhileHeard<P>(e: Exporters<P>, src: Address, now: nat, timeout: nat, blank: P, a: Address)
    requires a in e.table && now < e.table[a].lastSeen + timeout
    ensures var r := Entered(e, src, now, timeout, blank);
            a in r.table && r.table[a] == Exporter(e.table[a].parser, if a == src then now else e.table[a].lastSeen)
  {
  }

  /** A parser is blank only if its exporter is new or was quiet for the timeout. */
  lemma BlankWhenForgotten<P>(e: Exporters<P>, src: Address, now: nat, timeout: nat, blank: P)
    ensures var r := Entered(e, src, now, timeout, blank);
            || r.table[src] == Exporter(blank, now)
            || (src in e.table && r.table[src] == Exporter(e.table[src].parser, now))
    ensures src in e.table && Entered(e, src, now, timeout, blank).table[src].parser != e.table[src].parser ==>
      now >= e.table[src].lastSeen + timeout
  {
  }

  /** The exporters after a run. */
  function After<P, M, A>(
    parse: (P, nat, M) -> (P, A), blank: P, timeout: nat, e: Exporters<P>, ds: seq<Datagram<M>>): Exporters<P>
    decreases |ds|
  {
    if ds == [] then e
    else
      var d := ds[0];
      var entered := Entered(e, d.src, d.now, timeout, blank);
      var (parser, answer) := parse(entered.table[d.src].parser, d.now, d.payload);
      After(parse, blank, timeout, Stored(entered, d.src, parser), ds[1..])
  }

  /** The next sweep comes before anyone kept has been quiet for the timeout and ten seconds more. */
  ghost predicate SweptSoon<P>(e: Exporters<P>, clock: nat, timeout: nat) {
    && e.nextSweep <= clock + 10_000_000_000
    && forall a :: a in e.table ==>
         e.table[a].lastSeen <= clock && e.nextSweep <= e.table[a].lastSeen + timeout + 10_000_000_000
  }

  lemma StepSwept<P>(e: Exporters<P>, src: Address, now: nat, timeout: nat, blank: P, parser: P, clock: nat)
    requires SweptSoon(e, clock, timeout) && clock <= now
    ensures var r := Stored(Entered(e, src, now, timeout, blank), src, parser);
            SweptSoon(r, now, timeout) && now <= r.nextSweep
  {
  }

  ghost predicate HeardSince<P>(e: Exporters<P>, now: nat, timeout: nat) {
    forall a :: a in e.table ==> now <= e.table[a].lastSeen + timeout + 10_000_000_000
  }

  /** After any datagram of a run, everyone kept was heard within the timeout and ten seconds. */
  lemma {:induction false} NoneKeptLong<P, M, A>(
    parse: (P, nat, M) -> (P, A), blank: P, timeout: nat, e: Exporters<P>, clock: nat, ds: seq<Datagram<M>>)
    requires SweptSoon(e, clock, timeout) && InOrder(clock, ds) && ds != []
    ensures HeardSince(After(parse, blank, timeout, e, ds), ds[|ds| - 1].now, timeout)
    decreases |ds|
  {
    hide Entered, Stored;
    var d := ds[0];
    var entered := Entered(e, d.src, d.now, timeout, blank);
    var (parser, answer) := parse(entered.table[d.src].parser, d.now, d.payload);
    StepSwept(e, d.src, d.now, timeout, blank, parser, clock);
    var next := Stored(entered, d.src, parser);
    assert After(parse, blank, timeout, e, ds) == After(parse, blank, timeout, next, ds[1..]);
    if |ds| > 1 {
      assert ds[1..][|ds| - 2] == ds[|ds| - 1];
      NoneKeptLong(parse, blank, timeout, next, d.now, ds[1..]);
    } else {
      assert ds[1..] == [];
    }
  }

  /** As from the start, when there is no one. */
  lemma StartsSwept<P>(now: nat, timeout: nat)
    ensures SweptSoon<P>(Exporters(map[], now), now, timeout)
  {
  }
}
