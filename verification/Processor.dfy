/** The exporters a processor keeps, and what forgetting the quiet ones changes. */
module Processing {
  import opened Bytes
  import opened Ipfix
  import opened Flows
  import opened TemplateCaching
  import opened TwoLevels
  import Collecting
  import Decoding
  import Typing = ElementTyping

  /** Ten seconds. */
  const SWEEP_INTERVAL: nat := 10_000_000_000

  /** A parser, and when its exporter was last heard. */
  datatype Exporter<P> = Exporter(parser: P, lastSeen: nat)

  datatype Exporters<P> = Exporters(table: map<Address, Exporter<P>>, nextSweep: nat)

  /** The exporters not quiet for the timeout. */
  function Heard<P>(table: map<Address, Exporter<P>>, now: nat, timeout: nat): map<Address, Exporter<P>> {
    map a | a in table && now - table[a].lastSeen < timeout :: table[a]
  }

  /** The exporters once one is looked up: quiet ones may go, this one is there and marked as seen. */
  function Entered<P>(e: Exporters<P>, src: Address, now: nat, timeout: nat, blank: P): (r: Exporters<P>)
    ensures src in r.table
  {
    var swept := if now >= e.nextSweep then Exporters(Heard(e.table, now, timeout), now + SWEEP_INTERVAL) else e;
    var parser := if src in swept.table then swept.table[src].parser else blank;
    swept.(table := swept.table[src := Exporter(parser, now)])
  }

  function Stored<P>(e: Exporters<P>, src: Address, parser: P): Exporters<P>
    requires src in e.table
  {
    e.(table := e.table[src := e.table[src].(parser := parser)])
  }

  // Runs, with quiet exporters forgotten or kept forever

  datatype Datagram<M> = Datagram(src: Address, now: nat, payload: M)

  function SweptRun<P, M, A>(
    parse: (P, nat, M) -> (P, A), blank: P, timeout: nat, e: Exporters<P>, ds: seq<Datagram<M>>): seq<A>
    decreases |ds|
  {
    if ds == [] then []
    else
      var d := ds[0];
      var entered := Entered(e, d.src, d.now, timeout, blank);
      var (parser, answer) := parse(entered.table[d.src].parser, d.now, d.payload);
      [answer] + SweptRun(parse, blank, timeout, Stored(entered, d.src, parser), ds[1..])
  }

  function ParserOf<P>(kept: map<Address, P>, src: Address, blank: P): P {
    if src in kept then kept[src] else blank
  }

  function KeptRun<P, M, A>(
    parse: (P, nat, M) -> (P, A), blank: P, kept: map<Address, P>, ds: seq<Datagram<M>>): seq<A>
    decreases |ds|
  {
    if ds == [] then []
    else
      var d := ds[0];
      var (parser, answer) := parse(ParserOf(kept, d.src, blank), d.now, d.payload);
      [answer] + KeptRun(parse, blank, kept[d.src := parser], ds[1..])
  }

  /** The clock never goes back. */
  predicate InOrder<M>(clock: nat, ds: seq<Datagram<M>>) {
    && (forall i :: 0 <= i < |ds| ==> clock <= ds[i].now)
    && (forall i, j :: 0 <= i < j < |ds| ==> ds[i].now <= ds[j].now)
  }

  /** A sense in which two parsers are the same from a time on: then, and later, they answer the same. */
  ghost predicate Lawful<P(!new), M(!new), A(!new)>(
    parse: (P, nat, M) -> (P, A), same: (P, P, nat) -> bool)
  {
    && (forall p, t :: same(p, p, t))
    && (forall p, q, t :: same(p, q, t) ==> same(q, p, t))
    && (forall p, q, t, u :: same(p, q, t) && t <= u ==> same(p, q, u))
    && (forall p, q, t, m :: same(p, q, t) ==>
          parse(p, t, m).1 == parse(q, t, m).1 && same(parse(p, t, m).0, parse(q, t, m).0, t))
  }

  lemma Later<P(!new), M(!new), A(!new)>(
    parse: (P, nat, M) -> (P, A), same: (P, P, nat) -> bool, p: P, q: P, t: nat, u: nat)
    requires Lawful(parse, same) && same(p, q, t) && t <= u
    ensures same(p, q, u) && same(q, p, u)
  {
  }

  lemma Parsed<P(!new), M(!new), A(!new)>(
    parse: (P, nat, M) -> (P, A), same: (P, P, nat) -> bool, p: P, q: P, t: nat, m: M)
    requires Lawful(parse, same) && same(p, q, t)
    ensures parse(p, t, m).1 == parse(q, t, m).1 && same(parse(p, t, m).0, parse(q, t, m).0, t)
  {
  }

  /** When an exporter is heard next. */
  function NextHeard<M>(ds: seq<Datagram<M>>, a: Address): Option<nat> {
    if ds == [] then None else if ds[0].src == a then Some(ds[0].now) else NextHeard(ds[1..], a)
  }

  predicate NotBefore(next: Option<nat>, t: nat) {
    next.Some? && t <= next.value
  }

  lemma {:induction false} HeardLater<M>(clock: nat, ds: seq<Datagram<M>>, a: Address)
    requires InOrder(clock, ds)
    ensures NextHeard(ds, a).Some? ==> clock <= NextHeard(ds, a).value
  {
    if ds != [] {
      HeardLater(clock, ds[1..], a);
    }
  }

  /** Every exporter heard again only a timeout later or more has by then a parser as good as new; nothing is asked of
      the others. */
  ghost predicate QuietFade<P(!new), M, A>(
    parse: (P, nat, M) -> (P, A), blank: P, same: (P, P, nat) -> bool, timeout: nat,
    kept: map<Address, P>, ds: seq<Datagram<M>>)
    decreases |ds|
  {
    ds == [] ||
    (var d := ds[0];
     var parser := parse(ParserOf(kept, d.src, blank), d.now, d.payload).0;
     && (NotBefore(NextHeard(ds[1..], d.src), d.now + timeout) ==> same(parser, blank, d.now + timeout))
     && QuietFade(parse, blank, same, timeout, kept[d.src := parser], ds[1..]))
  }

  /** Swept or not, the exporter's parser is the same from the clock on, for as far as it is heard again. */
  ghost predicate AlikeAt<P(!new)>(
    e: Exporters<P>, kept: map<Address, P>, blank: P, same: (P, P, nat) -> bool, timeout: nat, clock: nat,
    a: Address, next: Option<nat>)
  {
    var p := ParserOf(kept, a, blank);
    if a in e.table then
      var quiet := e.table[a].lastSeen + timeout;
      same(e.table[a].parser, p, clock) && (NotBefore(next, quiet) ==> same(p, blank, quiet))
    else next.Some? ==> same(blank, p, clock)
  }

  ghost predicate Alike<P(!new), M>(
    e: Exporters<P>, kept: map<Address, P>, blank: P, same: (P, P, nat) -> bool, timeout: nat, clock: nat,
    ds: seq<Datagram<M>>)
  {
    forall a :: AlikeAt(e, kept, blank, same, timeout, clock, a, NextHeard(ds, a))
  }

  /** Once one exporter is looked up: what `AlikeAt` says, but for the time this one was last seen. */
  ghost predicate AlikeEntered<P(!new)>(
    r: Exporters<P>, kept: map<Address, P>, blank: P, same: (P, P, nat) -> bool, timeout: nat, src: Address, now: nat,
    a: Address, next: Option<nat>)
  {
    var p := ParserOf(kept, a, blank);
    if a in r.table then
      var quiet := r.table[a].lastSeen + timeout;
      same(r.table[a].parser, p, now) && (a != src && NotBefore(next, quiet) ==> same(p, blank, quiet))
    else next.Some? ==> same(blank, p, now)
  }

  lemma EnteredAlike<P(!new), M(!new), A(!new)>(
    parse: (P, nat, M) -> (P, A), blank: P, same: (P, P, nat) -> bool, timeout: nat,
    e: Exporters<P>, kept: map<Address, P>, clock: nat, src: Address, now: nat, a: Address, next: Option<nat>)
    requires Lawful(parse, same) && AlikeAt(e, kept, blank, same, timeout, clock, a, next) && clock <= now
    requires (next.Some? ==> now <= next.value) && (a == src ==> next == Some(now))
    ensures AlikeEntered(Entered(e, src, now, timeout, blank), kept, blank, same, timeout, src, now, a, next)
  {
    hide Lawful;
    var p := ParserOf(kept, a, blank);
    if a in e.table {
      Later(parse, same, e.table[a].parser, p, clock, now);
      if e.table[a].lastSeen + timeout <= now && next.Some? {
        Later(parse, same, p, blank, e.table[a].lastSeen + timeout, now);
      }
    } else if next.Some? {
      Later(parse, same, blank, p, clock, now);
    }
  }

  lemma AlikeStep<P(!new), M(!new), A(!new)>(
    parse: (P, nat, M) -> (P, A), blank: P, same: (P, P, nat) -> bool, timeout: nat,
    e: Exporters<P>, kept: map<Address, P>, clock: nat, ds: seq<Datagram<M>>)
    requires ds != [] && InOrder(clock, ds)
    requires Lawful(parse, same) && Alike(e, kept, blank, same, timeout, clock, ds)
    requires QuietFade(parse, blank, same, timeout, kept, ds)
    ensures var d := ds[0];
            var entered := Entered(e, d.src, d.now, timeout, blank);
            var (parser, answer) := parse(entered.table[d.src].parser, d.now, d.payload);
            var (parser', answer') := parse(ParserOf(kept, d.src, blank), d.now, d.payload);
            && answer == answer'
            && Alike(Stored(entered, d.src, parser), kept[d.src := parser'], blank, same, timeout, d.now, ds[1..])
  {
    hide Lawful, AlikeAt, Entered, QuietFade;
    var d := ds[0];
    var entered := Entered(e, d.src, d.now, timeout, blank);
    var p, q := entered.table[d.src].parser, ParserOf(kept, d.src, blank);
    assert InOrder(d.now, ds);
    assert AlikeAt(e, kept, blank, same, timeout, clock, d.src, NextHeard(ds, d.src));
    EnteredAlike(parse, blank, same, timeout, e, kept, clock, d.src, d.now, d.src, NextHeard(ds, d.src));
    Parsed(parse, same, p, q, d.now, d.payload);
    var parser, parser' := parse(p, d.now, d.payload).0, parse(q, d.now, d.payload).0;
    var stored, kept', rest := Stored(entered, d.src, parser), kept[d.src := parser'], ds[1..];
    forall a
      ensures AlikeAt(stored, kept', blank, same, timeout, d.now, a, NextHeard(rest, a))
    {
      HeardLater(d.now, ds, a);
      assert AlikeAt(e, kept, blank, same, timeout, clock, a, NextHeard(ds, a));
      EnteredAlike(parse, blank, same, timeout, e, kept, clock, d.src, d.now, a, NextHeard(ds, a));
      StoredAlike(parse, blank, same, timeout, e, kept, ds, a, parser);
    }
  }

  lemma StoredAlike<P(!new), M(!new), A(!new)>(
    parse: (P, nat, M) -> (P, A), blank: P, same: (P, P, nat) -> bool, timeout: nat,
    e: Exporters<P>, kept: map<Address, P>, ds: seq<Datagram<M>>, a: Address, parser: P)
    requires ds != [] && QuietFade(parse, blank, same, timeout, kept, ds)
    requires var d := ds[0];
             && same(parser, parse(ParserOf(kept, d.src, blank), d.now, d.payload).0, d.now)
             && AlikeEntered(Entered(e, d.src, d.now, timeout, blank), kept, blank, same, timeout, d.src, d.now,
                             a, NextHeard(ds, a))
    ensures var d := ds[0];
            var parser' := parse(ParserOf(kept, d.src, blank), d.now, d.payload).0;
            AlikeAt(Stored(Entered(e, d.src, d.now, timeout, blank), d.src, parser), kept[d.src := parser'],
                    blank, same, timeout, d.now, a, NextHeard(ds[1..], a))
  {
  }

  /** Forgetting exporters quiet for the timeout changes no answer of a run, when each that is heard again after so long
      has a parser as good as new by then. */
  lemma {:induction false} SweepInvisible<P(!new), M(!new), A(!new)>(
    parse: (P, nat, M) -> (P, A), blank: P, same: (P, P, nat) -> bool, timeout: nat,
    e: Exporters<P>, kept: map<Address, P>, clock: nat, ds: seq<Datagram<M>>)
    requires Lawful(parse, same) && Alike(e, kept, blank, same, timeout, clock, ds)
    requires InOrder(clock, ds) && QuietFade(parse, blank, same, timeout, kept, ds)
    ensures SweptRun(parse, blank, timeout, e, ds) == KeptRun(parse, blank, kept, ds)
    decreases |ds|
  {
    hide Lawful, Alike;
    if ds != [] {
      var d := ds[0];
      AlikeStep(parse, blank, same, timeout, e, kept, clock, ds);
      var entered := Entered(e, d.src, d.now, timeout, blank);
      var parser := parse(entered.table[d.src].parser, d.now, d.payload).0;
      var parser' := parse(ParserOf(kept, d.src, blank), d.now, d.payload).0;
      assert InOrder(d.now, ds[1..]);
      SweepInvisible(parse, blank, same, timeout, Stored(entered, d.src, parser), kept[d.src := parser'], d.now, ds[1..]);
    }
  }

  // Template lookup

  /** The templates and options templates of one exporter, as eager caches. */
  datatype Caches<F> = Caches(templates: Entries<F>, options: Entries<F>)

  datatype CacheOp<!F> = CacheOp(options: bool, op: Op<F>)

  ghost function CachesRun<F>(caches: Caches<F>, now: nat, ops: seq<CacheOp<F>>, timeout: nat): (Caches<F>, seq<Answer<F>>)
    decreases |ops|
  {
    if ops == [] then (caches, [])
    else
      var (after, answer) := CachesStep(caches, now, ops[0], timeout);
      var (last, answers) := CachesRun(after, now, ops[1..], timeout);
      (last, [answer] + answers)
  }

  ghost function CachesStep<F>(caches: Caches<F>, now: nat, op: CacheOp<F>, timeout: nat): (Caches<F>, Answer<F>) {
    var (m, answer) := EagerStep(if op.options then caches.options else caches.templates, Call(now, op.op), timeout);
    (if op.options then caches.(options := m) else caches.(templates := m), answer)
  }

  ghost predicate SameCaches<F>(a: Caches<F>, b: Caches<F>, t: nat, timeout: nat) {
    && Live(a.templates, t, timeout) == Live(b.templates, t, timeout)
    && Live(a.options, t, timeout) == Live(b.options, t, timeout)
  }

  lemma {:induction false} CachesSame<F>(a: Caches<F>, b: Caches<F>, t: nat, ops: seq<CacheOp<F>>, timeout: nat)
    requires SameCaches(a, b, t, timeout)
    ensures CachesRun(a, t, ops, timeout).1 == CachesRun(b, t, ops, timeout).1
    ensures SameCaches(CachesRun(a, t, ops, timeout).0, CachesRun(b, t, ops, timeout).0, t, timeout)
    decreases |ops|
  {
    hide EagerStep, Live;
    if ops != [] {
      StepSame(a, b, t, ops[0], timeout);
      CachesSame(CachesStep(a, t, ops[0], timeout).0, CachesStep(b, t, ops[0], timeout).0, t, ops[1..], timeout);
    }
  }

  lemma StepSame<F>(a: Caches<F>, b: Caches<F>, t: nat, op: CacheOp<F>, timeout: nat)
    requires SameCaches(a, b, t, timeout)
    ensures CachesStep(a, t, op, timeout).1 == CachesStep(b, t, op, timeout).1
    ensures SameCaches(CachesStep(a, t, op, timeout).0, CachesStep(b, t, op, timeout).0, t, timeout)
  {
    hide Live;
  }

  /** Everything was sent by then. */
  ghost predicate SentBy<F>(m: Entries<F>, now: nat) {
    forall k :: k in m ==> m[k].sentAt <= now
  }

  ghost predicate CachesSentBy<F>(c: Caches<F>, now: nat) {
    SentBy(c.templates, now) && SentBy(c.options, now)
  }

  lemma StepSentBy<F>(m: Entries<F>, call: Call<F>, timeout: nat)
    requires SentBy(m, call.now)
    ensures SentBy(EagerStep(m, call, timeout).0, call.now)
  {
  }

  lemma {:induction false} RunSentBy<F>(c: Caches<F>, now: nat, ops: seq<CacheOp<F>>, timeout: nat)
    requires CachesSentBy(c, now)
    ensures CachesSentBy(CachesRun(c, now, ops, timeout).0, now)
    decreases |ops|
  {
    hide EagerStep, SentBy;
    if ops != [] {
      StepSentBy(if ops[0].options then c.options else c.templates, Call(now, ops[0].op), timeout);
      RunSentBy(CachesStep(c, now, ops[0], timeout).0, now, ops[1..], timeout);
    }
  }

  lemma SentByFades<F>(m: Entries<F>, now: nat, timeout: nat)
    requires SentBy(m, now)
    ensures Live(m, now + timeout, timeout) == map[]
  {
  }

  lemma CachesLawful<F(!new)>(timeout: nat)
    ensures Lawful((c: Caches<F>, t: nat, ops: seq<CacheOp<F>>) => CachesRun(c, t, ops, timeout),
                   (a: Caches<F>, b: Caches<F>, t: nat) => SameCaches(a, b, t, timeout))
  {
    hide Live, CachesRun;
    forall a: Caches<F>, b: Caches<F>, t: nat, u: nat | SameCaches(a, b, t, timeout) && t <= u
      ensures SameCaches(a, b, u, timeout)
    {
      LiveLater(a.templates, t, u, timeout);
      LiveLater(b.templates, t, u, timeout);
      LiveLater(a.options, t, u, timeout);
      LiveLater(b.options, t, u, timeout);
    }
    forall a: Caches<F>, b: Caches<F>, t: nat, ops: seq<CacheOp<F>> | SameCaches(a, b, t, timeout)
      ensures CachesRun(a, t, ops, timeout).1 == CachesRun(b, t, ops, timeout).1
      ensures SameCaches(CachesRun(a, t, ops, timeout).0, CachesRun(b, t, ops, timeout).0, t, timeout)
    {
      CachesSame(a, b, t, ops, timeout);
    }
  }

  lemma {:induction false} CachesFade<F(!new)>(
    timeout: nat, kept: map<Address, Caches<F>>, clock: nat, ds: seq<Datagram<seq<CacheOp<F>>>>)
    requires InOrder(clock, ds) && forall a :: a in kept ==> CachesSentBy(kept[a], clock)
    ensures QuietFade((c: Caches<F>, t: nat, ops: seq<CacheOp<F>>) => CachesRun(c, t, ops, timeout), Caches(map[], map[]),
                    (a: Caches<F>, b: Caches<F>, t: nat) => SameCaches(a, b, t, timeout), timeout, kept, ds)
    decreases |ds|
  {
    hide CachesRun;
    if ds != [] {
      var d := ds[0];
      var before := ParserOf(kept, d.src, Caches(map[], map[]));
      var after := CachesRun(before, d.now, d.payload, timeout).0;
      assert CachesSentBy(before, d.now);
      RunSentBy(before, d.now, d.payload, timeout);
      SentByFades(after.templates, d.now, timeout);
      SentByFades(after.options, d.now, timeout);
      assert SameCaches(after, Caches(map[], map[]), d.now + timeout, timeout);
      CachesFade(timeout, kept[d.src := after], d.now, ds[1..]);
    }
  }

  /** Over any run, whatever the datagrams do to the template caches, forgetting quiet exporters changes no hit, no miss
      and no acceptance. */
  lemma ForgettingHidesNoTemplate<F(!new)>(timeout: nat, start: nat, ds: seq<Datagram<seq<CacheOp<F>>>>)
    requires InOrder(start, ds)
    ensures var parse := (c: Caches<F>, t: nat, ops: seq<CacheOp<F>>) => CachesRun(c, t, ops, timeout);
            SweptRun(parse, Caches(map[], map[]), timeout, Exporters(map[], start), ds)
            == KeptRun(parse, Caches(map[], map[]), map[], ds)
  {
    hide CachesRun, Lawful, SweptRun, KeptRun, QuietFade;
    var parse := (c: Caches<F>, t: nat, ops: seq<CacheOp<F>>) => CachesRun(c, t, ops, timeout);
    var same := (a: Caches<F>, b: Caches<F>, t: nat) => SameCaches(a, b, t, timeout);
    CachesLawful<F>(timeout);
    CachesFade(timeout, map[], start, ds);
    SweepInvisible(parse, Caches(map[], map[]), same, timeout, Exporters(map[], start), map[], start, ds);
  }

  // Whole messages

  ghost predicate StateSentBy(st: Collecting.State, now: nat) {
    SentBy(st.templates, now) && SentBy(st.options, now)
  }

  lemma {:induction false} TemplatesSentBy(
    config: Collecting.Config, st: Collecting.State, domain: int, now: nat, ts: seq<TemplateRecord>)
    requires StateSentBy(st, now)
    ensures StateSentBy(Collecting.DefineTemplates(config, st, domain, now, ts), now)
    decreases |ts|
  {
    hide Collecting.Types;
    if ts != [] {
      var templates := Collecting.Define(
        st.templates, Collecting.Types(config.registry, st.known, domain), domain, now, config.timeout,
        TEMPLATE_SET_ID, ts[0].templateId, ts[0].fields);
      TemplatesSentBy(config, st.(templates := templates), domain, now, ts[1..]);
    }
  }

  lemma {:induction false} OptionsSentBy(
    config: Collecting.Config, st: Collecting.State, domain: int, now: nat, ts: seq<OptionsTemplateRecord>)
    requires StateSentBy(st, now)
    ensures StateSentBy(Collecting.DefineOptions(config, st, domain, now, ts), now)
    decreases |ts|
  {
    hide Collecting.Types;
    if ts != [] {
      var options := Collecting.Define(
        st.options, Collecting.Types(config.registry, st.known, domain), domain, now, config.timeout,
        OPTIONS_TEMPLATE_SET_ID, ts[0].templateId, ts[0].fields);
      OptionsSentBy(config, st.(options := options), domain, now, ts[1..]);
    }
  }

  lemma RecordsSentBy(
    config: Collecting.Config, st: Collecting.State, domain: int, now: nat, id: u16, body: bytes)
    requires StateSentBy(st, now)
    ensures StateSentBy(Collecting.ParseRecords(config, st, domain, now, id, body).1, now)
  {
    hide Collecting.DefineTemplates, Collecting.DefineOptions, Collecting.LearnRecords, Collecting.Resolver;
    hide Collecting.ViewOf, Decoding.ParseTemplates, Decoding.ParseOptionsTemplates, Decoding.ParseTemplated;
    TemplatesSentBy(config, st, domain, now, Decoding.ParseTemplates(body));
    OptionsSentBy(config, st, domain, now, Decoding.ParseOptionsTemplates(body));
  }

  lemma {:induction false} SetsSentBy(
    config: Collecting.Config, st: Collecting.State, domain: int, now: nat, input: bytes)
    requires StateSentBy(st, now)
    ensures StateSentBy(Collecting.ParseSets(config, st, domain, now, input).1, now)
    decreases |input|
  {
    hide Collecting.ParseRecords, StateSentBy;
    forall id: u16, body: bytes
      ensures StateSentBy(Collecting.ParseRecords(config, st, domain, now, id, body).1, now)
    {
      RecordsSentBy(config, st, domain, now, id, body);
    }
    var (r, st') := Collecting.ParseSet(config, st, domain, now, input);
    if r.Ok? {
      SetsSentBy(config, st', domain, now, r.rest);
    }
  }

  lemma MessageSentBy(config: Collecting.Config, st: Collecting.State, now: nat, input: bytes)
    requires StateSentBy(st, now)
    ensures StateSentBy(Collecting.ParseMessage(config, st, now, input).1, now)
  {
    hide Collecting.ParseSets;
    var live := Collecting.LiveState(config, st, now);
    assert StateSentBy(live, now);
    forall domain: int, body: bytes
      ensures StateSentBy(Collecting.ParseSets(config, live, domain, now, body).1, now)
    {
      SetsSentBy(config, live, domain, now, body);
    }
  }

  /** Every exporter heard again only a timeout later or more knew no element types when it fell quiet. */
  ghost predicate QuietKnowNothing(
    config: Collecting.Config, kept: map<Address, Collecting.State>, ds: seq<Datagram<bytes>>)
    decreases |ds|
  {
    ds == [] ||
    (var d := ds[0];
     var after := Collecting.ParseMessage(config, ParserOf(kept, d.src, Collecting.INITIAL), d.now, d.payload).1;
     && (NotBefore(NextHeard(ds[1..], d.src), d.now + config.timeout) ==> after.known == map[])
     && QuietKnowNothing(config, kept[d.src := after], ds[1..]))
  }

  ghost function Parsing(config: Collecting.Config): (Collecting.State, nat, bytes) -> (Collecting.State, Parse<Packet>) {
    (st: Collecting.State, now: nat, input: bytes) =>
      var (r, after) := Collecting.ParseMessage(config, st, now, input); (after, r)
  }

  function SameFrom(config: Collecting.Config): (Collecting.State, Collecting.State, nat) -> bool {
    (a: Collecting.State, b: Collecting.State, t: nat) =>
      Collecting.LiveState(config, a, t) == Collecting.LiveState(config, b, t)
  }

  lemma ParsingLawful(config: Collecting.Config)
    ensures Lawful(Parsing(config), SameFrom(config))
  {
    hide Live, Collecting.ParseSets, Collecting.ParseHeader;
    forall a, b, t: nat, u: nat | SameFrom(config)(a, b, t) && t <= u
      ensures SameFrom(config)(a, b, u)
    {
      LiveLater(a.templates, t, u, config.timeout);
      LiveLater(b.templates, t, u, config.timeout);
      LiveLater(a.options, t, u, config.timeout);
      LiveLater(b.options, t, u, config.timeout);
    }
  }

  lemma {:induction false} ParsingFades(
    config: Collecting.Config, kept: map<Address, Collecting.State>, clock: nat, ds: seq<Datagram<bytes>>)
    requires InOrder(clock, ds) && QuietKnowNothing(config, kept, ds)
    requires forall a :: a in kept ==> StateSentBy(kept[a], clock)
    ensures QuietFade(Parsing(config), Collecting.INITIAL, SameFrom(config), config.timeout, kept, ds)
    decreases |ds|
  {
    hide Collecting.ParseMessage;
    if ds != [] {
      var d := ds[0];
      var before := ParserOf(kept, d.src, Collecting.INITIAL);
      var after := Collecting.ParseMessage(config, before, d.now, d.payload).1;
      assert StateSentBy(before, d.now);
      MessageSentBy(config, before, d.now, d.payload);
      SentByFades(after.templates, d.now, config.timeout);
      SentByFades(after.options, d.now, config.timeout);
      ParsingFades(config, kept[d.src := after], d.now, ds[1..]);
    }
  }

  /** Forgetting quiet exporters changes nothing of what any message of a run decodes to, as long as those heard again had
      learned no element types: others may teach all they like. */
  lemma ForgettingHidesNoRecord(config: Collecting.Config, start: nat, ds: seq<Datagram<bytes>>)
    requires InOrder(start, ds) && QuietKnowNothing(config, map[], ds)
    ensures SweptRun(Parsing(config), Collecting.INITIAL, config.timeout, Exporters(map[], start), ds)
         == KeptRun(Parsing(config), Collecting.INITIAL, map[], ds)
  {
    hide Lawful, SweptRun, KeptRun, QuietFade, Collecting.ParseMessage, QuietKnowNothing;
    ParsingLawful(config);
    ParsingFades(config, map[], start, ds);
    SweepInvisible(Parsing(config), Collecting.INITIAL, SameFrom(config), config.timeout, Exporters(map[], start),
                   map[], start, ds);
  }
}
