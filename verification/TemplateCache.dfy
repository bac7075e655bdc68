/** The template cache, which sweeps expired entries lazily, against one that keeps none. */
module TemplateCaching {
  import opened TwoLevels
  import opened Bytes

  const MAX_TEMPLATE_FIELDS: nat := 65_536

  /** Where a template is cached: its observation domain and ID. */
  type Key = Place<int>

  datatype Entry<F> = Entry(fields: seq<F>, sentAt: nat)

  type Entries<F> = map<Key, Entry<F>>

  /** The fields of all entries. */
  ghost function Total<F>(m: Entries<F>): nat {
    if m == map[] then 0 else
    var k :| k in m;
    |m[k].fields| + Total(m - {k})
  }

  lemma {:induction false} TotalRemove<F>(m: Entries<F>, k: Key)
    requires k in m
    ensures Total(m) == |m[k].fields| + Total(m - {k})
    decreases |m|
  {
    var c :| c in m && Total(m) == |m[c].fields| + Total(m - {c});
    if c != k {
      TotalRemove(m - {c}, k);
      TotalRemove(m - {k}, c);
      assert m - {c} - {k} == m - {k} - {c};
    }
  }

  lemma TotalNone<F>()
    ensures Total<F>(map[]) == 0
  {
  }

  lemma TotalUpdate<F>(m: Entries<F>, k: Key, e: Entry<F>)
    ensures Total(m[k := e]) == |e.fields| + Total(m - {k})
  {
    TotalRemove(m[k := e], k);
    assert m[k := e] - {k} == m - {k};
  }

  lemma {:induction false} TotalSplit<F>(m: Entries<F>, part: set<Key>)
    requires part <= m.Keys
    ensures Total(m) == Total(m - part) + Total(m - (m.Keys - part))
    decreases |part|
  {
    if part == {} {
      assert m - part == m && m - (m.Keys - part) == map[];
    } else {
      var k :| k in part;
      TotalSplit(m, part - {k});
      TotalRemove(m - (part - {k}), k);
      TotalRemove(m - (m.Keys - part), k);
      assert m - (part - {k}) - {k} == m - part;
      assert m - (m.Keys - part) - {k} == m - (m.Keys - (part - {k}));
    }
  }

  lemma {:induction false} TotalSameLengths<F>(m: Entries<F>, m': Entries<F>)
    requires m.Keys == m'.Keys && forall k :: k in m ==> |m[k].fields| == |m'[k].fields|
    ensures Total(m) == Total(m')
    decreases |m|
  {
    if m == map[] {
      assert m' == map[];
    } else {
      var k :| k in m;
      TotalRemove(m, k);
      TotalRemove(m', k);
      TotalSameLengths(m - {k}, m' - {k});
    }
  }

  // The eager cache: what it holds has never expired

  function Live<F>(m: Entries<F>, now: nat, timeout: nat): Entries<F> {
    map k | k in m && now - m[k].sentAt < timeout :: m[k]
  }

  lemma LiveLater<F>(m: Entries<F>, now: nat, later: nat, timeout: nat)
    requires now <= later
    ensures Live(Live(m, now, timeout), later, timeout) == Live(m, later, timeout)
  {
  }

  ghost predicate EagerFits<F>(m: Entries<F>, key: Key, fields: seq<F>) {
    Total(m - {key}) + |fields| <= MAX_TEMPLATE_FIELDS
  }

  /** A template past the budget is refused, and takes the one it redefines with it. */
  ghost function EagerInsert<F>(m: Entries<F>, now: nat, key: Key, fields: seq<F>): Entries<F> {
    if EagerFits(m, key, fields) then m[key := Entry(fields, now)] else m - {key}
  }

  function EagerGet<F>(m: Entries<F>, key: Key): Option<seq<F>> {
    if key in m then Some(m[key].fields) else None
  }

  function Refreshed<F>(m: Entries<F>, domain: int, resolve: seq<F> -> seq<F>): Entries<F> {
    map k | k in m :: if k.domain == domain then Entry(resolve(m[k].fields), m[k].sentAt) else m[k]
  }

  ghost predicate LengthPreserving<F(!new)>(resolve: seq<F> -> seq<F>) {
    forall s :: |resolve(s)| == |s|
  }

  // The lazy cache

  type Domains<F> = Nested<int, Entry<F>>

  /** The templates of one domain, each with its fields resolved anew. */
  ghost predicate AllRefreshed<F>(templates: map<int, Entry<F>>, refreshed: map<int, Entry<F>>, resolve: seq<F> -> seq<F>) {
    templates.Keys == refreshed.Keys
    && forall id :: id in templates ==> refreshed[id] == Entry(resolve(templates[id].fields), templates[id].sentAt)
  }

  lemma HoldsRefreshed<F>(domains: Domains<F>, m: Entries<F>, domain: int, refreshed: map<int, Entry<F>>, resolve: seq<F> -> seq<F>)
    requires Holds(domains, m) && domain in domains && AllRefreshed(domains[domain], refreshed, resolve)
    ensures Holds(domains[domain := refreshed], Refreshed(m, domain, resolve))
  {
    var domains', m' := domains[domain := refreshed], Refreshed(m, domain, resolve);
    assert forall j: Key :: Has(domains', j) <==> Has(domains, j);
    forall j | j in m'
      ensures m'[j] == domains'[j.domain][j.key]
    {
      HoldsAt(domains, m, j);
      if j.domain == domain {
        var id: int := j.key;
        assert refreshed[id] == Entry(resolve(domains[domain][id].fields), domains[domain][id].sentAt);
      }
    }
  }

  function Unexpired<F>(templates: map<int, Entry<F>>, now: nat, timeout: nat): map<int, Entry<F>> {
    map id | id in templates && now - templates[id].sentAt < timeout :: templates[id]
  }

  /** `retain` on both levels. */
  function Retained<F>(domains: Domains<F>, now: nat, timeout: nat): Domains<F> {
    map d | d in domains && Unexpired(domains[d], now, timeout).Keys != {} :: Unexpired(domains[d], now, timeout)
  }

  lemma HoldsRetained<F>(domains: Domains<F>, m: Entries<F>, now: nat, timeout: nat)
    requires Holds(domains, m)
    ensures Holds(Retained(domains, now, timeout), Live(m, now, timeout))
    ensures forall d :: d in Retained(domains, now, timeout) ==> Retained(domains, now, timeout)[d].Keys != {}
  {
    var domains' := Retained(domains, now, timeout);
    forall j: Key
      ensures Has(domains', j) <==> Has(domains, j) && now - domains[j.domain][j.key].sentAt < timeout
    {
      if Has(domains, j) && now - domains[j.domain][j.key].sentAt < timeout {
        assert j.key in Unexpired(domains[j.domain], now, timeout).Keys;
      }
    }
  }

  class TemplateCache<F(!new)> {
    var domains: Domains<F>
    const timeout: nat
    /** The sum over all templates stored, live or not. */
    var fields: nat
    var nextSweep: nat
    /** No later than the expiry of anything stored. */
    var nextExpiry: Option<nat>
    var refusing: bool
    /** Everything stored, expired or not, and when the last insertion was. */
    ghost var stored: Entries<F>
    ghost var clock: nat

    ghost function LiveAt(now: nat): Entries<F>
      reads this
    {
      Live(stored, now, timeout)
    }

    ghost predicate Valid()
      reads this
    {
      && (forall d :: d in domains ==> domains[d].Keys != {})
      && Holds(domains, stored)
      && fields == Total(stored) <= MAX_TEMPLATE_FIELDS
      && nextSweep <= clock + timeout
      && InTime(stored, timeout, clock, nextExpiry, nextSweep)
    }

    constructor (timeout: nat, now: nat)
      ensures Valid() && stored == map[] && this.timeout == timeout && clock == now
    {
      this.timeout := timeout;
      domains, fields, nextSweep, nextExpiry, refusing := map[], 0, now + timeout, None, false;
      stored, clock := map[], now;
    }

    method Get(key: Key, now: nat) returns (r: Option<seq<F>>)
      requires Valid()
      ensures r == EagerGet(LiveAt(now), key)
    {
      hide Total, InTime, Holds;
      HoldsAt(domains, stored, key);
      if key.domain !in domains || key.key !in domains[key.domain] {
        return None;
      }
      var entry := domains[key.domain][key.key];
      r := if now - entry.sentAt < timeout then Some(entry.fields) else None;
    }

    method Fits(key: Key, added: seq<F>) returns (fits: bool)
      requires Valid()
      ensures fits <==> EagerFits(stored, key, added)
    {
      hide Total, InTime, Holds;
      HoldsAt(domains, stored, key);
      var replaced := 0;
      if key.domain in domains && key.key in domains[key.domain] {
        replaced := |domains[key.domain][key.key].fields|;
        TotalRemove(stored, key);
      } else {
        assert stored - {key} == stored;
      }
      fits := fields - replaced + |added| <= MAX_TEMPLATE_FIELDS;
    }

    /** Sweeps when a sweep is due, or when it may make room; nothing live goes. */
    method MakeRoom(key: Key, added: seq<F>, now: nat) returns (fits: bool)
      requires Valid() && clock <= now
      modifies this
      ensures Valid() && clock == now && (timeout == 0 || now < nextSweep)
      ensures LiveAt(now) == old(LiveAt(now))
      ensures fits <==> EagerFits(stored, key, added)
      ensures fits <==> EagerFits(LiveAt(now), key, added)
      ensures stored == old(stored) || stored == LiveAt(now)
      ensures !fits ==> stored == LiveAt(now)
    {
      hide Total, Holds, InTime;
      ghost var live := LiveAt(now);
      InTimeLater(stored, timeout, clock, nextExpiry, nextSweep, now);
      clock := now;
      if now >= nextSweep {
        RemoveExpired(now);
        assert LiveAt(now) == live;
      }
      fits := Fits(key, added);
      if fits {
        FewerFit(stored, now, timeout, key, added);
      } else {
        if nextExpiry.Some? && now >= nextExpiry.value {
          RemoveExpired(now);
        }
        NotYetExpired(stored, timeout, clock, nextExpiry, nextSweep, now);
        fits := Fits(key, added);
      }
    }

    /** Accepts and keeps a template just as a cache without dead entries would. */
    method Insert(key: Key, added: seq<F>, now: nat) returns (accepted: bool)
      requires Valid() && clock <= now
      modifies this
      ensures Valid() && clock == now
      ensures accepted <==> EagerFits(old(LiveAt(now)), key, added)
      ensures LiveAt(now) == Live(EagerInsert(old(LiveAt(now)), now, key, added), now, timeout)
      ensures forall k :: k in stored ==>
                if k == key then stored[k] == Entry(added, now)
                else k in old(stored) && stored[k] == old(stored)[k]
      ensures timeout > 0 ==> forall k :: k in stored ==> now - stored[k].sentAt < 2 * timeout
    {
      hide Total, Holds, InTime;
      accepted := MakeRoom(key, added, now);
      if accepted {
        Store(key, added, now);
      } else {
        refusing := true;
        Remove(key);
      }
      Recent(stored, timeout, clock, nextExpiry, nextSweep, now);
    }

    method Store(key: Key, added: seq<F>, now: nat)
      requires Valid() && EagerFits(stored, key, added)
      requires now == clock
      modifies `domains, `fields, `refusing, `nextExpiry, `stored
      ensures Valid() && stored == old(stored)[key := Entry(added, now)]
    {
      hide Total, Holds;
      var Place(domain, id) := key;
      var entry := Entry(added, now);
      HoldsAt(domains, stored, key);
      HoldsStored(domains, stored, key, entry);
      TotalUpdate(stored, key, entry);
      fields := fields + |added|;
      var templates := Row(domains, domain);
      if id in templates {
        TotalRemove(stored, key);
        fields := fields - |templates[id].fields|;
      } else {
        assert stored - {key} == stored;
        refusing := false;
      }
      domains := domains[domain := templates[id := entry]];
      assert id in domains[domain].Keys;
      stored := stored[key := entry];
      nextExpiry := Earlier(nextExpiry, Some(now + timeout));
    }

    method Remove(key: Key)
      requires Valid()
      modifies `domains, `fields, `stored
      ensures Valid() && stored == old(stored) - {key}
    {
      hide Total, Holds;
      var Place(domain, id) := key;
      HoldsAt(domains, stored, key);
      if domain !in domains || id !in domains[domain] {
        assert stored - {key} == stored;
        return;
      }
      HoldsRemoved(domains, stored, key);
      TotalRemove(stored, key);
      fields := fields - |domains[domain][id].fields|;
      var templates := domains[domain] - {id};
      domains := if templates.Keys == {} then domains - {domain} else domains[domain := templates];
      stored := stored - {key};
    }

    /** Withdraws every template of the domain. */
    method RemoveDomain(domain: int)
      requires Valid()
      modifies `domains, `fields, `stored
      ensures Valid() && stored == WithoutDomain(old(stored), domain)
    {
      hide Total, Holds;
      ghost var others := WithoutDomain(stored, domain);
      HoldsWithout(domains, stored, domain);
      if domain in domains {
        ghost var withdrawn := stored - others.Keys;
        TotalSplit(stored, withdrawn.Keys);
        assert stored - withdrawn.Keys == others && stored - (stored.Keys - withdrawn.Keys) == withdrawn;
        var freed := SumFields(domains[domain], domain, withdrawn);
        fields := fields - freed;
        domains := domains - {domain};
      }
      stored := others;
    }

    /** Resolves one domain anew; no template grows younger by it. */
    method RefreshDomain(domain: int, resolve: seq<F> -> seq<F>)
      requires Valid() && LengthPreserving(resolve)
      modifies `domains, `fields, `stored
      ensures Valid() && stored == Refreshed(old(stored), domain, resolve)
    {
      hide Total, Holds;
      if domain in domains {
        var templates := domains[domain];
        var refreshed := templates;
        var ids := templates.Keys;
        while ids != {}
          invariant ids <= templates.Keys == refreshed.Keys
          invariant domains == old(domains) && stored == old(stored) && Valid()
          invariant forall id :: id in templates ==>
            refreshed[id] ==
              if id in ids then templates[id] else Entry(resolve(templates[id].fields), templates[id].sentAt)
        {
          Nonempty(ids);
          var id :| id in ids;
          var resolved := resolve(templates[id].fields);
          HoldsAt(domains, stored, Place(domain, id));
          TotalRemove(stored, Place(domain, id));
          fields := fields - |templates[id].fields| + |resolved|;
          refreshed := refreshed[id := Entry(resolved, templates[id].sentAt)];
          ids := ids - {id};
        }
        HoldsRefreshed(domains, stored, domain, refreshed, resolve);
        domains := domains[domain := refreshed];
      } else {
        HoldsWithout(domains, stored, domain);
        assert Refreshed(stored, domain, resolve) == stored;
      }
      ghost var before := stored;
      stored := Refreshed(stored, domain, resolve);
      TotalSameLengths(before, stored);
    }

    method RemoveExpired(now: nat)
      requires Valid() && now == clock
      modifies `domains, `fields, `nextExpiry, `nextSweep, `stored
      ensures Valid() && stored == old(LiveAt(now)) && nextSweep == now + timeout
    {
      hide Total, Holds;
      ghost var live := LiveAt(now);
      assert forall k :: k in live ==> live[k] == stored[k] && live[k].sentAt <= now < live[k].sentAt + timeout;
      TotalSplit(stored, live.Keys);
      assert stored - (stored.Keys - live.Keys) == live;
      HoldsRetained(domains, stored, now, timeout);
      domains := Retained(domains, now, timeout);
      stored := live;
      fields := SumAll(domains, stored);
      nextExpiry := FirstExpiry(domains, timeout, stored);
      nextSweep := now + timeout;
      InTimeSwept(stored, timeout, now, nextExpiry);
    }
  }

  function Earlier(a: Option<nat>, b: Option<nat>): Option<nat> {
    if a.None? then b else if b.None? || a.value <= b.value then a else b
  }

  /** Nothing expires before `nextExpiry`, and the last sweep took all it could. */
  ghost predicate InTime<F>(m: Entries<F>, timeout: nat, clock: nat, nextExpiry: Option<nat>, nextSweep: nat) {
    forall k :: k in m ==>
      && m[k].sentAt <= clock
      && nextExpiry.Some? && nextExpiry.value <= m[k].sentAt + timeout
      && (timeout > 0 ==> nextSweep < m[k].sentAt + 2 * timeout)
  }

  lemma InTimeLater<F>(m: Entries<F>, timeout: nat, clock: nat, nextExpiry: Option<nat>, nextSweep: nat, now: nat)
    requires InTime(m, timeout, clock, nextExpiry, nextSweep) && clock <= now
    ensures InTime(m, timeout, now, nextExpiry, nextSweep)
  {
  }

  lemma InTimeSwept<F>(m: Entries<F>, timeout: nat, now: nat, nextExpiry: Option<nat>)
    requires forall k :: k in m ==> m[k].sentAt <= now < m[k].sentAt + timeout
    requires forall k :: k in m ==> nextExpiry.Some? && nextExpiry.value <= m[k].sentAt + timeout
    ensures InTime(m, timeout, now, nextExpiry, now + timeout)
  {
  }

  lemma NotYetExpired<F>(m: Entries<F>, timeout: nat, clock: nat, nextExpiry: Option<nat>, nextSweep: nat, now: nat)
    requires InTime(m, timeout, clock, nextExpiry, nextSweep)
    requires nextExpiry.Some? && now >= nextExpiry.value ==> m == Live(m, now, timeout)
    ensures m == Live(m, now, timeout)
  {
  }

  lemma Recent<F>(m: Entries<F>, timeout: nat, clock: nat, nextExpiry: Option<nat>, nextSweep: nat, now: nat)
    requires InTime(m, timeout, clock, nextExpiry, nextSweep) && (now < nextSweep || timeout == 0)
    ensures timeout > 0 ==> forall k :: k in m ==> now - m[k].sentAt < 2 * timeout
  {
  }

  // Sums and minima over the nested maps

  lemma Nonempty(s: set<int>)
    ensures s == {} || exists x :: x in s
  {
    if forall x :: x !in s {
      assert s == {};
    }
  }

  method SumFields<F>(templates: map<int, Entry<F>>, ghost domain: int, ghost m: Entries<F>) returns (sum: nat)
    requires Holds(map[domain := templates], m)
    ensures sum == Total(m)
  {
    hide Total;
    sum := 0;
    var ids := templates.Keys;
    ghost var left := m;
    while ids != {}
      invariant ids <= templates.Keys
      invariant forall k :: k in left <==> k.domain == domain && k.key in ids
      invariant forall k :: k in left ==> left[k] == templates[k.key]
      invariant sum + Total(left) == Total(m)
    {
      Nonempty(ids);
      var id :| id in ids;
      ghost var k := Place(domain, id);
      TotalRemove(left, k);
      sum := sum + |templates[id].fields|;
      ids, left := ids - {id}, left - {k};
    }
    assert left == map[];
    TotalNone<F>();
  }

  method SumAll<F>(domains: Domains<F>, ghost m: Entries<F>) returns (sum: nat)
    requires Holds(domains, m)
    ensures sum == Total(m)
  {
    hide Total, Holds;
    sum := 0;
    var rest := domains;
    ghost var left := m;
    while rest.Keys != {}
      invariant Holds(rest, left)
      invariant sum + Total(left) == Total(m)
      decreases rest.Keys
    {
      Nonempty(rest.Keys);
      var domain :| domain in rest.Keys;
      ghost var others := WithoutDomain(left, domain);
      ghost var part := left - others.Keys;
      HoldsWithout(rest, left, domain);
      TotalSplit(left, part.Keys);
      assert left - part.Keys == others && left - (left.Keys - part.Keys) == part;
      var s := SumFields(rest[domain], domain, part);
      sum := sum + s;
      rest, left := rest - {domain}, others;
    }
    HoldsNothing(rest, left);
    TotalNone<F>();
  }

  lemma HoldsNothing<F>(domains: Domains<F>, m: Entries<F>)
    requires Holds(domains, m) && domains.Keys == {}
    ensures m == map[]
  {
    assert forall k: Key :: !Has(domains, k);
  }

  /** A bound no entry expires before. */
  method FirstExpiry<F>(domains: Domains<F>, timeout: nat, ghost m: Entries<F>) returns (first: Option<nat>)
    requires Holds(domains, m)
    ensures forall k :: k in m ==> first.Some? && first.value <= m[k].sentAt + timeout
  {
    first := None;
    var rest := domains.Keys;
    while rest != {}
      invariant rest <= domains.Keys
      invariant forall k :: k in m && k.domain !in rest ==> first.Some? && first.value <= m[k].sentAt + timeout
    {
      Nonempty(rest);
      var domain :| domain in rest;
      var ids := domains[domain].Keys;
      while ids != {}
        invariant ids <= domains[domain].Keys
        invariant forall k :: k in m && (k.domain !in rest || (k.domain == domain && k.key !in ids)) ==>
          first.Some? && first.value <= m[k].sentAt + timeout
      {
        Nonempty(ids);
        var id :| id in ids;
        HoldsAt(domains, m, Place(domain, id));
        first := Earlier(first, Some(domains[domain][id].sentAt + timeout));
        ids := ids - {id};
      }
      rest := rest - {domain};
    }
  }

  /** What fits beside every entry fits beside the live ones. */
  lemma FewerFit<F>(m: Entries<F>, now: nat, timeout: nat, key: Key, fields: seq<F>)
    requires EagerFits(m, key, fields)
    ensures EagerFits(Live(m, now, timeout), key, fields)
  {
    var live := Live(m, now, timeout) - {key};
    TotalSplit(m - {key}, live.Keys);
    assert m - {key} - ((m - {key}).Keys - live.Keys) == live;
  }

  // Whole runs

  datatype Op<!F> =
    | InsertOp(key: Key, fields: seq<F>)
    | GetOp(key: Key)
    | RemoveOp(key: Key)
    | RemoveDomainOp(domain: int)
    | RefreshOp(domain: int, resolve: seq<F> -> seq<F>)

  datatype Answer<F> = Accepted(accepted: bool) | Got(fields: Option<seq<F>>) | Done

  datatype Call<!F> = Call(now: nat, op: Op<F>)

  /** A cache that drops what has expired before anything else. */
  ghost function EagerStep<F>(m: Entries<F>, call: Call<F>, timeout: nat): (Entries<F>, Answer<F>) {
    var live := Live(m, call.now, timeout);
    match call.op
    case InsertOp(key, fields) => (EagerInsert(live, call.now, key, fields), Accepted(EagerFits(live, key, fields)))
    case GetOp(key) => (live, Got(EagerGet(live, key)))
    case RemoveOp(key) => (live - {key}, Done)
    case RemoveDomainOp(domain) => (WithoutDomain(live, domain), Done)
    case RefreshOp(domain, resolve) => (Refreshed(live, domain, resolve), Done)
  }

  ghost function EagerRun<F>(m: Entries<F>, calls: seq<Call<F>>, timeout: nat): seq<Answer<F>>
    decreases |calls|
  {
    if calls == [] then [] else
    var (m', answer) := EagerStep(m, calls[0], timeout);
    [answer] + EagerRun(m', calls[1..], timeout)
  }

  /** The clock never goes back, and resolving fields again keeps their number. */
  ghost predicate RunOk<F(!new)>(start: nat, calls: seq<Call<F>>) {
    forall i :: 0 <= i < |calls| ==>
      && (if i == 0 then start else calls[i - 1].now) <= calls[i].now
      && (calls[i].op.RefreshOp? ==> LengthPreserving(calls[i].op.resolve))
  }

  lemma LiveCommutes<F>(m: Entries<F>, now: nat, timeout: nat, key: Key, domain: int, resolve: seq<F> -> seq<F>)
    ensures Live(m - {key}, now, timeout) == Live(m, now, timeout) - {key}
    ensures Live(WithoutDomain(m, domain), now, timeout) == WithoutDomain(Live(m, now, timeout), domain)
    ensures Live(Refreshed(m, domain, resolve), now, timeout) == Refreshed(Live(m, now, timeout), domain, resolve)
  {
  }

  /** One call on a lazy cache answers and leaves live what it does on an eager one. */
  method Apply<F(!new)>(cache: TemplateCache<F>, call: Call<F>, ghost eager: Entries<F>) returns (answer: Answer<F>)
    requires cache.Valid() && cache.clock <= call.now
    requires call.op.RefreshOp? ==> LengthPreserving(call.op.resolve)
    requires cache.LiveAt(call.now) == Live(eager, call.now, cache.timeout)
    modifies cache
    ensures cache.Valid() && cache.clock <= call.now
    ensures var (eager', expected) := EagerStep(eager, call, cache.timeout);
            answer == expected && cache.LiveAt(call.now) == Live(eager', call.now, cache.timeout)
  {
    hide Total, Holds, InTime;
    answer := Done;
    match call.op
    case InsertOp(key, fields) =>
      var accepted := cache.Insert(key, fields, call.now);
      answer := Accepted(accepted);
    case GetOp(key) =>
      var fields := cache.Get(key, call.now);
      answer := Got(fields);
    case RemoveOp(key) =>
      LiveCommutes(cache.stored, call.now, cache.timeout, key, 0, s => s);
      cache.Remove(key);
    case RemoveDomainOp(domain) =>
      LiveCommutes(cache.stored, call.now, cache.timeout, Place(0, 0), domain, s => s);
      cache.RemoveDomain(domain);
    case RefreshOp(domain, resolve) =>
      LiveCommutes(cache.stored, call.now, cache.timeout, Place(0, 0), domain, resolve);
      cache.RefreshDomain(domain, resolve);
  }

  /** Over any run, the lazy cache accepts, refuses and finds exactly what the eager one does. */
  method Replay<F(!new)>(timeout: nat, start: nat, calls: seq<Call<F>>) returns (answers: seq<Answer<F>>)
    requires RunOk(start, calls)
    ensures answers == EagerRun(map[], calls, timeout)
  {
    var cache := new TemplateCache<F>(timeout, start);
    ghost var eager: Entries<F> := map[];
    answers := [];
    for i := 0 to |calls|
      invariant cache.Valid() && cache.timeout == timeout && fresh(cache)
      invariant cache.clock <= if i == 0 then start else calls[i - 1].now
      invariant forall t: nat :: (i > 0 ==> calls[i - 1].now <= t) ==> cache.LiveAt(t) == Live(eager, t, timeout)
      invariant answers + EagerRun(eager, calls[i..], timeout) == EagerRun(map[], calls, timeout)
    {
      var call := calls[i];
      assert calls[i..][0] == call && calls[i..][1..] == calls[i + 1..];
      var answer := Apply(cache, call, eager);
      answers := answers + [answer];
      eager := EagerStep(eager, call, timeout).0;
      forall t: nat | call.now <= t
        ensures cache.LiveAt(t) == Live(eager, t, timeout)
      {
        LiveLater(cache.stored, call.now, t, timeout);
        LiveLater(eager, call.now, t, timeout);
      }
    }
  }
}
