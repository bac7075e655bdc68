/** Which of a record's fields state its sampling rate, its sampler and its exporter's boot time, wherever they are. */
module StatedRates {
  import opened Bytes
  import opened Ipfix
  import opened Domains
  import opened FlowRates
  import Timestamps
  import Typing = ElementTyping

  type Fields = seq<ResolvedField>
  type Values = seq<FieldValue>

  /** There is such a field, with a value. */
  predicate Within(fields: Fields, values: Values, i: int) {
    0 <= i < |fields| && i < |values|
  }

  /** samplingInterval or samplerRandomInterval. */
  predicate IsRate(field: ResolvedField) {
    IsIana(field, 34) || IsIana(field, 50)
  }

  /** The first field of a rate that holds a number. */
  ghost predicate FirstRate(fields: Fields, values: Values, i: int, n: u32) {
    && Within(fields, values, i) && IsRate(fields[i]) && Number32(values[i]) == Some(n)
    && forall j :: 0 <= j < i ==> !(IsRate(fields[j]) && Number32(values[j]).Some?)
  }

  /** The last field of an element. */
  ghost predicate LastOf(fields: Fields, values: Values, id: u16, i: int) {
    && Within(fields, values, i) && IsIana(fields[i], id)
    && forall j :: i < j && Within(fields, values, j) ==> !IsIana(fields[j], id)
  }

  ghost predicate NoneOf(fields: Fields, values: Values, id: u16) {
    forall j :: Within(fields, values, j) ==> !IsIana(fields[j], id)
  }

  lemma FirstLater(fields: Fields, values: Values, i: int, n: u32)
    requires fields != [] && values != [] && !(IsRate(fields[0]) && Number32(values[0]).Some?)
    ensures FirstRate(fields, values, i, n) <==> FirstRate(fields[1..], values[1..], i - 1, n)
  {
    hide Number32, IsRate;
    var fs, vs := fields[1..], values[1..];
    assert forall j :: 0 <= j < |fs| ==> fs[j] == fields[j + 1];
    assert forall j :: 0 <= j < |vs| ==> vs[j] == values[j + 1];
    if FirstRate(fs, vs, i - 1, n) {
      forall j | 0 <= j < i
        ensures !(IsRate(fields[j]) && Number32(values[j]).Some?)
      {
        assert j > 0 ==> fs[j - 1] == fields[j] && vs[j - 1] == values[j];
      }
    }
  }

  lemma {:induction false} RateSeen(s: Sampling, fields: Fields, values: Values, n: u32)
    ensures ObserveAll(s, fields, values).rate == Some(n)
       <==> if s.rate.Some? then s.rate == Some(n) else exists i :: FirstRate(fields, values, i, n)
    decreases |fields|
  {
    hide Number32;
    if fields != [] && values != [] {
      RateSeen(Observe(s, fields[0], values[0]), fields[1..], values[1..], n);
      if s.rate.None? {
        if IsRate(fields[0]) && Number32(values[0]).Some? {
          assert FirstRate(fields, values, 0, Number32(values[0]).value);
        } else {
          RateLater(fields, values, n);
        }
      }
    }
  }

  lemma RateLater(fields: Fields, values: Values, n: u32)
    requires fields != [] && values != [] && !(IsRate(fields[0]) && Number32(values[0]).Some?)
    ensures (exists i :: FirstRate(fields, values, i, n)) <==> exists i :: FirstRate(fields[1..], values[1..], i, n)
  {
    hide FirstRate, IsRate, Number32;
    if i :| FirstRate(fields, values, i, n) {
      FirstLater(fields, values, i, n);
    }
    if i :| FirstRate(fields[1..], values[1..], i, n) {
      FirstLater(fields, values, i + 1, n);
    }
  }

  lemma LastLater(fields: Fields, values: Values, id: u16, i: int)
    requires fields != [] && values != []
    ensures i > 0 ==> (LastOf(fields, values, id, i) <==> LastOf(fields[1..], values[1..], id, i - 1))
    ensures LastOf(fields, values, id, 0) <==> IsIana(fields[0], id) && NoneOf(fields[1..], values[1..], id)
  {
    hide IsIana;
    var fs, vs := fields[1..], values[1..];
    assert forall j :: Within(fs, vs, j) ==> fs[j] == fields[j + 1] && Within(fields, values, j + 1);
    assert forall j :: j > 0 && Within(fields, values, j) ==> fs[j - 1] == fields[j] && Within(fs, vs, j - 1);
  }

  /** A field of the pair is the last of its element. */
  lemma {:induction false} PairSeen(s: Sampling, fields: Fields, values: Values, i: int)
    ensures LastOf(fields, values, 305, i) ==> ObserveAll(s, fields, values).packets == Number32(values[i])
    ensures NoneOf(fields, values, 305) ==> ObserveAll(s, fields, values).packets == s.packets
    ensures LastOf(fields, values, 306, i) ==> ObserveAll(s, fields, values).space == Number32(values[i])
    ensures NoneOf(fields, values, 306) ==> ObserveAll(s, fields, values).space == s.space
    decreases |fields|
  {
    hide Number32, LastOf, NoneOf;
    if fields != [] && values != [] {
      var next := Observe(s, fields[0], values[0]);
      NoneLater(fields, values, 305);
      NoneLater(fields, values, 306);
      LastLater(fields, values, 305, i);
      LastLater(fields, values, 306, i);
      LastWithin(fields, values, i);
      PairSeen(next, fields[1..], values[1..], if i > 0 then i - 1 else 0);
    } else {
      LastWithin(fields, values, i);
    }
  }

  lemma NoneLater(fields: Fields, values: Values, id: u16)
    requires fields != [] && values != []
    ensures NoneOf(fields, values, id) <==> !IsIana(fields[0], id) && NoneOf(fields[1..], values[1..], id)
  {
    hide IsIana;
    var fs, vs := fields[1..], values[1..];
    assert forall j :: Within(fs, vs, j) ==> fs[j] == fields[j + 1] && Within(fields, values, j + 1);
    assert forall j :: j > 0 && Within(fields, values, j) ==> fs[j - 1] == fields[j] && Within(fs, vs, j - 1);
    assert Within(fields, values, 0);
  }

  lemma LastWithin(fields: Fields, values: Values, i: int)
    ensures LastOf(fields, values, 305, i) || LastOf(fields, values, 306, i) ==> Within(fields, values, i)
    ensures LastOf(fields, values, 305, i) ==> IsIana(fields[i], 305)
    ensures LastOf(fields, values, 306, i) ==> IsIana(fields[i], 306)
  {
  }

  /** A rate stated directly counts, the first that is a number; only without one does the last pair of packets taken and
      skipped, and then only if it is one in a whole number; and without the packets skipped, the packets taken. */
  lemma RateStated(record: DataRecord, i: int, k: int, n: u32)
    ensures FirstRate(record.fields, record.values, i, n) ==> OwnRate(record) == Some(n)
    ensures (forall j, m :: !FirstRate(record.fields, record.values, j, m)) ==>
      && (NoneOf(record.fields, record.values, 305) ==> OwnRate(record) == None)
      && (LastOf(record.fields, record.values, 305, i) && NoneOf(record.fields, record.values, 306) ==>
            OwnRate(record) == Number32(record.values[i]))
      && (LastOf(record.fields, record.values, 305, i) && LastOf(record.fields, record.values, 306, k) ==>
            var packets, space := Number32(record.values[i]), Number32(record.values[k]);
            if packets.Some? && packets.value > 0 && space.Some? then
              OwnRate(record) == Some(n) <==> packets.value * n == packets.value + space.value
            else OwnRate(record) == packets)
  {
    hide FirstRate, LastOf, NoneOf, Number32, ObserveAll;
    var s := ObserveAll(UNSEEN, record.fields, record.values);
    RateSeen(UNSEEN, record.fields, record.values, n);
    PairSeen(UNSEEN, record.fields, record.values, i);
    PairSeen(UNSEEN, record.fields, record.values, k);
    LastWithin(record.fields, record.values, i);
    LastWithin(record.fields, record.values, k);
    if forall j, m :: !FirstRate(record.fields, record.values, j, m) {
      if s.rate.Some? {
        RateSeen(UNSEEN, record.fields, record.values, s.rate.value);
      }
      if s.packets.Some? && s.packets.value > 0 && s.space.Some? {
        PairIsOneIn(s.packets.value, s.space.value, n);
      }
    }
  }

  // Samplers and boot times

  /** The first field of either element. */
  ghost predicate FirstOf(fields: Fields, values: Values, a: u16, b: u16, i: int) {
    && Within(fields, values, i) && (IsIana(fields[i], a) || IsIana(fields[i], b))
    && forall j :: 0 <= j < i ==> !IsIana(fields[j], a) && !IsIana(fields[j], b)
  }

  /** A record names the sampler in its first samplerId or selectorId, be it a number or not. */
  lemma {:induction false} SamplerStated(fields: Fields, values: Values, i: int)
    ensures FirstOf(fields, values, 48, 302, i) ==> SamplerIn(fields, values) == Typing.Number(values[i])
    ensures NoneOf(fields, values, 48) && NoneOf(fields, values, 302) ==> SamplerIn(fields, values) == None
    decreases |fields|
  {
    hide Typing.Number;
    if fields != [] && values != [] {
      NoneLater(fields, values, 48);
      NoneLater(fields, values, 302);
      SamplerStated(fields[1..], values[1..], i - 1);
    }
  }

  /** The first systemInitTimeMilliseconds that is a date. */
  ghost predicate FirstBoot(fields: Fields, values: Values, i: int, t: Time) {
    && Within(fields, values, i) && IsIana(fields[i], 160) && values[i] == DateTimeMilliseconds(t)
    && forall j :: 0 <= j < i ==> !(IsIana(fields[j], 160) && values[j].DateTimeMilliseconds?)
  }

  lemma {:induction false} BootStated(fields: Fields, values: Values, i: int, t: Time)
    ensures FirstBoot(fields, values, i, t) ==> BootIn(fields, values) == Some(t / 1_000_000)
    decreases |fields|
  {
    if FirstBoot(fields, values, i, t) && i > 0 {
      assert FirstBoot(fields[1..], values[1..], i - 1, t);
      BootStated(fields[1..], values[1..], i - 1, t);
    }
  }
}
