/** Producers that hand records over in batches, and what those records are item by item. */
module Pipelines {
  import opened Bytes
  import opened Sequences

  const CHUNK_RECORDS: nat := 256
  const PIPELINE_DEPTH: nat := 1024
  const CHUNK_FLUSH_TIMEOUT: nat := 100_000_000

  datatype Chunk<F> = Flows(flows: seq<F>) | Raw(lines: bytes, count: nat)

  /** What a producer holds back. */
  datatype Buffer<F> = Buffer(flows: seq<F>, raw: bytes, rawRecords: nat, rawFlows: nat)

  datatype Batch<F> = Batch(buffer: Buffer<F>, chunks: seq<Chunk<F>>)

  /** Everything held back leaves, flows first. */
  function Flushed<F>(b: Buffer<F>): Batch<F> {
    Batch(Buffer([], if b.rawRecords > 0 then [] else b.raw,
                 0, if b.rawRecords > 0 then 0 else b.rawFlows),
          (if b.flows != [] then [Flows(b.flows)] else [])
          + (if b.rawRecords > 0 then [Raw(b.raw, b.rawFlows)] else []))
  }

  function SentIfReady<F>(b: Buffer<F>, records: nat, late: bool): Batch<F> {
    if records >= CHUNK_RECORDS || late then Flushed(b) else Batch(b, [])
  }

  function PushFlows<F>(b: Buffer<F>, decoded: seq<F>, late: bool): Batch<F> {
    var more := b.(flows := b.flows + decoded);
    SentIfReady(more, |more.flows|, late)
  }

  /** A sink that discards is not given the line. */
  function PushRaw<F>(b: Buffer<F>, line: bytes, flows: nat, discard: bool, late: bool): Batch<F> {
    var more := b.(raw := if discard then b.raw else b.raw + line, rawRecords := b.rawRecords + 1,
                   rawFlows := b.rawFlows + flows);
    SentIfReady(more, more.rawRecords, late)
  }

  /** How long ago a time was; a clock never reads earlier than one read before. */
  function Elapsed(start: nat, now: nat): nat {
    if now >= start then now - start else 0
  }

  /** Nothing is held back, so the next push starts a chunk. */
  predicate Empty<F>(b: Buffer<F>) {
    b.flows == [] && b.rawRecords == 0
  }

  function StartAfter<F>(b: Buffer<F>, started: nat, now: nat): nat {
    if Empty(b) then now else started
  }

  predicate Late(started: nat, now: nat) {
    Elapsed(started, now) >= CHUNK_FLUSH_TIMEOUT
  }

  class Producer<F> {
    const discard: bool
    var flows: seq<F>
    var raw: bytes
    var rawRecords: nat
    var rawFlows: nat
    var chunkStarted: nat
    /** Chunks it waits to put on the channel. */
    var outbox: seq<Chunk<F>>
    var dropped: bool

    function Held(): Buffer<F>
      reads this
    {
      Buffer(flows, raw, rawRecords, rawFlows)
    }

    constructor (discard: bool)
      ensures this.discard == discard && Held() == Buffer([], [], 0, 0) && outbox == [] && chunkStarted == 0 && !dropped
    {
      this.discard, flows, raw, rawRecords, rawFlows, outbox, chunkStarted, dropped := discard, [], [], 0, 0, [], 0, false;
    }

    method StartChunk(now: nat)
      modifies this`chunkStarted
      ensures chunkStarted == StartAfter(Held(), old(chunkStarted), now)
    {
      if flows == [] && rawRecords == 0 {
        chunkStarted := now;
      }
    }

    /** `now` and `later` are the clock before and after the flows are decoded. */
    method Push(decoded: seq<F>, now: nat, later: nat)
      requires outbox == []
      modifies `flows, `raw, `rawRecords, `rawFlows, `chunkStarted, `outbox
      ensures chunkStarted == StartAfter(old(Held()), old(chunkStarted), now)
      ensures Batch(Held(), outbox) == PushFlows(old(Held()), decoded, Late(chunkStarted, later))
    {
      StartChunk(now);
      flows := flows + decoded;
      SendIfReady(|flows|, later);
    }

    method PushLine(line: bytes, count: nat, now: nat, later: nat)
      requires outbox == []
      modifies `flows, `raw, `rawRecords, `rawFlows, `chunkStarted, `outbox
      ensures chunkStarted == StartAfter(old(Held()), old(chunkStarted), now)
      ensures Batch(Held(), outbox) == PushRaw(old(Held()), line, count, discard, Late(chunkStarted, later))
    {
      StartChunk(now);
      if !discard {
        raw := raw + line;
      }
      rawRecords := rawRecords + 1;
      rawFlows := rawFlows + count;
      SendIfReady(rawRecords, later);
    }

    method SendIfReady(records: nat, now: nat)
      requires outbox == []
      modifies `flows, `raw, `rawRecords, `rawFlows, `outbox
      ensures Batch(Held(), outbox) == SentIfReady(old(Held()), records, Late(chunkStarted, now))
    {
      if records >= CHUNK_RECORDS || Late(chunkStarted, now) {
        Flush();
      }
    }

    method Flush()
      requires outbox == []
      modifies `flows, `raw, `rawRecords, `rawFlows, `outbox
      ensures Batch(Held(), outbox) == Flushed(old(Held()))
    {
      if flows != [] {
        var full := flows;
        flows := [];
        outbox := outbox + [Flows(full)];
      }
      if rawRecords > 0 {
        var lines, count := raw, rawFlows;
        raw, rawFlows, rawRecords := [], 0, 0;
        outbox := outbox + [Raw(lines, count)];
      }
    }

    method Drop()
      requires outbox == []
      modifies `flows, `raw, `rawRecords, `rawFlows, `outbox, `dropped
      ensures Batch(Held(), outbox) == Flushed(old(Held())) && dropped
    {
      Flush();
      dropped := true;
    }

    /** The channel has room for the next chunk. */
    method SendOne() returns (chunk: Chunk<F>)
      requires outbox != []
      modifies `outbox
      ensures old(outbox) == [chunk] + outbox
    {
      chunk := outbox[0];
      outbox := outbox[1..];
    }
  }

  // What is pushed and what is encoded, item by item

  datatype Item<F> = Flow(flow: F) | Octet(octet: u8)

  function FlowItems<F>(fs: seq<F>): (r: seq<Item<F>>)
    ensures |r| == |fs| && forall i :: 0 <= i < |r| ==> r[i] == Flow(fs[i])
  {
    seq(|fs|, i requires 0 <= i < |fs| => Flow(fs[i]))
  }

  function OctetItems<F>(b: bytes): (r: seq<Item<F>>)
    ensures |r| == |b| && forall i :: 0 <= i < |r| ==> r[i] == Octet(b[i])
  {
    seq(|b|, i requires 0 <= i < |b| => Octet(b[i]))
  }

  function ChunkItems<F>(c: Chunk<F>): seq<Item<F>> {
    match c
    case Flows(fs) => FlowItems(fs)
    case Raw(lines, _) => OctetItems(lines)
  }

  function Items<F>(cs: seq<Chunk<F>>): seq<Item<F>> {
    if cs == [] then [] else ChunkItems(cs[0]) + Items(cs[1..])
  }

  function FlowIn<F>(item: Item<F>): seq<F> {
    if item.Flow? then [item.flow] else []
  }

  function OctetIn<F>(item: Item<F>): bytes {
    if item.Octet? then [item.octet] else []
  }

  function FlowsIn<F>(items: seq<Item<F>>): seq<F> {
    if items == [] then [] else FlowIn(items[0]) + FlowsIn(items[1..])
  }

  function OctetsIn<F>(items: seq<Item<F>>): bytes {
    if items == [] then [] else OctetIn(items[0]) + OctetsIn(items[1..])
  }

  /** No flow comes after an octet. */
  ghost predicate FlowsFirst<F>(items: seq<Item<F>>) {
    forall i, j :: 0 <= i < j < |items| && items[i].Octet? ==> items[j].Octet?
  }

  lemma {:induction false} ItemsConcat<F>(a: seq<Chunk<F>>, b: seq<Chunk<F>>)
    ensures Items(a + b) == Items(a) + Items(b)
  {
    hide ChunkItems;
    if a == [] {
      assert a + b == b;
    } else {
      ItemsConcat(a[1..], b);
      assert (a + b)[1..] == a[1..] + b;
      Regroup(ChunkItems(a[0]), Items(a[1..]), Items(b));
    }
  }

  lemma {:induction false} InConcat<F>(a: seq<Item<F>>, b: seq<Item<F>>)
    ensures FlowsIn(a + b) == FlowsIn(a) + FlowsIn(b)
    ensures OctetsIn(a + b) == OctetsIn(a) + OctetsIn(b)
  {
    hide FlowIn, OctetIn;
    if a == [] {
      assert a + b == b;
    } else {
      InConcat(a[1..], b);
      assert (a + b)[1..] == a[1..] + b;
      Regroup(FlowIn(a[0]), FlowsIn(a[1..]), FlowsIn(b));
      Regroup(OctetIn(a[0]), OctetsIn(a[1..]), OctetsIn(b));
    }
  }

  lemma {:induction false} OfFlows<F>(fs: seq<F>)
    ensures FlowsIn(FlowItems(fs)) == fs && OctetsIn(FlowItems(fs)) == []
  {
    if fs != [] {
      OfFlows(fs[1..]);
      assert FlowItems(fs)[1..] == FlowItems(fs[1..]);
    }
  }

  lemma {:induction false} OfOctets<F>(b: bytes)
    ensures OctetsIn<F>(OctetItems(b)) == b && FlowsIn<F>(OctetItems(b)) == []
  {
    if b != [] {
      OfOctets<F>(b[1..]);
      assert OctetItems<F>(b)[1..] == OctetItems(b[1..]);
    }
  }

  lemma {:induction false} InSizes<F>(items: seq<Item<F>>)
    ensures |FlowsIn(items)| + |OctetsIn(items)| == |items|
    ensures |OctetsIn(items)| == 0 <==> forall i :: 0 <= i < |items| ==> items[i].Flow?
  {
    if items != [] {
      InSizes(items[1..]);
      assert items == [items[0]] + items[1..];
    }
  }

  /** What a flush makes of the items pushed since the last. */
  function Sorted<F>(items: seq<Item<F>>): seq<Item<F>> {
    FlowItems(FlowsIn(items)) + OctetItems(OctetsIn(items))
  }

  /** A flush keeps the order exactly when flows came first. */
  lemma {:induction false} SortedSame<F>(items: seq<Item<F>>)
    ensures Sorted(items) == items <==> FlowsFirst(items)
    ensures |Sorted(items)| == |items|
  {
    InSizes(items);
    if FlowsFirst(items) {
      FlowsFirstIsSorted(items);
    }
  }

  lemma SortedStep<F>(items: seq<Item<F>>)
    requires items != [] && (items[0].Flow? || FlowsIn(items) == [])
    ensures Sorted(items) == [items[0]] + Sorted(items[1..])
  {
    hide FlowItems, OctetItems;
    var fs, b := FlowsIn(items[1..]), OctetsIn(items[1..]);
    if items[0].Flow? {
      FlowItemsStep(items[0].flow, fs);
      assert [] + b == b;
      Regroup([items[0]], FlowItems(fs), OctetItems(b));
    } else {
      assert FlowItems(fs) == [];
      OctetItemsStep<F>(items[0].octet, b);
    }
  }

  lemma FlowItemsStep<F>(f: F, fs: seq<F>)
    ensures FlowItems([f] + fs) == [Flow(f)] + FlowItems(fs)
  {
  }

  lemma OctetItemsStep<F>(o: u8, b: bytes)
    ensures OctetItems<F>([o] + b) == [Octet(o)] + OctetItems(b)
  {
  }

  lemma {:induction false} FlowsFirstIsSorted<F>(items: seq<Item<F>>)
    requires FlowsFirst(items)
    ensures Sorted(items) == items
  {
    hide Sorted;
    if items == [] {
      assert Sorted(items) == [] by {
        NothingSorted<F>();
      }
    } else {
      if items[0].Octet? {
        OnlyOctets(items);
      }
      SortedStep(items);
      FlowsFirstIsSorted(items[1..]);
      assert items == [items[0]] + items[1..];
    }
  }

  lemma NothingSorted<F>()
    ensures Sorted<F>([]) == []
  {
  }

  lemma {:induction false} OnlyOctets<F>(items: seq<Item<F>>)
    requires forall i :: 0 <= i < |items| ==> items[i].Octet?
    ensures FlowsIn(items) == []
  {
    if items != [] {
      OnlyOctets(items[1..]);
    }
  }
}
