/** Runs of the pipeline: producers, the bounded channel and the encoder, interleaved in any way. */
module PipelineRunning {
  import opened Bytes
  import opened Pipelines
  import opened Sequences

  datatype Tagged<F> = Tagged(producer: nat, chunk: Chunk<F>)

  /** A producer, the chunks it has yet to put on the channel, and what was pushed: up to its last flush, and since.
      `orderly` while no flow was pushed with raw octets held back. */
  datatype Ingest<F> = Ingest(
    buffer: Buffer<F>, outbox: seq<Chunk<F>>, dropped: bool,
    done: seq<Item<F>>, held: seq<Item<F>>, orderly: bool)
  {
    function Pushed(): seq<Item<F>> {
      done + held
    }
  }

  datatype State<F> = State(ingests: seq<Ingest<F>>, channel: seq<Tagged<F>>, encoded: seq<Tagged<F>>)

  datatype Event<F> =
    | DoPush(ingest: nat, decoded: seq<F>, late: bool)
    | DoPushRaw(ingest: nat, line: bytes, flows: nat, late: bool)
    | DoFlush(ingest: nat)
    | DoDrop(ingest: nat)
    | Send(ingest: nat)
    | Encode

  function Fresh<F>(): Ingest<F> {
    Ingest(Buffer([], [], 0, 0), [], false, [], [], true)
  }

  function Start<F>(n: nat): State<F> {
    State(seq(n, _ => Fresh()), [], [])
  }

  /** What is pushed joins the items held; whatever is flushed with it takes them all along. */
  function After<F>(p: Ingest<F>, batch: Batch<F>, items: seq<Item<F>>, flushed: bool, orderly: bool): Ingest<F> {
    Ingest(batch.buffer, batch.chunks, p.dropped,
           if flushed then p.done + (p.held + items) else p.done,
           if flushed then [] else p.held + items,
           orderly)
  }

  function Advance<F>(p: Ingest<F>, discard: bool, e: Event<F>): Ingest<F> {
    match e
    case DoPush(_, decoded, late) =>
      var flushed := late || |p.buffer.flows + decoded| >= CHUNK_RECORDS;
      After(p, PushFlows(p.buffer, decoded, late), FlowItems(decoded), flushed,
            p.orderly && (decoded == [] || p.buffer.raw == []))
    case DoPushRaw(_, line, flows, late) =>
      var flushed := late || p.buffer.rawRecords + 1 >= CHUNK_RECORDS;
      After(p, PushRaw(p.buffer, line, flows, discard, late), if discard then [] else OctetItems(line), flushed, p.orderly)
    case DoFlush(_) => After(p, Flushed(p.buffer), [], true, p.orderly)
    case DoDrop(_) => After(p, Flushed(p.buffer), [], true, p.orderly).(dropped := true)
    case _ => p
  }

  /** A producer pushes only when nothing of it waits for room on the channel; a step not possible does nothing. */
  function Step<F>(s: State<F>, discard: bool, e: Event<F>): (r: State<F>)
    ensures |r.ingests| == |s.ingests|
  {
    match e
    case Encode =>
      if s.channel == [] then s else s.(channel := s.channel[1..], encoded := s.encoded + [s.channel[0]])
    case Send(i) =>
      if i >= |s.ingests| || s.ingests[i].outbox == [] || |s.channel| >= PIPELINE_DEPTH then s
      else
        var p := s.ingests[i];
        State(s.ingests[i := p.(outbox := p.outbox[1..])], s.channel + [Tagged(i, p.outbox[0])], s.encoded)
    case _ =>
      if e.ingest >= |s.ingests| || s.ingests[e.ingest].outbox != [] || s.ingests[e.ingest].dropped then s
      else s.(ingests := s.ingests[e.ingest := Advance(s.ingests[e.ingest], discard, e)])
  }

  function Run<F>(n: nat, discard: bool, events: seq<Event<F>>): (r: State<F>)
    ensures |r.ingests| == n
  {
    if events == [] then Start(n)
    else Step(Run(n, discard, events[..|events| - 1]), discard, events[|events| - 1])
  }

  /** The chunks of one producer, in order. */
  function Of<F>(cs: seq<Tagged<F>>, i: nat): seq<Chunk<F>> {
    if cs == [] then []
    else (if cs[0].producer == i then [cs[0].chunk] else []) + Of(cs[1..], i)
  }

  lemma {:induction false} OfConcat<F>(a: seq<Tagged<F>>, b: seq<Tagged<F>>, i: nat)
    ensures Of(a + b, i) == Of(a, i) + Of(b, i)
  {
    if a == [] {
      assert a + b == b;
    } else {
      OfConcat(a[1..], b, i);
      assert (a + b)[1..] == a[1..] + b;
    }
  }

  /** The chunks a producer has let go of: encoded, on the channel, or waiting for room on it. */
  function Gone<F>(s: State<F>, i: nat): seq<Chunk<F>>
    requires i < |s.ingests|
  {
    Of(s.encoded + s.channel, i) + s.ingests[i].outbox
  }

  /** What a producer holds back is what was pushed since its last flush. */
  ghost predicate BufferHolds<F>(p: Ingest<F>) {
    && p.buffer.flows == FlowsIn(p.held) && p.buffer.raw == OctetsIn(p.held)
    && |p.buffer.flows| < CHUNK_RECORDS && p.buffer.rawRecords < CHUNK_RECORDS
    && (p.buffer.rawRecords == 0 ==> p.buffer.raw == [])
  }

  /** What a producer has let go of is what was pushed until its last flush: each kind in order, and all of it in order
      exactly when the pushes were orderly. */
  ghost predicate Accounts<F>(p: Ingest<F>, gone: seq<Chunk<F>>) {
    && FlowsIn(Items(gone)) == FlowsIn(p.done) && OctetsIn(Items(gone)) == OctetsIn(p.done)
    && (p.orderly <==> Items(gone) == p.done && FlowsFirst(p.held))
  }

  ghost predicate Keeps<F>(s: State<F>) {
    && |s.channel| <= PIPELINE_DEPTH
    && forall i :: 0 <= i < |s.ingests| ==> BufferHolds(s.ingests[i]) && Accounts(s.ingests[i], Gone(s, i))
  }

  // Pushing

  lemma FlushedItems<F>(b: Buffer<F>)
    requires b.rawRecords == 0 ==> b.raw == []
    ensures Items(Flushed(b).chunks) == FlowItems(b.flows) + OctetItems(b.raw)
    ensures Flushed(b).buffer.flows == [] && Flushed(b).buffer.raw == [] && Flushed(b).buffer.rawRecords == 0
  {
    var fs: seq<Chunk<F>> := if b.flows != [] then [Flows(b.flows)] else [];
    var rs: seq<Chunk<F>> := if b.rawRecords > 0 then [Raw(b.raw, b.rawFlows)] else [];
    ItemsConcat(fs, rs);
    assert Items(fs) == FlowItems(b.flows) by {
      assert fs != [] ==> fs[1..] == [];
    }
    assert Items(rs) == OctetItems(b.raw) by {
      assert rs != [] ==> rs[1..] == [];
    }
  }

  /** A flush sends what is held, flows first. */
  lemma FlushAccounts<F>(p: Ingest<F>, gone: seq<Chunk<F>>, chunks: seq<Chunk<F>>)
    requires Accounts(p, gone) && Items(chunks) == Sorted(p.held)
    ensures Accounts(p.(done := p.done + p.held, held := []), gone + chunks)
  {
    hide Items, Sorted, FlowsIn, OctetsIn;
    ItemsConcat(gone, chunks);
    InConcat(Items(gone), Items(chunks));
    InConcat(p.done, p.held);
    SortedIn(p.held);
    SortedSame(p.held);
    AccountedSizes(Items(gone), p.done);
    ConcatSame(Items(gone), p.done, Sorted(p.held), p.held);
  }

  lemma ConcatSame<T>(a: seq<T>, b: seq<T>, c: seq<T>, d: seq<T>)
    requires |a| == |b|
    ensures a + c == b + d <==> a == b && c == d
  {
    assert (a + c)[..|a|] == a && (a + c)[|a|..] == c;
    assert (b + d)[..|b|] == b && (b + d)[|b|..] == d;
  }

  lemma AccountedSizes<F>(a: seq<Item<F>>, b: seq<Item<F>>)
    requires FlowsIn(a) == FlowsIn(b) && OctetsIn(a) == OctetsIn(b)
    ensures |a| == |b|
  {
    InSizes(a);
    InSizes(b);
  }

  lemma SortedIn<F>(items: seq<Item<F>>)
    ensures FlowsIn(Sorted(items)) == FlowsIn(items) && OctetsIn(Sorted(items)) == OctetsIn(items)
  {
    var fs, b := FlowsIn(items), OctetsIn(items);
    InConcat(FlowItems(fs), OctetItems(b));
    OfFlows(fs);
    OfOctets<F>(b);
  }

  lemma FlowsBehind<F>(held: seq<Item<F>>, decoded: seq<F>)
    ensures FlowsFirst(held + FlowItems(decoded)) <==> FlowsFirst(held) && (decoded == [] || OctetsIn(held) == [])
  {
    var all := held + FlowItems(decoded);
    InSizes(held);
    if FlowsFirst(all) {
      forall i, j | 0 <= i < j < |held| && held[i].Octet?
        ensures held[j].Octet?
      {
        assert all[i] == held[i] && all[j] == held[j];
      }
      if decoded != [] {
        forall i | 0 <= i < |held|
          ensures held[i].Flow?
        {
          assert all[i] == held[i] && all[|held|] == FlowItems(decoded)[0];
        }
      }
    }
  }

  lemma OctetsBehind<F>(held: seq<Item<F>>, line: bytes)
    ensures FlowsFirst(held + OctetItems(line)) <==> FlowsFirst(held)
  {
    var all := held + OctetItems(line);
    if FlowsFirst(all) {
      forall i, j | 0 <= i < j < |held| && held[i].Octet?
        ensures held[j].Octet?
      {
        assert all[i] == held[i] && all[j] == held[j];
      }
    }
  }

  /** Items pushed behind those held, and then perhaps flushed. */
  lemma ItemsPushed<F>(
    p: Ingest<F>, more: Buffer<F>, items: seq<Item<F>>, flushed: bool, orderly: bool, gone: seq<Chunk<F>>)
    requires BufferHolds(p) && Accounts(p, gone)
    requires more.flows == p.buffer.flows + FlowsIn(items) && more.raw == p.buffer.raw + OctetsIn(items)
    requires more.rawRecords == 0 ==> more.raw == []
    requires !flushed ==> |more.flows| < CHUNK_RECORDS && more.rawRecords < CHUNK_RECORDS
    requires orderly <==> p.orderly && FlowsFirst(p.held + items)
    requires FlowsFirst(p.held + items) ==> FlowsFirst(p.held)
    ensures var r := After(p, if flushed then Flushed(more) else Batch(more, []), items, flushed, orderly);
            BufferHolds(r) && Accounts(r, gone + r.outbox)
  {
    hide FlowsFirst, Items, FlowsIn, OctetsIn, Flushed;
    InConcat(p.held, items);
    var q := p.(held := p.held + items, orderly := orderly);
    assert Accounts(q, gone);
    if flushed {
      FlushedItems(more);
      FlushAccounts(q, gone, Flushed(more).chunks);
      NothingHeld<F>();
    } else {
      assert gone + [] == gone;
    }
  }

  lemma NothingHeld<F>()
    ensures FlowsIn<F>([]) == [] && OctetsIn<F>([]) == []
  {
  }

  /** Every call of a producer keeps its account. */
  lemma AdvanceKeeps<F>(p: Ingest<F>, discard: bool, e: Event<F>, gone: seq<Chunk<F>>)
    requires BufferHolds(p) && Accounts(p, gone) && p.outbox == [] && !e.Encode? && !e.Send?
    ensures var r := Advance(p, discard, e); BufferHolds(r) && Accounts(r, gone + r.outbox)
  {
    hide FlowsFirst, Items, FlowsIn, OctetsIn, Flushed;
    var b := p.buffer;
    NothingHeld<F>();
    assert p.held + [] == p.held && b.flows + [] == b.flows && b.raw + [] == b.raw;
    match e {
      case DoPush(_, decoded, late) =>
        OfFlows(decoded);
        FlowsBehind(p.held, decoded);
        ItemsPushed(p, b.(flows := b.flows + decoded), FlowItems(decoded),
                    late || |b.flows + decoded| >= CHUNK_RECORDS,
                    p.orderly && (decoded == [] || b.raw == []), gone);
      case DoPushRaw(_, line, flows, late) =>
        var kept := if discard then [] else line;
        OfOctets<F>(kept);
        OctetsBehind(p.held, kept);
        assert OctetItems<F>([]) == [];
        ItemsPushed(p, b.(raw := b.raw + kept, rawRecords := b.rawRecords + 1, rawFlows := b.rawFlows + flows),
                    OctetItems(kept), late || b.rawRecords + 1 >= CHUNK_RECORDS, p.orderly, gone);
      case _ =>
        ItemsPushed(p, b, [], true, p.orderly, gone);
    }
  }

  // Runs

  lemma OneOf<F>(t: Tagged<F>, i: nat)
    ensures Of([t], i) == if t.producer == i then [t.chunk] else []
  {
    assert [t][1..] == [];
  }

  lemma StepKeeps<F>(s: State<F>, discard: bool, e: Event<F>)
    requires Keeps(s)
    ensures Keeps(Step(s, discard, e))
  {
    hide BufferHolds, Accounts, Advance, Of;
    var r := Step(s, discard, e);
    forall i | 0 <= i < |s.ingests|
      ensures BufferHolds(r.ingests[i]) && Accounts(r.ingests[i], Gone(r, i))
    {
      assert BufferHolds(s.ingests[i]) && Accounts(s.ingests[i], Gone(s, i));
      match e {
        case Encode =>
          if s.channel != [] {
            assert s.encoded + s.channel == s.encoded + [s.channel[0]] + s.channel[1..];
          }
        case Send(j) =>
          if r != s {
            SendKeeps(s, j, i);
          }
        case _ =>
          if r != s && e.ingest == i {
            AdvanceKeeps(s.ingests[i], discard, e, Gone(s, i));
            assert Gone(s, i) == Of(s.encoded + s.channel, i);
          }
      }
    }
  }

  lemma SendKeeps<F>(s: State<F>, j: nat, i: nat)
    requires Keeps(s) && j < |s.ingests| && s.ingests[j].outbox != [] && |s.channel| < PIPELINE_DEPTH
    requires i < |s.ingests|
    ensures var r := Step(s, false, Send(j));
            Gone(r, i) == Gone(s, i) && BufferHolds(r.ingests[i]) && Accounts(r.ingests[i], Gone(s, i))
  {
    hide FlowsFirst, Items, FlowsIn, OctetsIn, Of;
    var t := Tagged(j, s.ingests[j].outbox[0]);
    assert s.encoded + (s.channel + [t]) == s.encoded + s.channel + [t];
    OfConcat(s.encoded + s.channel, [t], i);
    OneOf(t, i);
    if i == j {
      assert s.ingests[j].outbox == [t.chunk] + s.ingests[j].outbox[1..];
    } else {
      assert Of(s.encoded + s.channel, i) + [] == Of(s.encoded + s.channel, i);
    }
    assert BufferHolds(s.ingests[i]) && Accounts(s.ingests[i], Gone(s, i));
  }

  /** Over any run the channel holds no more than its depth, each producer holds back fewer than a chunk of flows and of
      lines, and everything pushed is encoded, on its way, or held back. */
  lemma {:induction false} RunKeeps<F>(n: nat, discard: bool, events: seq<Event<F>>)
    ensures Keeps(Run(n, discard, events))
  {
    hide Step;
    if events == [] {
      StartKeeps<F>(n);
    } else {
      RunKeeps(n, discard, events[..|events| - 1]);
      StepKeeps(Run(n, discard, events[..|events| - 1]), discard, events[|events| - 1]);
    }
  }

  lemma StartKeeps<F>(n: nat)
    ensures Keeps(Start<F>(n))
  {
    forall i | 0 <= i < n
      ensures BufferHolds(Fresh<F>()) && Accounts(Fresh<F>(), Gone(Start<F>(n), i))
    {
      assert Of<F>([] + [], i) == [];
    }
  }

  // The end

  /** Every producer is gone, and the encoder has drained the channel. */
  ghost predicate Finished<F>(s: State<F>) {
    s.channel == [] && forall i :: 0 <= i < |s.ingests| ==> s.ingests[i].dropped && s.ingests[i].outbox == []
  }

  /** A dropped producer holds nothing back. */
  lemma {:induction false} DroppedHoldNothing<F>(n: nat, discard: bool, events: seq<Event<F>>, i: nat)
    requires i < n && Run(n, discard, events).ingests[i].dropped
    ensures Run(n, discard, events).ingests[i].held == []
  {
    if events != [] {
      var before, e := Run(n, discard, events[..|events| - 1]), events[|events| - 1];
      if before.ingests[i].dropped {
        DroppedHoldNothing(n, discard, events[..|events| - 1], i);
      }
    }
  }

  // What the events say of a producer

  /** A call of the producer is carried out: it is not waiting for room, and not dropped. */
  predicate CanCall<F>(s: State<F>, i: nat) {
    i < |s.ingests| && s.ingests[i].outbox == [] && !s.ingests[i].dropped
  }

  /** What the producer is given, in order. */
  function Given<F>(n: nat, discard: bool, events: seq<Event<F>>, i: nat): seq<Item<F>> {
    if events == [] then []
    else
      var before, e := events[..|events| - 1], events[|events| - 1];
      Given(n, discard, before, i) +
        if !CanCall(Run(n, discard, before), i) then []
        else if e.DoPush? && e.ingest == i then FlowItems(e.decoded)
        else if e.DoPushRaw? && e.ingest == i && !discard then OctetItems(e.line)
        else []
  }

  /** Whenever flows were pushed, no raw octets were held back. */
  predicate PushesInOrder<F>(n: nat, discard: bool, events: seq<Event<F>>, i: nat) {
    events == [] ||
    (var before, e := events[..|events| - 1], events[|events| - 1];
     var s := Run(n, discard, before);
     && PushesInOrder(n, discard, before, i)
     && (CanCall(s, i) && e.DoPush? && e.ingest == i && e.decoded != [] ==> s.ingests[i].buffer.raw == []))
  }

  lemma {:induction false} GivenIsPushed<F>(n: nat, discard: bool, events: seq<Event<F>>, i: nat)
    requires i < n
    ensures Run(n, discard, events).ingests[i].Pushed() == Given(n, discard, events, i)
    ensures Run(n, discard, events).ingests[i].orderly <==> PushesInOrder(n, discard, events, i)
  {
    if events == [] {
    } else {
      var before, e := events[..|events| - 1], events[|events| - 1];
      GivenIsPushed(n, discard, before, i);
      CallPushes(Run(n, discard, before), discard, e, i);
    }
  }

  lemma CallPushes<F>(s: State<F>, discard: bool, e: Event<F>, i: nat)
    requires i < |s.ingests|
    ensures var p, q := s.ingests[i], Step(s, discard, e).ingests[i];
            && q.Pushed() == p.Pushed() +
                 (if !CanCall(s, i) then []
                  else if e.DoPush? && e.ingest == i then FlowItems(e.decoded)
                  else if e.DoPushRaw? && e.ingest == i && !discard then OctetItems(e.line)
                  else [])
            && (q.orderly <==>
                (p.orderly && (CanCall(s, i) && e.DoPush? && e.ingest == i && e.decoded != [] ==> p.buffer.raw == [])))
  {
    hide PushFlows, PushRaw, Flushed, FlowItems, OctetItems;
    var p := s.ingests[i];
    match e {
      case DoPush(_, decoded, _) =>
        Regroup(p.done, p.held, FlowItems(decoded));
      case DoPushRaw(_, line, _, _) =>
        Regroup(p.done, p.held, if discard then [] else OctetItems(line));
      case _ =>
    }
  }

  lemma {:induction false} TagsBelow<F>(n: nat, discard: bool, events: seq<Event<F>>)
    ensures var r := Run(n, discard, events); forall t :: t in r.encoded || t in r.channel ==> t.producer < n
  {
    if events != [] {
      TagsBelow(n, discard, events[..|events| - 1]);
    }
  }

  /** At the end, whatever the interleaving, each producer's flows are all encoded once and in order, and its octets
      likewise; nothing else is encoded; and all it was given is encoded in order exactly when it was never given a flow
      while raw octets were held back. */
  lemma NothingLost<F>(n: nat, discard: bool, events: seq<Event<F>>, i: nat)
    requires i < n && Finished(Run(n, discard, events))
    ensures var r := Run(n, discard, events);
            var encoded, given := Items(Of(r.encoded, i)), Given(n, discard, events, i);
            && FlowsIn(encoded) == FlowsIn(given) && OctetsIn(encoded) == OctetsIn(given)
            && (encoded == given <==> PushesInOrder(n, discard, events, i))
            && forall t :: t in r.encoded ==> t.producer < n
  {
    hide Items, FlowsIn, OctetsIn, Run, Of, BufferHolds, Given, PushesInOrder;
    var r := Run(n, discard, events);
    RunKeeps(n, discard, events);
    DroppedHoldNothing(n, discard, events, i);
    GivenIsPushed(n, discard, events, i);
    TagsBelow(n, discard, events);
    assert r.encoded + r.channel == r.encoded;
    assert Gone(r, i) == Of(r.encoded, i);
    assert Accounts(r.ingests[i], Gone(r, i));
    assert r.ingests[i].done + [] == r.ingests[i].done;
  }

  /** The producer is given raw lines only, or flows only, as an ingest loop does. */
  predicate OneKind<F>(events: seq<Event<F>>, i: nat) {
    || (forall k :: 0 <= k < |events| && events[k].DoPushRaw? && events[k].ingest == i ==> events[k].line == [])
    || (forall k :: 0 <= k < |events| && events[k].DoPush? && events[k].ingest == i ==> events[k].decoded == [])
  }

  lemma {:induction false} NoRawHeld<F>(n: nat, discard: bool, events: seq<Event<F>>, i: nat)
    requires i < n
    requires forall k :: 0 <= k < |events| && events[k].DoPushRaw? && events[k].ingest == i ==> events[k].line == []
    ensures Run(n, discard, events).ingests[i].buffer.raw == []
  {
    if events != [] {
      var before, e := events[..|events| - 1], events[|events| - 1];
      assert forall k :: 0 <= k < |before| ==> before[k] == events[k];
      NoRawHeld(n, discard, before, i);
    }
  }

  lemma {:induction false} OneKindInOrder<F>(n: nat, discard: bool, events: seq<Event<F>>, i: nat)
    requires i < n && OneKind(events, i)
    ensures PushesInOrder(n, discard, events, i)
  {
    hide Run;
    if events != [] {
      var before, e := events[..|events| - 1], events[|events| - 1];
      assert forall k :: 0 <= k < |before| ==> before[k] == events[k];
      OneKindInOrder(n, discard, before, i);
      if e.DoPush? && e.ingest == i && e.decoded != [] {
        assert events[|events| - 1] == e;
        NoRawHeld(n, discard, before, i);
      }
    }
  }

  /** A producer given one kind only, as every producer of the program is, has all it was given encoded, in order. */
  lemma OneKindEncodedInOrder<F>(n: nat, discard: bool, events: seq<Event<F>>, i: nat)
    requires i < n && Finished(Run(n, discard, events)) && OneKind(events, i)
    ensures Items(Of(Run(n, discard, events).encoded, i)) == Given(n, discard, events, i)
  {
    hide Run, OneKind, Given, PushesInOrder, Items, Of, Finished;
    OneKindInOrder(n, discard, events, i);
    NothingLost(n, discard, events, i);
  }

  lemma RunStep<F>(n: nat, discard: bool, events: seq<Event<F>>, e: Event<F>)
    ensures Run(n, discard, events + [e]) == Step(Run(n, discard, events), discard, e)
  {
    assert (events + [e])[..|events|] == events;
  }

  /** A line, then a flow. */
  function MixedItems(): seq<Item<int>> {
    [Octet(123), Flow(7)]
  }

  function MixedChunks(): seq<Chunk<int>> {
    [Flows([7]), Raw([123], 1)]
  }

  function MixedIngest(outbox: seq<Chunk<int>>): Ingest<int> {
    Ingest(Buffer([], [], 0, 0), outbox, true, MixedItems(), [], false)
  }

  lemma MixedLine()
    ensures Step(Start<int>(1), false, DoPushRaw(0, [123], 1, false)).ingests
         == [Ingest(Buffer([], [123], 1, 1), [], false, [], [Octet(123)], true)]
  {
    var p := Fresh<int>();
    assert OctetItems<int>([123]) == [Octet(123)];
    assert p.buffer.raw + [123] == [123];
    assert p.held + [Octet(123)] == [Octet(123)];
    assert Advance(p, false, DoPushRaw(0, [123], 1, false))
        == Ingest(Buffer([], [123], 1, 1), [], false, [], [Octet(123)], true);
  }

  lemma MixedFlow(s: State<int>)
    requires s.ingests == [Ingest(Buffer([], [123], 1, 1), [], false, [], [Octet(123)], true)]
    ensures Step(s, false, DoPush(0, [7], false)).ingests
         == [Ingest(Buffer([7], [123], 1, 1), [], false, [], MixedItems(), false)]
  {
    var p := s.ingests[0];
    assert FlowItems([7]) == [Flow(7)];
    assert p.buffer.flows + [7] == [7];
    assert p.held + [Flow(7)] == MixedItems();
    assert Advance(p, false, DoPush(0, [7], false))
        == Ingest(Buffer([7], [123], 1, 1), [], false, [], MixedItems(), false);
  }

  lemma MixedDrop(s: State<int>)
    requires s.ingests == [Ingest(Buffer([7], [123], 1, 1), [], false, [], MixedItems(), false)]
    ensures Step(s, false, DoDrop(0)).ingests == [MixedIngest(MixedChunks())]
  {
    assert [] + (MixedItems() + []) == MixedItems();
    assert Flushed(Buffer([7], [123], 1, 1)).chunks == MixedChunks();
  }

  lemma MixedSend(s: State<int>)
    requires s.ingests == [MixedIngest(MixedChunks())] && s.channel == []
    ensures var r := Step(Step(s, false, Send(0)), false, Send(0));
            && r.ingests == [MixedIngest([])] && r.encoded == s.encoded
            && r.channel == [Tagged(0, Flows([7])), Tagged(0, Raw([123], 1))]
  {
    var one: seq<Chunk<int>> := [Raw([123], 1)];
    assert MixedChunks()[1..] == one && one[1..] == [];
    var t := Step(s, false, Send(0));
    assert t.ingests == [MixedIngest(one)];
    assert t.channel == [Tagged(0, Flows([7]))];
    var r := Step(t, false, Send(0));
    assert r.ingests == [MixedIngest([])];
    assert r.channel == t.channel + [Tagged(0, one[0])];
  }

  lemma MixedEncode(s: State<int>)
    requires s.ingests == [MixedIngest([])] && s.encoded == []
    requires s.channel == [Tagged(0, Flows([7])), Tagged(0, Raw([123], 1))]
    ensures var r := Step(Step(s, false, Encode), false, Encode);
            && r.ingests == s.ingests && r.channel == [] && r.encoded == s.channel
  {
    assert [] + [s.channel[0]] + [s.channel[1]] == s.channel;
  }

  lemma MixedOrder()
    ensures Items(Of([Tagged(0, Flows([7])), Tagged(0, Raw([123], 1))], 0)) == [Flow(7), Octet(123)]
  {
    OneOf<int>(Tagged(0, Raw([123], 1)), 0);
    assert [Tagged(0, Flows([7])), Tagged(0, Raw([123], 1))][1..] == [Tagged(0, Raw([123], 1))];
    assert Of([Tagged(0, Flows([7])), Tagged(0, Raw([123], 1))], 0) == MixedChunks();
    assert MixedChunks()[1..] == [Raw([123], 1)];
    assert FlowItems([7]) == [Flow(7)] && OctetItems<int>([123]) == [Octet(123)];
    assert Items<int>([Raw([123], 1)]) == [Octet(123)];
  }

  /** Mixing the two kinds can change their order: a line, then a flow, are encoded the other way round. */
  lemma MixedOutOfOrder()
    ensures exists events: seq<Event<int>> ::
      var r := Run(1, false, events);
      Finished(r) && r.ingests[0].Pushed() == [Octet(123), Flow(7)] && Items(Of(r.encoded, 0)) == [Flow(7), Octet(123)]
  {
    hide Run, Step, Items, Of;
    var s0 := Start<int>(1);
    StartsEmpty<int>();
    var es1 := [DoPushRaw(0, [123], 1, false)];
    var es2 := es1 + [DoPush(0, [7], false)];
    var es3 := es2 + [DoDrop(0)];
    var es4 := es3 + [Send(0)];
    var es5 := es4 + [Send(0)];
    var es6 := es5 + [Encode];
    var es7 := es6 + [Encode];
    assert [] + es1 == es1;
    RunStep(1, false, [], es1[0]);
    RunStep(1, false, es1, DoPush(0, [7], false));
    RunStep(1, false, es2, DoDrop(0));
    RunStep(1, false, es3, Send(0));
    RunStep(1, false, es4, Send(0));
    RunStep(1, false, es5, Encode);
    RunStep(1, false, es6, Encode);
    CallsOnly(s0, es1[0]);
    CallsOnly(Run(1, false, es1), DoPush(0, [7], false));
    CallsOnly(Run(1, false, es2), DoDrop(0));
    MixedLine();
    MixedFlow(Run(1, false, es1));
    MixedDrop(Run(1, false, es2));
    MixedSend(Run(1, false, es3));
    MixedEncode(Run(1, false, es5));
    MixedOrder();
    assert MixedItems() + [] == MixedItems();
    var r := Run(1, false, es7);
    assert Finished(r) && r.ingests[0].Pushed() == [Octet(123), Flow(7)]
           && Items(Of(r.encoded, 0)) == [Flow(7), Octet(123)];
  }

  /** A call of a producer leaves the channel and the encoder as they are. */
  lemma CallsOnly<F>(s: State<F>, e: Event<F>)
    requires !e.Send? && !e.Encode?
    ensures Step(s, false, e).channel == s.channel && Step(s, false, e).encoded == s.encoded
  {
  }

  lemma StartsEmpty<F>()
    ensures Run<F>(1, false, []) == Start(1)
  {
  }

  /** Steps left until everything let go of is encoded. */
  function Waiting<F>(ps: seq<Ingest<F>>): nat {
    if ps == [] then 0 else |ps[0].outbox| + Waiting(ps[1..])
  }

  /** No deadlock: with all producers dropped, some step always brings the end nearer. */
  lemma DrainAdvances<F>(s: State<F>, discard: bool)
    requires |s.channel| <= PIPELINE_DEPTH && !Finished(s)
    requires forall i :: 0 <= i < |s.ingests| ==> s.ingests[i].dropped
    ensures exists e :: 2 * Waiting(Step(s, discard, e).ingests) + |Step(s, discard, e).channel|
                     < 2 * Waiting(s.ingests) + |s.channel|
  {
    if s.channel != [] {
      var r := Step(s, discard, Encode);
      assert 2 * Waiting(r.ingests) + |r.channel| < 2 * Waiting(s.ingests) + |s.channel|;
    } else {
      var i :| 0 <= i < |s.ingests| && s.ingests[i].outbox != [];
      var r := Step(s, discard, Send(i));
      WaitingLess(s.ingests, i, r.ingests[i]);
      assert 2 * Waiting(r.ingests) + |r.channel| < 2 * Waiting(s.ingests) + |s.channel|;
    }
  }

  lemma {:induction false} WaitingLess<F>(ps: seq<Ingest<F>>, i: nat, p: Ingest<F>)
    requires i < |ps|
    ensures Waiting(ps[i := p]) == Waiting(ps) - |ps[i].outbox| + |p.outbox|
  {
    if i > 0 {
      WaitingLess(ps[1..], i - 1, p);
      assert ps[i := p][1..] == ps[1..][i - 1 := p];
    }
  }
}
