/** When producers send what they hold, and that they lose count of no flow behind their raw lines. */
module Batching {
  import opened Bytes
  import opened Pipelines
  import opened PipelineRunning
  import opened ProducerRuns

  // When

  /** Records the producer holds of the kind the act pushes, with those it pushes. */
  function Records<F>(b: Buffer<F>, a: Act<F>): nat
    requires a.PushAt? || a.PushLineAt?
  {
    if a.PushAt? then |b.flows| + |a.decoded| else b.rawRecords + 1
  }

  /** What it holds with what the act pushes; a line is left out when nothing is to be kept. */
  function More<F>(b: Buffer<F>, a: Act<F>, discard: bool): Buffer<F>
    requires a.PushAt? || a.PushLineAt?
  {
    match a
    case PushAt(_, decoded, _, _) => Buffer(b.flows + decoded, b.raw, b.rawRecords, b.rawFlows)
    case PushLineAt(_, line, flows, _, _) =>
      Buffer(b.flows, if discard then b.raw else b.raw + line, b.rawRecords + 1, b.rawFlows + flows)
  }

  /** In any run a push sends all that is held, flows first, if there are 256 records of its kind or if a tenth of a second
      has passed since the first of what is held was pushed; and else nothing. */
  lemma SentWhenDue<F>(n: nat, discard: bool, acts: seq<Act<F>>, a: Act<F>, i: nat)
    requires i < n && Pushes(a, i) && CanCall(RunTimed(n, discard, acts), i)
    ensures var b, r := RunTimed(n, discard, acts).ingests[i].buffer, RunTimed(n, discard, acts + [a]).ingests[i];
            var more, start := More(b, a, discard), if Empty(b) then a.now else Timed(n, discard, acts).1[i];
            if Records(b, a) >= 256 || a.later - start >= 100_000_000 then
              && Empty(r.buffer)
              && r.outbox == (if more.flows == [] then [] else [Flows(more.flows)])
                             + (if more.rawRecords == 0 then [] else [Raw(more.raw, more.rawFlows)])
            else r.buffer == more && r.outbox == []
  {
    hide Run, Timed;
    TimedStep(n, discard, acts, a);
  }

  /** The channel holds 1024 chunks: a chunk waits exactly while it is full. */
  lemma WaitsForRoom<F>(s: State<F>, discard: bool, i: nat)
    requires i < |s.ingests| && s.ingests[i].outbox != []
    ensures var r, chunk := Step(s, discard, Send(i)), s.ingests[i].outbox[0];
            if |s.channel| < 1024 then
              r.channel == s.channel + [Tagged(i, chunk)] && s.ingests[i].outbox == [chunk] + r.ingests[i].outbox
            else r == s
  {
  }

  // Counts

  /** Flows that raw chunks say they stand for. */
  function Counted<F>(cs: seq<Chunk<F>>): nat {
    if cs == [] then 0 else (if cs[0].Raw? then cs[0].count else 0) + Counted(cs[1..])
  }

  /** Flows that the lines given to a producer stand for. */
  function GivenCount<F>(n: nat, discard: bool, events: seq<Event<F>>, i: nat): nat {
    if events == [] then 0
    else
      var before, e := events[..|events| - 1], events[|events| - 1];
      GivenCount(n, discard, before, i) +
        if CanCall(Run(n, discard, before), i) && e.DoPushRaw? && e.ingest == i then e.flows else 0
  }

  lemma {:induction false} CountedConcat<F>(a: seq<Chunk<F>>, b: seq<Chunk<F>>)
    ensures Counted(a + b) == Counted(a) + Counted(b)
  {
    if a == [] {
      assert a + b == b;
    } else {
      CountedConcat(a[1..], b);
      assert (a + b)[1..] == a[1..] + b;
    }
  }

  lemma FlushCounts<F>(b: Buffer<F>)
    requires b.rawRecords == 0 ==> b.rawFlows == 0
    ensures Counted(Flushed(b).chunks) == b.rawFlows && Flushed(b).buffer.rawFlows == 0
  {
    var fs: seq<Chunk<F>> := if b.flows != [] then [Flows(b.flows)] else [];
    var rs: seq<Chunk<F>> := if b.rawRecords > 0 then [Raw(b.raw, b.rawFlows)] else [];
    CountedConcat(fs, rs);
    assert fs != [] ==> fs[1..] == [];
    assert rs != [] ==> rs[1..] == [];
  }

  lemma AdvanceCounts<F>(p: Ingest<F>, discard: bool, e: Event<F>)
    requires !e.Encode? && !e.Send? && (p.buffer.rawRecords == 0 ==> p.buffer.rawFlows == 0)
    ensures var r := Advance(p, discard, e);
            && Counted(r.outbox) + r.buffer.rawFlows == p.buffer.rawFlows + (if e.DoPushRaw? then e.flows else 0)
            && (r.buffer.rawRecords == 0 ==> r.buffer.rawFlows == 0)
  {
    var b := p.buffer;
    match e {
      case DoPush(_, decoded, _) => FlushCounts(b.(flows := b.flows + decoded));
      case DoPushRaw(_, line, flows, _) =>
        FlushCounts(b.(raw := if discard then b.raw else b.raw + line,
                       rawRecords := b.rawRecords + 1, rawFlows := b.rawFlows + flows));
      case _ => FlushCounts(b);
    }
  }

  /** Lines held say how many flows they stand for. */
  ghost predicate Tells<F>(s: State<F>, i: nat)
    requires i < |s.ingests|
  {
    s.ingests[i].buffer.rawRecords == 0 ==> s.ingests[i].buffer.rawFlows == 0
  }

  lemma StepCounts<F>(s: State<F>, discard: bool, e: Event<F>, i: nat)
    requires i < |s.ingests| && Keeps(s) && Tells(s, i)
    ensures var r := Step(s, discard, e);
            && Tells(r, i)
            && Counted(Gone(r, i)) + r.ingests[i].buffer.rawFlows == Counted(Gone(s, i)) + s.ingests[i].buffer.rawFlows
                 + if CanCall(s, i) && e.DoPushRaw? && e.ingest == i then e.flows else 0
  {
    hide Keeps, Advance, Of, Counted;
    var r := Step(s, discard, e);
    match e {
      case Encode =>
        if s.channel != [] {
          assert s.encoded + s.channel == s.encoded + [s.channel[0]] + s.channel[1..];
        }
      case Send(j) =>
        if r != s {
          SendKeeps(s, j, i);
        }
      case _ =>
        if CanCall(s, i) && e.ingest == i {
          AdvanceCounts(s.ingests[i], discard, e);
          CountedConcat(Gone(s, i), r.ingests[i].outbox);
          assert Gone(s, i) == Of(s.encoded + s.channel, i);
        }
    }
  }

  /** Over any run the flows that lines stand for are all told: with chunks that have left, or with what is held. */
  lemma {:induction false} CountsKept<F>(n: nat, discard: bool, events: seq<Event<F>>, i: nat)
    requires i < n
    ensures var r := Run(n, discard, events);
            Tells(r, i) && Counted(Gone(r, i)) + r.ingests[i].buffer.rawFlows == GivenCount(n, discard, events, i)
  {
    hide Step, Keeps, Gone;
    if events == [] {
      NothingGone<F>(n, i);
    } else {
      CountsKept(n, discard, events[..|events| - 1], i);
      RunKeeps(n, discard, events[..|events| - 1]);
      StepCounts(Run(n, discard, events[..|events| - 1]), discard, events[|events| - 1], i);
    }
  }

  lemma NothingGone<F>(n: nat, i: nat)
    requires i < n
    ensures Counted(Gone(Start<F>(n), i)) == 0
  {
    assert Of<F>([] + [], i) == [];
  }
}
