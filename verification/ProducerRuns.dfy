/** Runs of real producers, by the clock they read. */
module ProducerRuns {
  import opened Bytes
  import opened Pipelines
  import opened PipelineRunning

  /** What happens to a pipeline. A push reads the clock before it decodes, and after, to see how old the chunk is. */
  datatype Act<F> =
    | PushAt(ingest: nat, decoded: seq<F>, now: nat, later: nat)
    | PushLineAt(ingest: nat, line: bytes, flows: nat, now: nat, later: nat)
    | FlushNow(ingest: nat)
    | DropNow(ingest: nat)
    | Room(ingest: nat)
    | Take

  /** The event, lateness told by when the producer's chunk started. */
  function EventOf<F>(s: State<F>, starts: seq<nat>, a: Act<F>): Event<F>
    requires |starts| == |s.ingests|
  {
    match a
    case PushAt(i, decoded, _, later) => DoPush(i, decoded, i < |starts| && Late(NextStart(s, starts, a, i), later))
    case PushLineAt(i, line, flows, _, later) =>
      DoPushRaw(i, line, flows, i < |starts| && Late(NextStart(s, starts, a, i), later))
    case FlushNow(i) => DoFlush(i)
    case DropNow(i) => DoDrop(i)
    case Room(i) => Send(i)
    case Take => Encode
  }

  predicate Pushes<F>(a: Act<F>, i: nat) {
    (a.PushAt? || a.PushLineAt?) && a.ingest == i
  }

  function NextStart<F>(s: State<F>, starts: seq<nat>, a: Act<F>, i: nat): nat
    requires i < |starts| == |s.ingests|
  {
    if Pushes(a, i) && CanCall(s, i) then StartAfter(s.ingests[i].buffer, starts[i], a.now) else starts[i]
  }

  function NextStarts<F>(s: State<F>, starts: seq<nat>, a: Act<F>): (r: seq<nat>)
    requires |starts| == |s.ingests|
    ensures |r| == |starts| && forall i :: 0 <= i < |r| ==> r[i] == NextStart(s, starts, a, i)
  {
    seq(|starts|, i requires 0 <= i < |starts| => NextStart(s, starts, a, i))
  }

  /** The events of a run, and when each producer's chunk started. */
  function Timed<F>(n: nat, discard: bool, acts: seq<Act<F>>): (r: (seq<Event<F>>, seq<nat>))
    ensures |r.1| == n
  {
    if acts == [] then ([], seq(n, _ => 0))
    else
      var (events, starts) := Timed(n, discard, acts[..|acts| - 1]);
      var s := Run(n, discard, events);
      (events + [EventOf(s, starts, acts[|acts| - 1])], NextStarts(s, starts, acts[|acts| - 1]))
  }

  function RunTimed<F>(n: nat, discard: bool, acts: seq<Act<F>>): (s: State<F>)
    ensures |s.ingests| == n
  {
    Run(n, discard, Timed(n, discard, acts).0)
  }

  lemma TimedStep<F>(n: nat, discard: bool, acts: seq<Act<F>>, a: Act<F>)
    ensures var s, starts := RunTimed(n, discard, acts), Timed(n, discard, acts).1;
            && RunTimed(n, discard, acts + [a]) == Step(s, discard, EventOf(s, starts, a))
            && Timed(n, discard, acts + [a]).1 == NextStarts(s, starts, a)
  {
    hide Run, Step, EventOf, NextStarts;
    assert (acts + [a])[..|acts|] == acts;
    var (events, starts) := Timed(n, discard, acts);
    RunStep(n, discard, events, EventOf(Run(n, discard, events), starts, a));
  }

  // Producers at work

  ghost predicate Shows<F>(p: Producer<F>, discard: bool, ingest: Ingest<F>, started: nat)
    reads p
  {
    && p.discard == discard && p.chunkStarted == started
    && p.Held() == ingest.buffer && p.outbox == ingest.outbox && p.dropped == ingest.dropped
  }

  ghost predicate AllShow<F>(ps: seq<Producer<F>>, discard: bool, s: State<F>, starts: seq<nat>)
    reads ps
  {
    && |ps| == |s.ingests| == |starts|
    && (forall i :: 0 <= i < |ps| ==> Shows(ps[i], discard, s.ingests[i], starts[i]))
    && forall i, j :: 0 <= i < j < |ps| ==> ps[i] != ps[j]
  }

  /** One call of a producer that can be called. */
  method Call<F>(p: Producer<F>, a: Act<F>, ghost s: State<F>, ghost starts: seq<nat>)
    requires !a.Room? && !a.Take? && CanCall(s, a.ingest) && |starts| == |s.ingests|
    requires Shows(p, p.discard, s.ingests[a.ingest], starts[a.ingest])
    modifies p
    ensures Shows(p, p.discard, Advance(s.ingests[a.ingest], p.discard, EventOf(s, starts, a)), NextStart(s, starts, a, a.ingest))
  {
    hide PushFlows, PushRaw, Flushed, StartAfter, Late;
    match a {
      case PushAt(_, decoded, now, later) => p.Push(decoded, now, later);
      case PushLineAt(_, line, flows, now, later) => p.PushLine(line, flows, now, later);
      case FlushNow(_) => p.Flush();
      case DropNow(_) => p.Drop();
    }
  }

  method NewProducers<F>(n: nat, discard: bool) returns (ps: seq<Producer<F>>)
    ensures AllShow(ps, discard, Start<F>(n), seq(n, _ => 0)) && fresh(ps)
  {
    ps := [];
    for i := 0 to n
      invariant AllShow(ps, discard, Start<F>(i), seq(i, _ => 0)) && fresh(ps)
    {
      var p := new Producer<F>(discard);
      ps := ps + [p];
    }
  }

  /** Only a producer that is called has its clock read. */
  lemma StartsKept<F>(s: State<F>, starts: seq<nat>, a: Act<F>)
    requires |starts| == |s.ingests|
    ensures a.Take? || a.Room? || !CanCall(s, a.ingest) ==> NextStarts(s, starts, a) == starts
    ensures !a.Take? && !a.Room? && CanCall(s, a.ingest)
            ==> NextStarts(s, starts, a) == starts[a.ingest := NextStart(s, starts, a, a.ingest)]
  {
  }

  method DoCall<F>(ps: seq<Producer<F>>, discard: bool, a: Act<F>, ghost s: State<F>, ghost starts: seq<nat>)
    requires !a.Room? && !a.Take? && AllShow(ps, discard, s, starts)
    modifies ps
    ensures AllShow(ps, discard, Step(s, discard, EventOf(s, starts, a)), NextStarts(s, starts, a))
  {
    hide Advance, NextStarts, NextStart, PushFlows, PushRaw, Flushed, StartAfter, Late;
    StartsKept(s, starts, a);
    var i := a.ingest;
    if i < |ps| && ps[i].outbox == [] && !ps[i].dropped {
      Call(ps[i], a, s, starts);
    }
  }

  /** One act: a call if the producer is free, room on the channel, or the encoder's turn. */
  method Do<F>(
      ps: seq<Producer<F>>, channel: seq<Tagged<F>>, encoded: seq<Tagged<F>>, discard: bool, a: Act<F>,
      ghost s: State<F>, ghost starts: seq<nat>)
    returns (channel': seq<Tagged<F>>, encoded': seq<Tagged<F>>)
    requires AllShow(ps, discard, s, starts) && channel == s.channel && encoded == s.encoded
    modifies ps
    ensures var r := Step(s, discard, EventOf(s, starts, a));
            AllShow(ps, discard, r, NextStarts(s, starts, a)) && channel' == r.channel && encoded' == r.encoded
  {
    hide Advance, NextStarts, Late, StartAfter;
    StartsKept(s, starts, a);
    channel', encoded' := channel, encoded;
    match a {
      case Take =>
        if channel != [] {
          channel', encoded' := channel[1..], encoded + [channel[0]];
        }
      case Room(i) =>
        if i < |ps| && ps[i].outbox != [] && |channel| < PIPELINE_DEPTH {
          var chunk := ps[i].SendOne();
          channel' := channel + [Tagged(i, chunk)];
        }
      case _ =>
        DoCall(ps, discard, a, s, starts);
    }
  }

  method Report<F>(ps: seq<Producer<F>>) returns (held: seq<Buffer<F>>, waiting: seq<seq<Chunk<F>>>)
    ensures |held| == |waiting| == |ps|
    ensures forall i :: 0 <= i < |ps| ==> held[i] == ps[i].Held() && waiting[i] == ps[i].outbox
  {
    held, waiting := [], [];
    for i := 0 to |ps|
      invariant |held| == |waiting| == i
      invariant forall j :: 0 <= j < i ==> held[j] == ps[j].Held() && waiting[j] == ps[j].outbox
    {
      held, waiting := held + [ps[i].Held()], waiting + [ps[i].outbox];
    }
  }

  /** Any number of producers, the channel and the encoder, through any acts: what is held back, waits, is on the channel
      and was encoded is as the run of the events says. */
  method RunProducers<F>(n: nat, discard: bool, acts: seq<Act<F>>)
    returns (held: seq<Buffer<F>>, waiting: seq<seq<Chunk<F>>>, channel: seq<Tagged<F>>, encoded: seq<Tagged<F>>)
    ensures var r := RunTimed(n, discard, acts);
            && channel == r.channel && encoded == r.encoded && |held| == |waiting| == n
            && forall i :: 0 <= i < n ==> held[i] == r.ingests[i].buffer && waiting[i] == r.ingests[i].outbox
  {
    hide Step, EventOf, NextStarts, Run, Timed;
    var ps := NewProducers<F>(n, discard);
    channel, encoded := [], [];
    NothingTimed<F>(n, discard);
    for k := 0 to |acts|
      invariant AllShow(ps, discard, RunTimed(n, discard, acts[..k]), Timed(n, discard, acts[..k]).1) && fresh(ps)
      invariant channel == RunTimed(n, discard, acts[..k]).channel && encoded == RunTimed(n, discard, acts[..k]).encoded
    {
      ghost var s, starts := RunTimed(n, discard, acts[..k]), Timed(n, discard, acts[..k]).1;
      channel, encoded := Do(ps, channel, encoded, discard, acts[k], s, starts);
      TimedStep(n, discard, acts[..k], acts[k]);
      assert acts[..k + 1] == acts[..k] + [acts[k]];
    }
    assert acts[..|acts|] == acts;
    held, waiting := Report(ps);
  }

  lemma NothingTimed<F>(n: nat, discard: bool)
    ensures RunTimed<F>(n, discard, []) == Start(n) && Timed<F>(n, discard, []).1 == seq(n, _ => 0)
  {
  }

  // How long records are held back

  /** The j-th act put the first record held into the producer's buffer, and every push since was soon after. */
  ghost predicate HeldSince<F>(n: nat, discard: bool, acts: seq<Act<F>>, i: nat, j: nat)
    requires i < n
  {
    && j < |acts| && Pushes(acts[j], i) && Empty(RunTimed(n, discard, acts[..j]).ingests[i].buffer)
    && forall k :: j <= k < |acts| && Pushes(acts[k], i) && CanCall(RunTimed(n, discard, acts[..k]), i)
                   ==> Elapsed(acts[j].now, acts[k].later) < CHUNK_FLUSH_TIMEOUT
  }

  /** What a producer still holds back was begun less than the timeout before the end of any push since. */
  lemma {:induction false} HeldYoung<F>(n: nat, discard: bool, acts: seq<Act<F>>, i: nat) returns (j: nat)
    requires i < n && !Empty(RunTimed(n, discard, acts).ingests[i].buffer)
    ensures HeldSince(n, discard, acts, i, j) && Timed(n, discard, acts).1[i] == acts[j].now
  {
    hide Run, RunTimed;
    j := 0;
    if acts == [] {
      NothingTimed<F>(n, discard);
    } else {
      var before, a := acts[..|acts| - 1], acts[|acts| - 1];
      assert before + [a] == acts;
      TimedStep(n, discard, before, a);
      var s, starts := RunTimed(n, discard, before), Timed(n, discard, before).1;
      HeldStep(s, starts, discard, a, i);
      if Pushes(a, i) && CanCall(s, i) && Empty(s.ingests[i].buffer) {
        j := |before|;
      } else {
        j := HeldYoung(n, discard, before, i);
        forall k | 0 <= k < |before|
          ensures before[..k] == acts[..k] && before[k] == acts[k]
        {
        }
      }
    }
  }

  lemma HeldStep<F>(s: State<F>, starts: seq<nat>, discard: bool, a: Act<F>, i: nat)
    requires i < |s.ingests| == |starts|
    requires !Empty(Step(s, discard, EventOf(s, starts, a)).ingests[i].buffer)
    ensures Pushes(a, i) && CanCall(s, i) ==> Elapsed(NextStart(s, starts, a, i), a.later) < CHUNK_FLUSH_TIMEOUT
    ensures !(Pushes(a, i) && CanCall(s, i)) ==> !Empty(s.ingests[i].buffer) && NextStart(s, starts, a, i) == starts[i]
  {
  }
}
