/** The exporter: records packed greedily into messages, and their sequence numbers. */
module Exporting {
  import opened Bytes
  import opened Ipfix
  import opened Encoding
  import Encoder

  const MAX_MESSAGE_SIZE: nat := 1400
  const MAX_SET_BODY: nat := MAX_MESSAGE_SIZE - HEADER_SIZE - SET_HEADER_SIZE

  /** A record and the template it is of. */
  datatype Outgoing = Outgoing(templateId: u16, record: DataRecord)

  // Packing

  function Size(o: Outgoing): nat {
    |EncodeDataRecord(o.record)|
  }

  function TotalSize(rs: seq<Outgoing>): nat {
    if rs == [] then 0 else TotalSize(rs[..|rs| - 1]) + Size(rs[|rs| - 1])
  }

  /** Records one message may hold: of one template, and, unless there is just one, within the 1400 octets of a message
      less its headers. */
  predicate OneMessage(rs: seq<Outgoing>) {
    && rs != []
    && (forall i :: 0 <= i < |rs| ==> rs[i].templateId == rs[0].templateId)
    && (|rs| == 1 || TotalSize(rs) <= 1380)
  }

  function Concat(parts: seq<seq<Outgoing>>): seq<Outgoing> {
    if parts == [] then [] else parts[0] + Concat(parts[1..])
  }

  /** An order-preserving split of records into messages. */
  predicate IsSplit(rs: seq<Outgoing>, parts: seq<seq<Outgoing>>) {
    Concat(parts) == rs && forall i :: 0 <= i < |parts| ==> OneMessage(parts[i])
  }

  /** The records of one message can be followed by this one. */
  predicate Joins(pending: seq<Outgoing>, next: Outgoing)
    requires pending != []
  {
    next.templateId == pending[0].templateId && TotalSize(pending) + Size(next) <= MAX_SET_BODY
  }

  /** Records closed into messages, and those still pending. */
  datatype Packing = Packing(closed: seq<seq<Outgoing>>, pending: seq<Outgoing>)

  /** A record joins the pending ones if it can, and else closes their message. */
  function Add(p: Packing, next: Outgoing): Packing {
    if p.pending == [] || Joins(p.pending, next) then p.(pending := p.pending + [next])
    else Packing(p.closed + [p.pending], [next])
  }

  function Pack(rs: seq<Outgoing>): (p: Packing) {
    if rs == [] then Packing([], []) else Add(Pack(rs[..|rs| - 1]), rs[|rs| - 1])
  }

  function Messages(p: Packing): seq<seq<Outgoing>> {
    if p.pending == [] then p.closed else p.closed + [p.pending]
  }

  function Greedy(rs: seq<Outgoing>): seq<seq<Outgoing>> {
    Messages(Pack(rs))
  }

  lemma {:induction false} ConcatAppend(parts: seq<seq<Outgoing>>, last: seq<Outgoing>)
    ensures Concat(parts + [last]) == Concat(parts) + last
  {
    if parts == [] {
      assert ([last])[1..] == [] && last + [] == last && [] + last == last;
      assert parts + [last] == [last];
    } else {
      ConcatAppend(parts[1..], last);
      assert (parts + [last])[1..] == parts[1..] + [last];
      assert parts[0] + (Concat(parts[1..]) + last) == parts[0] + Concat(parts[1..]) + last;
    }
  }

  lemma TotalSizeAppend(rs: seq<Outgoing>, next: Outgoing)
    ensures TotalSize(rs + [next]) == TotalSize(rs) + Size(next)
  {
    assert (rs + [next])[..|rs|] == rs;
  }

  predicate Packed(rs: seq<Outgoing>, p: Packing) {
    && Concat(p.closed) + p.pending == rs
    && (forall i :: 0 <= i < |p.closed| ==> OneMessage(p.closed[i]))
    && (if p.pending == [] then p.closed == [] else OneMessage(p.pending))
  }

  lemma PackedStep(rs: seq<Outgoing>, p: Packing, next: Outgoing)
    requires Packed(rs, p)
    ensures Packed(rs + [next], Add(p, next))
  {
    hide Size, Concat, TotalSize;
    ConcatAppend(p.closed, p.pending);
    if p.pending == [] {
      assert [] + [next] == [next];
    } else {
      TotalSizeAppend(p.pending, next);
    }
    assert Concat(p.closed) + (p.pending + [next]) == Concat(p.closed) + p.pending + [next];
  }

  /** Every record is packed once, in order, in messages within the limits. */
  lemma {:induction false} PackIsSplit(rs: seq<Outgoing>)
    ensures Packed(rs, Pack(rs))
  {
    hide OneMessage, Add;
    if rs != [] {
      PackIsSplit(rs[..|rs| - 1]);
      PackedStep(rs[..|rs| - 1], Pack(rs[..|rs| - 1]), rs[|rs| - 1]);
      assert rs == rs[..|rs| - 1] + [rs[|rs| - 1]];
    }
  }

  lemma PackNothing()
    ensures Pack([]) == Packing([], []) && TotalSize([]) == 0 && Packed([], Packing([], []))
  {
  }

  /** What a record is added to, told by the size so far and the pending template. */
  lemma AddBySize(p: Packing, next: Outgoing, size: nat, templateId: u16)
    requires size == TotalSize(p.pending)
    requires p.pending != [] ==> OneMessage(p.pending) && templateId == p.pending[0].templateId
    ensures var closes := p.pending != [] && (size + Size(next) > MAX_SET_BODY || next.templateId != templateId);
            && Add(p, next) == (if closes then Packing(p.closed + [p.pending], [next])
                                else p.(pending := p.pending + [next]))
            && TotalSize(Add(p, next).pending) == (if closes then 0 else size) + Size(next)
  {
    hide Size, TotalSize;
    PackNothing();
    TotalSizeAppend(p.pending, next);
    TotalSizeAppend([], next);
    assert [] + [next] == [next];
  }

  lemma PackNext(rs: seq<Outgoing>, k: nat)
    requires k < |rs|
    ensures Pack(rs[..k + 1]) == Add(Pack(rs[..k]), rs[k])
    ensures Packed(rs[..k + 1], Pack(rs[..k + 1]))
  {
    assert rs[..k + 1][..k] == rs[..k];
    PackIsSplit(rs[..k + 1]);
  }

  lemma GreedyIsSplit(rs: seq<Outgoing>)
    ensures IsSplit(rs, Greedy(rs))
  {
    PackIsSplit(rs);
    ConcatAppend(Pack(rs).closed, Pack(rs).pending);
  }

  /** The packing uses no more messages than the split, and if as many, pends no more than its last part. */
  predicate Ahead(p: Packing, parts: seq<seq<Outgoing>>) {
    && |Messages(p)| <= |parts|
    && (|Messages(p)| == |parts| > 0 ==> |p.pending| <= |parts[|parts| - 1]|)
  }

  /** Dropping the last record of a split leaves a split of the rest. */
  function DropLast(parts: seq<seq<Outgoing>>): seq<seq<Outgoing>>
    requires parts != [] && parts[|parts| - 1] != []
  {
    var last := parts[|parts| - 1];
    if |last| == 1 then parts[..|parts| - 1] else parts[..|parts| - 1] + [last[..|last| - 1]]
  }

  lemma DropLastIsSplit(rs: seq<Outgoing>, parts: seq<seq<Outgoing>>)
    requires rs != [] && IsSplit(rs, parts)
    ensures parts != [] && parts[|parts| - 1] != [] && IsSplit(rs[..|rs| - 1], DropLast(parts))
    ensures OneMessage(parts[|parts| - 1])
  {
    var n := |parts| - 1;
    assert parts == parts[..n] + [parts[n]];
    ConcatAppend(parts[..n], parts[n]);
    var last := parts[n];
    var less := last[..|last| - 1];
    assert last == less + [last[|last| - 1]];
    assert rs[..|rs| - 1] == Concat(parts[..n]) + less;
    ConcatAppend(parts[..n], less);
    assert Concat(parts[..n]) + [] == Concat(parts[..n]);
    if |last| > 1 {
      assert OneMessage(less);
    }
  }

  /** A stretch at the end of the pending records of another packing is no larger. */
  lemma {:induction false} SuffixSize(rs: seq<Outgoing>, k: nat)
    requires k <= |rs|
    ensures TotalSize(rs[k..]) <= TotalSize(rs)
  {
    hide Size;
    if k < |rs| {
      SuffixSize(rs[..|rs| - 1], k);
      assert rs[k..][..|rs| - k - 1] == rs[..|rs| - 1][k..];
    } else {
      assert rs[k..] == [];
    }
  }

  /** What could follow the last part's other records can follow the pending ones, which end them. */
  lemma JoinsToo(rs: seq<Outgoing>, p: Packing, less: seq<Outgoing>, next: Outgoing)
    requires Packed(rs, p) && p.pending != []
    requires less != [] && OneMessage(less + [next]) && |p.pending| <= |less| <= |rs| && rs[|rs| - |less|..] == less
    ensures Joins(p.pending, next)
  {
    hide Size, TotalSize;
    SameEnding(rs, Concat(p.closed), p.pending, less);
    SuffixSize(less, |less| - |p.pending|);
    TotalSizeAppend(less, next);
    var last := less + [next];
    assert last[|less| - |p.pending|] == p.pending[0] && last[|less|] == next;
  }

  lemma AheadStep(rs: seq<Outgoing>, p: Packing, parts: seq<seq<Outgoing>>, next: Outgoing)
    requires Packed(rs, p) && IsSplit(rs + [next], parts) && parts != [] && OneMessage(parts[|parts| - 1])
    requires Ahead(p, DropLast(parts))
    ensures Ahead(Add(p, next), parts)
  {
    hide Size, TotalSize, Concat, Joins;
    var last := parts[|parts| - 1];
    LastOfSplit(rs + [next], parts);
    if |last| > 1 && |Messages(p)| == |parts| && p.pending != [] {
      var less := last[..|last| - 1];
      assert last == less + [next];
      assert rs[|rs| - |less|..] == less;
      assert DropLast(parts)[|parts| - 1] == less;
      JoinsToo(rs, p, less, next);
    }
  }

  /** The greedy packing stays ahead of every split. */
  lemma {:induction false} StaysAhead(rs: seq<Outgoing>, parts: seq<seq<Outgoing>>)
    requires IsSplit(rs, parts)
    ensures Ahead(Pack(rs), parts)
    decreases |rs|
  {
    hide OneMessage, Add, Ahead, Packed;
    if rs == [] {
      AheadOfNothing(parts);
    } else {
      var before, next := rs[..|rs| - 1], rs[|rs| - 1];
      assert rs == before + [next];
      DropLastIsSplit(rs, parts);
      StaysAhead(before, DropLast(parts));
      PackIsSplit(before);
      AheadStep(before, Pack(before), parts, next);
    }
  }

  lemma AheadOfNothing(parts: seq<seq<Outgoing>>)
    ensures Ahead(Packing([], []), parts)
  {
  }

  lemma LastOfSplit(rs: seq<Outgoing>, parts: seq<seq<Outgoing>>)
    requires rs != [] && IsSplit(rs, parts)
    ensures parts != [] && parts[|parts| - 1][|parts[|parts| - 1]| - 1] == rs[|rs| - 1]
    ensures |parts[|parts| - 1]| <= |rs| && rs[|rs| - |parts[|parts| - 1]|..] == parts[|parts| - 1]
  {
    var n := |parts| - 1;
    assert parts == parts[..n] + [parts[n]];
    ConcatAppend(parts[..n], parts[n]);
  }

  lemma SameEnding(rs: seq<Outgoing>, head: seq<Outgoing>, pending: seq<Outgoing>, less: seq<Outgoing>)
    requires head + pending == rs && |pending| <= |less| <= |rs| && rs[|rs| - |less|..] == less
    ensures less[|less| - |pending|..] == pending
  {
  }

  /** No order-preserving split within the limits uses fewer messages. */
  lemma GreedyIsOptimal(rs: seq<Outgoing>, parts: seq<seq<Outgoing>>)
    requires IsSplit(rs, parts)
    ensures |Greedy(rs)| <= |parts|
  {
    StaysAhead(rs, parts);
  }

  // Sending

  function DataRecordsOf(part: seq<Outgoing>): (rs: seq<Record>)
    ensures |rs| == |part| && forall i :: 0 <= i < |rs| ==> rs[i] == Data(part[i].record)
  {
    seq(|part|, i requires 0 <= i < |part| => Data(part[i].record))
  }

  /** The one set of a data message. */
  function MessageSet(part: seq<Outgoing>): Set
    requires part != []
  {
    Set(part[0].templateId, 0, DataRecordsOf(part))
  }

  predicate IsData(r: Record) {
    r.Data? || r.OptionsData?
  }

  function CountData(rs: seq<Record>): nat {
    if rs == [] then 0 else (if IsData(rs[0]) then 1 else 0) + CountData(rs[1..])
  }

  function CountDataInSets(sets: seq<Set>): nat {
    if sets == [] then 0 else CountData(sets[0].records) + CountDataInSets(sets[1..])
  }

  /** A message handed to the socket, and whether the send succeeded. */
  datatype Attempt = Attempt(packet: Packet, delivered: bool)

  /** Data and options records in successful sends. */
  function RecordsSent(tried: seq<Attempt>): nat {
    if tried == [] then 0
    else
      var last := tried[|tried| - 1];
      RecordsSent(tried[..|tried| - 1]) + if last.delivered then CountDataInSets(last.packet.sets) else 0
  }

  /** The datagrams of successful sends. */
  function Datagrams(tried: seq<Attempt>): seq<bytes> {
    if tried == [] then []
    else
      var last := tried[|tried| - 1];
      Datagrams(tried[..|tried| - 1]) + if last.delivered then [EncodePacket(last.packet)] else []
  }

  /** RFC 7011 section 3.1: a header counts the data records in the successful sends before it, modulo 2^32. */
  predicate SequenceCorrect(tried: seq<Attempt>) {
    forall i :: 0 <= i < |tried| ==>
      tried[i].packet.header.sequenceNumber == RecordsSent(tried[..i]) % 0x1_0000_0000
  }

  lemma {:induction false} AllData(rs: seq<Record>)
    requires forall i :: 0 <= i < |rs| ==> IsData(rs[i])
    ensures CountData(rs) == |rs|
  {
    if rs != [] {
      AllData(rs[1..]);
    }
  }

  lemma {:induction false} NoData(sets: seq<Set>)
    requires forall i, j :: 0 <= i < |sets| && 0 <= j < |sets[i].records| ==> !IsData(sets[i].records[j])
    ensures CountDataInSets(sets) == 0
  {
    if sets != [] {
      NoDataIn(sets[0].records);
      NoData(sets[1..]);
    }
  }

  lemma {:induction false} NoDataIn(rs: seq<Record>)
    requires forall i :: 0 <= i < |rs| ==> !IsData(rs[i])
    ensures CountData(rs) == 0
  {
    if rs != [] {
      NoDataIn(rs[1..]);
    }
  }

  lemma SequenceStep(tried: seq<Attempt>, next: Attempt)
    requires SequenceCorrect(tried) && next.packet.header.sequenceNumber == RecordsSent(tried) % 0x1_0000_0000
    ensures SequenceCorrect(tried + [next])
    ensures RecordsSent(tried + [next]) == RecordsSent(tried) + if next.delivered then CountDataInSets(next.packet.sets) else 0
    ensures Datagrams(tried + [next]) == Datagrams(tried) + if next.delivered then [EncodePacket(next.packet)] else []
  {
    hide RecordsSent, Datagrams;
    LastAttempt(tried, next);
    forall i | 0 <= i < |tried| + 1
      ensures (tried + [next])[..i] == tried[..i]
    {
    }
    assert tried[..|tried|] == tried;
  }

  lemma LastAttempt(tried: seq<Attempt>, next: Attempt)
    ensures RecordsSent(tried + [next]) == RecordsSent(tried) + if next.delivered then CountDataInSets(next.packet.sets) else 0
    ensures Datagrams(tried + [next]) == Datagrams(tried) + if next.delivered then [EncodePacket(next.packet)] else []
  {
    assert (tried + [next])[..|tried|] == tried;
  }

  /** A message of records that each fit is no larger than the limit. */
  lemma MessageFits(part: seq<Outgoing>, header: Header)
    requires OneMessage(part) && forall i :: 0 <= i < |part| ==> Size(part[i]) <= MAX_SET_BODY
    ensures |EncodePacket(Packet(header, [MessageSet(part)]))| <= 1400
  {
    hide ToBE, EncodeDataRecord;
    PartSize(part);
    if |part| == 1 {
      assert part[..0] == [];
    }
    var set_ := MessageSet(part);
    assert [set_][1..] == [] && EncodeSets([set_]) == EncodeSet(set_) + EncodeSets([]);
  }

  lemma {:induction false} PartSize(part: seq<Outgoing>)
    ensures |EncodeRecords(DataRecordsOf(part))| == TotalSize(part)
  {
    if part != [] {
      var before := part[..|part| - 1];
      PartSize(before);
      assert DataRecordsOf(part) == DataRecordsOf(before) + [Data(part[|part| - 1].record)];
      EncodeAppend(DataRecordsOf(before), Data(part[|part| - 1].record));
    }
  }

  lemma {:induction false} EncodeAppend(rs: seq<Record>, r: Record)
    ensures EncodeRecords(rs + [r]) == EncodeRecords(rs) + EncodeRecord(r)
  {
    hide EncodeRecord;
    if rs == [] {
      assert [] + [r] == [r] && [r][1..] == [];
    } else {
      EncodeAppend(rs[1..], r);
      assert (rs + [r])[1..] == rs[1..] + [r];
    }
  }

  lemma CountModulo(sent: nat, count: nat)
    ensures (sent % 0x1_0000_0000 + count) % 0x1_0000_0000 == (sent + count) % 0x1_0000_0000
  {
  }

  function TemplateSets(templates: seq<TemplateRecord>, options: OptionsTemplateRecord): seq<Set> {
    [Set(TEMPLATE_SET_ID, 0, seq(|templates|, i requires 0 <= i < |templates| => Template(templates[i]))),
     Set(OPTIONS_TEMPLATE_SET_ID, 0, [OptionsTemplate(options)])]
  }

  predicate AllDelivered(tried: seq<Attempt>, from: nat) {
    forall i :: from <= i < |tried| ==> tried[i].delivered
  }

  lemma DeliveredSoFar(before: seq<Attempt>, after: seq<Attempt>, from: nat)
    requires from <= |before| <= |after| && after[..|before|] == before
    ensures AllDelivered(after, from) <==> AllDelivered(before, from) && AllDelivered(after, |before|)
  {
    assert forall i :: 0 <= i < |before| ==> after[i] == before[i];
  }

  lemma NoneSince(tried: seq<Attempt>)
    ensures AllDelivered(tried, |tried|)
  {
  }

  lemma OneDelivered(before: seq<Attempt>, after: seq<Attempt>)
    requires |after| == |before| + 1
    ensures AllDelivered(after, |before|) <==> after[|before|].delivered
  {
  }

  function Sets(tried: seq<Attempt>): (r: seq<seq<Set>>)
    ensures |r| == |tried| && forall i :: 0 <= i < |r| ==> r[i] == tried[i].packet.sets
  {
    seq(|tried|, i requires 0 <= i < |tried| => tried[i].packet.sets)
  }

  /** Each part alone in the one set of its message. */
  function MessageSets(parts: seq<seq<Outgoing>>): (r: seq<seq<Set>>)
    ensures |r| == |parts|
    ensures forall i :: 0 <= i < |r| ==> r[i] == if parts[i] == [] then [] else [MessageSet(parts[i])]
  {
    seq(|parts|, i requires 0 <= i < |parts| => if parts[i] == [] then [] else [MessageSet(parts[i])])
  }

  class Exporter {
    const domain: u32
    /** The socket: whether the n-th send fails; and the wall clock it reads. */
    const fails: nat -> bool
    const clock: nat -> Time
    var sends: nat
    var sequenceNumber: u32
    /** What left the socket. */
    var wire: seq<bytes>
    ghost var tried: seq<Attempt>

    /** The n-th message carries the n-th reading of the clock, and goes through as the socket lets it. */
    ghost predicate Stamped()
      reads this
    {
      forall i :: 0 <= i < |tried| ==>
        && tried[i].delivered == !fails(i)
        && tried[i].packet.header.version == IPFIX_VERSION && tried[i].packet.header.domain == domain
        && tried[i].packet.header.exportTime == clock(i)
    }

    ghost predicate Valid()
      reads this
    {
      && sends == |tried|
      && wire == Datagrams(tried)
      && SequenceCorrect(tried)
      && Stamped()
      && sequenceNumber == RecordsSent(tried) % 0x1_0000_0000
    }

    constructor (domain: u32, fails: nat -> bool, clock: nat -> Time)
      ensures Valid() && tried == [] && wire == []
      ensures this.domain == domain && this.fails == fails && this.clock == clock
    {
      this.domain, this.fails, this.clock := domain, fails, clock;
      sends, sequenceNumber, wire, tried := 0, 0, [], [];
    }

    /** The attempt the next send of `sets` makes. */
    ghost function NextAttempt(sets: seq<Set>): Attempt
      reads this
    {
      Attempt(Packet(Header(IPFIX_VERSION, 0, clock(sends), sequenceNumber, domain), sets), !fails(sends))
    }

    /** One message; counting its data records is the caller's part. */
    method SendSets(sets: seq<Set>) returns (ok: bool)
      requires Valid()
      modifies `sends, `wire, `tried
      ensures tried == old(tried) + [old(NextAttempt(sets))] && ok == tried[|tried| - 1].delivered
      ensures sends == |tried| && wire == Datagrams(tried) && SequenceCorrect(tried) && Stamped()
      ensures sequenceNumber == old(RecordsSent(tried)) % 0x1_0000_0000
      ensures RecordsSent(tried) == old(RecordsSent(tried)) + if ok then CountDataInSets(sets) else 0
    {
      hide EncodePacket, RecordsSent, Datagrams, SequenceCorrect;
      ghost var next := NextAttempt(sets);
      SequenceStep(tried, next);
      var packet := Packet(Header(IPFIX_VERSION, 0, clock(sends), sequenceNumber, domain), sets);
      var encoded := new Encoder.Buffer();
      encoded.PutPacket(packet);
      assert [] + EncodePacket(packet) == EncodePacket(packet);
      ok := !fails(sends);
      if ok {
        wire := wire + [encoded.octets];
      } else {
        assert wire + [] == wire;
      }
      sends := sends + 1;
      tried := tried + [next];
    }

    method SendData(templateId: u16, records: seq<Record>) returns (ok: bool)
      requires Valid() && forall i :: 0 <= i < |records| ==> IsData(records[i])
      modifies this
      ensures Valid() && tried == old(tried) + [old(NextAttempt([Set(templateId, 0, records)]))]
      ensures ok == tried[|tried| - 1].delivered
      ensures sequenceNumber == (old(sequenceNumber) + if ok then |records| else 0) % 0x1_0000_0000
    {
      hide RecordsSent, Datagrams, SequenceCorrect;
      var sets := [Set(templateId, 0, records)];
      ghost var sent := RecordsSent(tried);
      AllData(records);
      assert sets[1..] == [];
      ok := SendSets(sets);
      if ok {
        CountModulo(sent, |records|);
        sequenceNumber := (sequenceNumber + |records|) % 0x1_0000_0000;
      }
    }

    /** Messages of templates do not count. */
    method SendTemplates(templates: seq<TemplateRecord>, options: OptionsTemplateRecord) returns (ok: bool)
      requires Valid()
      modifies this
      ensures Valid()
      ensures tried == old(tried) + [old(NextAttempt(TemplateSets(templates, options)))]
      ensures sequenceNumber == old(sequenceNumber)
    {
      hide RecordsSent, Datagrams, SequenceCorrect;
      NoData(TemplateSets(templates, options));
      ok := SendSets(TemplateSets(templates, options));
    }

    /** Options records count like any other. */
    method SendOptionsData(templateId: u16, record: DataRecord) returns (ok: bool)
      requires Valid()
      modifies this
      ensures Valid() && tried == old(tried) + [old(NextAttempt([Set(templateId, 0, [OptionsData(record)])]))]
    {
      ok := SendData(templateId, [OptionsData(record)]);
    }

    /** Every message of the greedy packing is tried, whatever became of those before. */
    method SendRecords(rs: seq<Outgoing>) returns (ok: bool)
      requires Valid()
      modifies this
      ensures Valid()
      ensures |tried| == |old(tried)| + |Greedy(rs)| && old(tried) == tried[..|old(tried)|]
      ensures Sets(tried[|old(tried)|..]) == MessageSets(Greedy(rs))
      ensures ok <==> AllDelivered(tried, |old(tried)|)
    {
      hide RecordsSent, Datagrams, SequenceCorrect, Pack, Concat, TotalSize, Add, AllDelivered;
      ok := true;
      NoneSince(tried);
      var pending: seq<Outgoing> := [];
      var templateId: u16 := 0;
      var size := 0;
      ghost var n := |tried|;
      ghost var packing := Packing([], []);
      PackNothing();
      for k := 0 to |rs|
        invariant Valid() && n <= |tried| && old(tried) == tried[..n]
        invariant Packed(rs[..k], packing) && packing == Pack(rs[..k]) && packing.pending == pending
        invariant Sets(tried[n..]) == MessageSets(packing.closed)
        invariant pending != [] ==> templateId == pending[0].templateId
        invariant size == TotalSize(pending)
        invariant ok <==> AllDelivered(tried, n)
      {
        PackNext(rs, k);
        var sent;
        ghost var before := tried;
        pending, size, sent := SendBefore(rs[k], pending, templateId, size, packing, n);
        DeliveredSoFar(before, tried, n);
        ok := ok && sent;
        templateId := rs[k].templateId;
        packing := Pack(rs[..k + 1]);
      }
      assert rs[..|rs|] == rs;
      ghost var before := tried;
      if pending != [] {
        var sent := Flush(pending, packing.closed, n);
        DeliveredSoFar(before, tried, n);
        OneDelivered(before, tried);
        ok := ok && sent;
      }
    }

    /** Adds a record to the pending ones, which are sent first when it cannot join them. */
    method SendBefore(
        next: Outgoing, pending: seq<Outgoing>, templateId: u16, size: nat, ghost packing: Packing, ghost n: nat)
      returns (pending': seq<Outgoing>, size': nat, sent: bool)
      requires Valid() && n <= |tried|
      requires packing.pending == pending && (pending != [] ==> OneMessage(pending) && templateId == pending[0].templateId)
      requires forall i :: 0 <= i < |packing.closed| ==> OneMessage(packing.closed[i])
      requires size == TotalSize(pending) && Sets(tried[n..]) == MessageSets(packing.closed)
      modifies this
      ensures Valid() && |old(tried)| <= |tried| && old(tried) == tried[..|old(tried)|]
      ensures pending' == Add(packing, next).pending && size' == TotalSize(pending')
      ensures Sets(tried[n..]) == MessageSets(Add(packing, next).closed)
      ensures sent <==> AllDelivered(tried, |old(tried)|)
    {
      hide RecordsSent, Datagrams, SequenceCorrect, TotalSize, Add, Size, Sets, MessageSets, OneMessage;
      pending', size', sent := pending, size, true;
      var len := Measure(next);
      AddBySize(packing, next, size, templateId);
      if pending != [] && (size + len > MAX_SET_BODY || next.templateId != templateId) {
        sent := Flush(pending, packing.closed, n);
        pending', size' := [], 0;
      }
      size' := size' + len;
      pending' := pending' + [next];
    }

    method Measure(next: Outgoing) returns (len: nat)
      ensures len == Size(next)
    {
      hide EncodeDataRecord;
      var scratch := new Encoder.Buffer();
      scratch.PutDataRecord(next.record);
      len := |scratch.octets|;
    }

    /** Sends the pending records, of one template, as a message. */
    method Flush(pending: seq<Outgoing>, ghost closed: seq<seq<Outgoing>>, ghost n: nat) returns (sent: bool)
      requires Valid() && OneMessage(pending)
      requires n <= |tried| && (forall i :: 0 <= i < |closed| ==> OneMessage(closed[i]))
      requires Sets(tried[n..]) == MessageSets(closed)
      modifies this
      ensures Valid() && |tried| == |old(tried)| + 1 && old(tried) == tried[..|old(tried)|]
      ensures Sets(tried[n..]) == MessageSets(closed + [pending])
      ensures sent == tried[|tried| - 1].delivered
    {
      hide RecordsSent, Datagrams, SequenceCorrect;
      ghost var before := tried;
      sent := SendData(pending[0].templateId, DataRecordsOf(pending));
      assert tried[n..] == before[n..] + [tried[|tried| - 1]];
    }
  }
}
