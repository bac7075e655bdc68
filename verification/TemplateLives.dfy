/** What a template cache finds and accepts, told by the calls before alone. */
module TemplateLives {
  import opened TwoLevels
  import opened Bytes
  import opened TemplateCaching

  /** What an eager cache holds after the calls. */
  ghost function After<F>(m: Entries<F>, calls: seq<Call<F>>, timeout: nat): Entries<F>
    decreases |calls|
  {
    if calls == [] then m else After(EagerStep(m, calls[0], timeout).0, calls[1..], timeout)
  }

  /** The call defines, withdraws or is refused the template. */
  predicate Touches<F>(op: Op<F>, key: Key) {
    match op
    case InsertOp(k, _) => k == key
    case GetOp(_) => false
    case RemoveOp(k) => k == key
    case RemoveDomainOp(domain) => domain == key.domain
    case RefreshOp(_, _) => false
  }

  /** Fields, as resolved anew since. */
  function Since<F>(fields: seq<F>, calls: seq<Call<F>>, domain: int): seq<F> {
    if calls == [] then fields
    else
      var n := |calls| - 1;
      var before := Since(fields, calls[..n], domain);
      if calls[n].op.RefreshOp? && calls[n].op.domain == domain then calls[n].op.resolve(before) else before
  }

  /** The template was last defined by that call, which was accepted, less than the timeout ago. */
  ghost predicate Defines<F>(calls: seq<Call<F>>, answers: seq<Answer<F>>, j: int, key: Key, now: nat, timeout: nat)
    requires |answers| == |calls|
  {
    && 0 <= j < |calls| && calls[j].op.InsertOp? && calls[j].op.key == key && answers[j] == Accepted(true)
    && now < calls[j].now + timeout
    && forall i :: j < i < |calls| ==> !Touches(calls[i].op, key)
  }

  ghost predicate DefinedAs<F>(
    calls: seq<Call<F>>, answers: seq<Answer<F>>, key: Key, now: nat, timeout: nat, fields: seq<F>)
    requires |answers| == |calls|
  {
    exists j ::
      Defines(calls, answers, j, key, now, timeout) && fields == Since(calls[j].op.fields, calls[j + 1..], key.domain)
  }

  lemma {:induction false} AfterLast<F>(m: Entries<F>, calls: seq<Call<F>>, c: Call<F>, timeout: nat)
    ensures After(m, calls + [c], timeout) == EagerStep(After(m, calls, timeout), c, timeout).0
    decreases |calls|
  {
    hide EagerStep;
    if calls == [] {
      assert ([c])[1..] == [] && calls + [c] == [c];
    } else {
      AfterLast(EagerStep(m, calls[0], timeout).0, calls[1..], c, timeout);
      assert (calls + [c])[1..] == calls[1..] + [c];
    }
  }

  /** Each answer is what the calls before leave it to be. */
  ghost predicate Right<F>(calls: seq<Call<F>>, answers: seq<Answer<F>>, timeout: nat) {
    && |answers| == |calls|
    && forall i :: 0 <= i < |calls| ==> answers[i] == EagerStep(After(map[], calls[..i], timeout), calls[i], timeout).1
  }

  lemma {:induction false} RunIs<F>(m: Entries<F>, calls: seq<Call<F>>, timeout: nat)
    ensures |EagerRun(m, calls, timeout)| == |calls|
    ensures forall i :: 0 <= i < |calls| ==>
      EagerRun(m, calls, timeout)[i] == EagerStep(After(m, calls[..i], timeout), calls[i], timeout).1
    decreases |calls|
  {
    hide EagerStep;
    if calls != [] {
      var m' := EagerStep(m, calls[0], timeout).0;
      RunIs(m', calls[1..], timeout);
      forall i | 0 <= i < |calls|
        ensures EagerRun(m, calls, timeout)[i] == EagerStep(After(m, calls[..i], timeout), calls[i], timeout).1
      {
        if i > 0 {
          assert EagerRun(m, calls, timeout)[i] == EagerRun(m', calls[1..], timeout)[i - 1];
          assert calls[1..][..i - 1] == calls[..i][1..];
        }
      }
    }
  }

  /** The clock never goes back, and is now no earlier. */
  ghost predicate Until<F>(calls: seq<Call<F>>, now: nat) {
    && (forall i, j :: 0 <= i <= j < |calls| ==> calls[i].now <= calls[j].now)
    && (forall i :: 0 <= i < |calls| ==> calls[i].now <= now)
  }

  /** What one more call does to what is live of a key. */
  ghost predicate Stepped<F>(
    call: Call<F>, answer: Answer<F>, live: Entries<F>, live': Entries<F>, key: Key, now: nat, timeout: nat)
  {
    if Touches(call.op, key) then
      && (key in live' <==> call.op.InsertOp? && answer == Accepted(true) && now < call.now + timeout)
      && (key in live' ==> live'[key] == Entry(call.op.fields, call.now))
    else
      && (key in live' <==> key in live)
      && (key in live' ==> live'[key] == Entry(Since(live[key].fields, [call], key.domain), live[key].sentAt))
  }

  lemma StepLive<F>(m: Entries<F>, call: Call<F>, key: Key, now: nat, timeout: nat)
    requires call.now <= now
    ensures var (m', answer) := EagerStep(m, call, timeout);
            Stepped(call, answer, Live(m, now, timeout), Live(m', now, timeout), key, now, timeout)
  {
    hide Total;
    if key in Live(m, now, timeout) {
      SinceOne(Live(m, now, timeout)[key].fields, call, key.domain);
    }
    match call.op
    case InsertOp(k, fields) =>
    case GetOp(k) =>
    case RemoveOp(k) =>
    case RemoveDomainOp(d) =>
    case RefreshOp(d, resolve) =>
  }

  lemma SinceOne<F>(fields: seq<F>, call: Call<F>, domain: int)
    ensures Since(fields, [call], domain)
         == if call.op.RefreshOp? && call.op.domain == domain then call.op.resolve(fields) else fields
  {
    assert [call][..0] == [];
  }

  lemma SinceMore<F>(fields: seq<F>, calls: seq<Call<F>>, c: Call<F>, domain: int)
    ensures Since(fields, calls + [c], domain) == Since(Since(fields, calls, domain), [c], domain)
  {
    assert (calls + [c])[..|calls|] == calls;
    SinceOne(Since(fields, calls, domain), c, domain);
  }

  /** What is live of a key is what its last definition says, if that stands. */
  ghost predicate LiveIs<F>(calls: seq<Call<F>>, answers: seq<Answer<F>>, live: Entries<F>, key: Key, now: nat, timeout: nat)
    requires |answers| == |calls|
  {
    && (key in live <==> exists j :: Defines(calls, answers, j, key, now, timeout))
    && forall j :: Defines(calls, answers, j, key, now, timeout) ==>
         key in live && live[key] == Entry(Since(calls[j].op.fields, calls[j + 1..], key.domain), calls[j].now)
  }

  lemma {:induction false} LiveAfter<F>(calls: seq<Call<F>>, answers: seq<Answer<F>>, key: Key, now: nat, timeout: nat)
    requires Right(calls, answers, timeout) && Until(calls, now)
    ensures LiveIs(calls, answers, Live(After(map[], calls, timeout), now, timeout), key, now, timeout)
    decreases |calls|
  {
    hide EagerStep, Live, Touches;
    if calls == [] {
      LiveNone<F>(now, timeout);
    } else {
      var n := |calls| - 1;
      var before, m := calls[..n], After(map[], calls[..n], timeout);
      assert forall i :: 0 <= i <= n ==> before[..i] == calls[..i];
      LiveAfter(before, answers[..n], key, now, timeout);
      assert before + [calls[n]] == calls;
      AfterLast(map[], before, calls[n], timeout);
      StepLive(m, calls[n], key, now, timeout);
      var m' := EagerStep(m, calls[n], timeout).0;
      LiveMore(calls, answers, Live(m, now, timeout), Live(m', now, timeout), key, now, timeout);
    }
  }

  lemma LiveNone<F>(now: nat, timeout: nat)
    ensures Live<F>(map[], now, timeout) == map[]
  {
  }

  lemma LiveMore<F>(
    calls: seq<Call<F>>, answers: seq<Answer<F>>, live: Entries<F>, live': Entries<F>, key: Key, now: nat, timeout: nat)
    requires |answers| == |calls| > 0
    requires LiveIs(calls[..|calls| - 1], answers[..|calls| - 1], live, key, now, timeout)
    requires Stepped(calls[|calls| - 1], answers[|calls| - 1], live, live', key, now, timeout)
    ensures LiveIs(calls, answers, live', key, now, timeout)
  {
    var n := |calls| - 1;
    var before := calls[..n];
    assert calls[n..] == [calls[n]] && calls[n + 1..] == [];
    forall j
      ensures Defines(calls, answers, j, key, now, timeout) <==>
        if Touches(calls[n].op, key) then
          j == n && calls[n].op.InsertOp? && answers[n] == Accepted(true) && now < calls[n].now + timeout
        else Defines(before, answers[..n], j, key, now, timeout)
    {
      assert forall i :: 0 <= i < n ==> before[i] == calls[i];
    }
    forall j | Defines(calls, answers, j, key, now, timeout)
      ensures key in live' && live'[key] == Entry(Since(calls[j].op.fields, calls[j + 1..], key.domain), calls[j].now)
    {
      if j < n {
        assert Defines(before, answers[..n], j, key, now, timeout);
        SinceMore(calls[j].op.fields, before[j + 1..], calls[n], key.domain);
        assert before[j + 1..] + [calls[n]] == calls[j + 1..];
      }
    }
    if key in live' && !Touches(calls[n].op, key) {
      var j :| Defines(before, answers[..n], j, key, now, timeout);
      assert Defines(calls, answers, j, key, now, timeout);
    }
    if key in live' && Touches(calls[n].op, key) {
      assert Defines(calls, answers, n, key, now, timeout);
    }
  }

  lemma {:induction false} Ordered<F(!new)>(start: nat, calls: seq<Call<F>>, i: nat)
    requires RunOk(start, calls) && i < |calls|
    ensures Until(calls[..i], calls[i].now)
    decreases i
  {
    if i > 0 {
      Ordered(start, calls, i - 1);
      var before := calls[..i - 1];
      assert calls[..i] == before + [calls[i - 1]];
      assert calls[i - 1].now <= calls[i].now;
    }
  }

  lemma RunAt<F(!new)>(start: nat, calls: seq<Call<F>>, timeout: nat, i: nat, key: Key)
    requires RunOk(start, calls) && i < |calls|
    ensures var answers, now := EagerRun(map[], calls, timeout), calls[i].now;
            && |answers| == |calls|
            && answers[i] == EagerStep(After(map[], calls[..i], timeout), calls[i], timeout).1
            && LiveIs(calls[..i], answers[..i], Live(After(map[], calls[..i], timeout), now, timeout), key, now, timeout)
  {
    hide EagerStep, Live, LiveIs;
    RunIs(map[], calls, timeout);
    Ordered(start, calls, i);
    var before, answers := calls[..i], EagerRun(map[], calls, timeout);
    forall j | 0 <= j < i
      ensures answers[..i][j] == EagerStep(After(map[], before[..j], timeout), before[j], timeout).1
    {
      assert before[..j] == calls[..j];
    }
    LiveAfter(before, answers[..i], key, calls[i].now, timeout);
  }

  /** In any run a template is found if and only if its last definition was accepted, nothing touched it since and it is
      younger than the timeout: with the fields it was defined with, as resolved anew since. */
  lemma FoundIs<F(!new)>(start: nat, calls: seq<Call<F>>, timeout: nat, i: nat, fields: seq<F>)
    requires RunOk(start, calls) && i < |calls| && calls[i].op.GetOp?
    ensures var answers := EagerRun(map[], calls, timeout);
            && |answers| == |calls|
            && (answers[i] == Got(Some(fields)) <==>
                 DefinedAs(calls[..i], answers[..i], calls[i].op.key, calls[i].now, timeout, fields))
            && (answers[i] == Got(None) <==>
                 forall j :: !Defines(calls[..i], answers[..i], j, calls[i].op.key, calls[i].now, timeout))
  {
    hide Defines;
    RunAt(start, calls, timeout, i, calls[i].op.key);
  }

  /** All that would be found but for a key. */
  ghost predicate OthersAre<F>(
    others: Entries<F>, calls: seq<Call<F>>, answers: seq<Answer<F>>, key: Key, now: nat, timeout: nat)
    requires |answers| == |calls|
  {
    && key !in others
    && forall k :: k != key ==> LiveIs(calls, answers, others, k, now, timeout)
  }

  /** A template is accepted if and only if its fields and those of all others that would be found are at most 65536. */
  lemma AcceptedIs<F(!new)>(start: nat, calls: seq<Call<F>>, timeout: nat, i: nat, others: Entries<F>)
    requires RunOk(start, calls) && i < |calls| && calls[i].op.InsertOp?
    requires |EagerRun(map[], calls, timeout)| == |calls|
    requires OthersAre(others, calls[..i], EagerRun(map[], calls, timeout)[..i], calls[i].op.key, calls[i].now, timeout)
    ensures EagerRun(map[], calls, timeout)[i] == Accepted(Total(others) + |calls[i].op.fields| <= 65_536)
  {
    hide Total, Defines, Live;
    var key, now := calls[i].op.key, calls[i].now;
    var live := Live(After(map[], calls[..i], timeout), now, timeout);
    RunAt(start, calls, timeout, i, key);
    forall k | k != key
      ensures k in others <==> k in live
      ensures k in others ==> others[k] == live[k]
    {
      RunAt(start, calls, timeout, i, k);
      assert LiveIs(calls[..i], EagerRun(map[], calls, timeout)[..i], others, k, now, timeout);
    }
    assert live - {key} == others;
  }
}
