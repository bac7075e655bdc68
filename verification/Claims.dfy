/** Claiming final names in a directory that several collectors write to, by hard links. */
module Claiming {
  import opened Bytes
  import opened Calendar
  import opened Digits
  import opened Layouts
  import opened Naming

  /** A file being written in the directory. */
  datatype Pending = Pending(layout: Layout, window: int, pid: nat) {
    function Wanted(): string {
      FileName(layout, window)
    }

    function Temp(): string {
      TempName(Wanted(), pid)
    }

    function Tried(n: nat): string {
      Candidate(Wanted(), n)
    }
  }

  /** No two are written under the same name: their windows, prefixes, extensions or processes differ. */
  ghost predicate Apart(ps: seq<Pending>) {
    && (forall i :: 0 <= i < |ps| ==> ExtensionOk(ps[i].layout.extension))
    && forall i, j :: 0 <= i < j < |ps| ==> ps[i].Wanted() != ps[j].Wanted() || ps[i].pid != ps[j].pid
  }

  lemma TempsDiffer(p: Pending, q: Pending)
    requires p.Wanted() != q.Wanted() || p.pid != q.pid
    ensures p.Temp() != q.Temp()
  {
    hide FileName, Decimal;
    var a, b := Decimal(p.pid), Decimal(q.pid);
    DecimalIsInjective(p.pid, q.pid);
    TempSplits(p.Wanted(), p.pid);
    TempSplits(q.Wanted(), q.pid);
  }

  lemma TempSplits(final: string, pid: nat)
    ensures Unhidden(TempName(final, pid)) == Some(final + "." + Decimal(pid))
    ensures SplitLast(final + "." + Decimal(pid), '.') == Some((final, Decimal(pid)))
  {
    hide Decimal, Unhidden, SplitLast;
    var digits := Decimal(pid);
    assert forall i :: 0 <= i < |digits| ==> IsDigit(digits[i]);
    assert '.' !in digits;
    SplitLastAt(final, '.', digits);
    assert final + "." + digits == final + ['.'] + digits;
    Unhides(final + "." + digits);
    assert TempName(final, pid) == "." + (final + "." + digits) + ".tmp";
  }

  lemma Unhides(s: string)
    ensures Unhidden("." + s + ".tmp") == Some(s)
  {
    var name := "." + s + ".tmp";
    assert name[1..] == s + ".tmp";
    assert (s + ".tmp")[..|s|] == s && (s + ".tmp")[|s|..] == ".tmp";
  }

  lemma TempIsNotTried(p: Pending, q: Pending, n: nat)
    requires ExtensionOk(q.layout.extension)
    ensures p.Temp() != q.Tried(n)
  {
    hide FileName, Candidate, TempName, StampText, At, Unhidden, Decimal, Suffix;
    CandidateParts(q.layout, q.window, n);
    NotTemporary(q.Tried(n), q.layout.extension,
                 q.layout.prefix + "-" + (StampText(At(q.window)) + Suffix(n)));
    TempSplits(p.Wanted(), p.pid);
  }

  // One claim, undisturbed

  /** The file of a claimant, or one of someone else. */
  datatype FileId = Ours(claimant: nat) | Theirs(id: int)

  /** A directory, by name. */
  class Folder {
    var names: map<string, FileId>

    constructor (names: map<string, FileId>)
      ensures this.names == names
    {
      this.names := names;
    }

    /** A second name for a file, unless the name is taken. */
    method HardLink(from: string, to: string) returns (linked: bool)
      requires from in names
      modifies this
      ensures linked <==> to !in old(names)
      ensures names == if linked then old(names)[to := old(names)[from]] else old(names)
    {
      linked := to !in names;
      if linked {
        names := names[to := names[from]];
      }
    }

    method RemoveFile(name: string)
      modifies this
      ensures names == old(names) - {name}
    {
      names := names - {name};
    }

    /** Moves the file to the first free of its names. */
    method ClaimFinalName(p: Pending) returns (claimed: Option<string>)
      requires p.Temp() in names && ExtensionOk(p.layout.extension)
      modifies this
      ensures claimed.None? ==>
        names == old(names) && forall n :: 0 <= n < 1000 ==> p.Tried(n) in names
      ensures claimed.Some? ==> exists n: nat ::
        && n < 1000 && claimed.value == p.Tried(n) && p.Tried(n) !in old(names)
        && (forall m :: 0 <= m < n ==> p.Tried(m) in old(names))
        && names == old(names)[p.Tried(n) := old(names)[p.Temp()]] - {p.Temp()}
      ensures claimed.Some? ==> claimed.value in names && names[claimed.value] == old(names)[p.Temp()]
    {
      assert MAX_NAME_ATTEMPTS == 1000;
      hide *;
      for n := 0 to MAX_NAME_ATTEMPTS
        invariant names == old(names) && forall m :: 0 <= m < n ==> p.Tried(m) in names
      {
        var linked := HardLink(p.Temp(), p.Tried(n));
        if linked {
          TempIsNotTried(p, p, n);
          RemoveFile(p.Temp());
          return Some(p.Tried(n));
        }
      }
      claimed := None;
    }
  }

  // Steps

  datatype Progress = Trying(n: nat) | Linked(n: nat) | Done(n: nat) | GivenUp

  datatype State = State(dir: map<string, FileId>, claims: seq<Progress>)

  /** One system call of a claimant, or someone else creating a file under a free name. */
  datatype Event = Advance(claimant: nat) | Create(name: string, id: int)

  function Step(ps: seq<Pending>, s: State, e: Event): (r: State)
    requires |s.claims| == |ps|
    ensures |r.claims| == |ps|
  {
    match e
    case Create(name, id) => if name in s.dir then s else s.(dir := s.dir[name := Theirs(id)])
    case Advance(i) =>
      if i >= |ps| then s
      else
        match s.claims[i]
        case Trying(n) =>
          if n >= MAX_NAME_ATTEMPTS then s.(claims := s.claims[i := GivenUp])
          else
            var name := ps[i].Tried(n);
            if name in s.dir then s.(claims := s.claims[i := Trying(n + 1)])
            else State(s.dir[name := Ours(i)], s.claims[i := Linked(n)])
        case Linked(n) => State(s.dir - {ps[i].Temp()}, s.claims[i := Done(n)])
        case Done(_) => s
        case GivenUp => s
  }

  function Run(ps: seq<Pending>, s: State, events: seq<Event>): (r: State)
    requires |s.claims| == |ps|
    ensures |r.claims| == |ps|
  {
    if events == [] then s
    else Step(ps, Run(ps, s, events[..|events| - 1]), events[|events| - 1])
  }

  ghost predicate IsTemp(ps: seq<Pending>, name: string) {
    exists i :: 0 <= i < |ps| && name == ps[i].Temp()
  }

  /** Every claimant has written its temporary file and not yet looked for a name. */
  ghost predicate Starts(ps: seq<Pending>, s: State) {
    && |s.claims| == |ps|
    && (forall name :: name in s.dir && !IsTemp(ps, name) ==> s.dir[name].Theirs?)
    && forall i :: 0 <= i < |ps| ==>
         s.claims[i] == Trying(0) && ps[i].Temp() in s.dir && s.dir[ps[i].Temp()] == Ours(i)
  }

  /** How far a claimant has come, and that its file is there to be found. */
  ghost predicate Claims(p: Pending, i: nat, dir: map<string, FileId>, progress: Progress) {
    var tried := match progress
                 case Trying(n) => n
                 case Linked(n) => n
                 case Done(n) => n
                 case GivenUp => MAX_NAME_ATTEMPTS;
    && tried <= MAX_NAME_ATTEMPTS && ((progress.Linked? || progress.Done?) ==> tried < MAX_NAME_ATTEMPTS)
    && (forall m :: 0 <= m < tried ==> p.Tried(m) in dir)
    && (!progress.Done? ==> p.Temp() in dir && dir[p.Temp()] == Ours(i))
    && (progress.Linked? || progress.Done? ==> p.Tried(tried) in dir && dir[p.Tried(tried)] == Ours(i))
  }

  ghost predicate Holds(ps: seq<Pending>, s: State) {
    |s.claims| == |ps| && forall i :: 0 <= i < |ps| ==> Claims(ps[i], i, s.dir, s.claims[i])
  }

  /** Names only come, but for temporary ones, and none changes hands. */
  ghost predicate Keeps(ps: seq<Pending>, dir: map<string, FileId>, later: map<string, FileId>) {
    forall name :: name in dir && !IsTemp(ps, name) ==> name in later && later[name] == dir[name]
  }

  lemma TempsApart(ps: seq<Pending>)
    requires Apart(ps)
    ensures forall i, j :: 0 <= i < |ps| && 0 <= j < |ps| && i != j ==> ps[i].Temp() != ps[j].Temp()
    ensures forall i, n: nat :: 0 <= i < |ps| ==> !IsTemp(ps, ps[i].Tried(n))
  {
    hide FileName, TempName, Candidate;
    forall i, j | 0 <= i < |ps| && 0 <= j < |ps| && i != j
      ensures ps[i].Temp() != ps[j].Temp()
    {
      TempsDiffer(ps[i], ps[j]);
    }
    forall i, n: nat | 0 <= i < |ps|
      ensures !IsTemp(ps, ps[i].Tried(n))
    {
      forall j | 0 <= j < |ps|
        ensures ps[j].Temp() != ps[i].Tried(n)
      {
        TempIsNotTried(ps[j], ps[i], n);
      }
    }
  }

  lemma StepHolds(ps: seq<Pending>, s: State, e: Event)
    requires Apart(ps) && Holds(ps, s)
    ensures Holds(ps, Step(ps, s, e)) && Keeps(ps, s.dir, Step(ps, s, e).dir)
  {
    hide FileName, TempName, Candidate, Apart;
    TempsApart(ps);
    var r := Step(ps, s, e);
    forall j | 0 <= j < |ps|
      ensures Claims(ps[j], j, r.dir, r.claims[j])
    {
      assert Claims(ps[j], j, s.dir, s.claims[j]);
    }
  }

  /** Over any run, however the claimants' steps and others' interleave and whoever stops early, every file stays to be
      found under its temporary or its final name, and no name that was taken changes hands. */
  lemma {:induction false} RunHolds(ps: seq<Pending>, start: State, events: seq<Event>)
    requires Apart(ps) && Starts(ps, start)
    ensures Holds(ps, Run(ps, start, events)) && Keeps(ps, start.dir, Run(ps, start, events).dir)
  {
    hide FileName, TempName, Candidate, Apart, Step;
    if events != [] {
      var before := Run(ps, start, events[..|events| - 1]);
      RunHolds(ps, start, events[..|events| - 1]);
      StepHolds(ps, before, events[|events| - 1]);
    }
  }

  /** Claimants that are done hold names of their own, read back to their windows; one gives up only when every name it
      may try is taken. */
  lemma ClaimedNames(ps: seq<Pending>, start: State, events: seq<Event>, i: nat, j: nat)
    requires Apart(ps) && Starts(ps, start) && i < |ps| && j < |ps|
    ensures var r := Run(ps, start, events);
            && (r.claims[i].Done? ==>
                  var name := ps[i].Tried(r.claims[i].n);
                  && name in r.dir && r.dir[name] == Ours(i) && name !in start.dir
                  && (YearFits(ps[i].window) ==> Name(ps[i].layout, name) == Some(OwnName(ps[i].window, false))))
            && (i != j && r.claims[i].Done? && r.claims[j].Done? ==>
                  ps[i].Tried(r.claims[i].n) != ps[j].Tried(r.claims[j].n))
            && (r.claims[i].GivenUp? ==> forall n :: 0 <= n < 1000 ==> ps[i].Tried(n) in r.dir)
  {
    hide FileName, TempName, Candidate, Run, YearFits, Name, IsTemp;
    var r := Run(ps, start, events);
    RunHolds(ps, start, events);
    assert Claims(ps[i], i, r.dir, r.claims[i]) && Claims(ps[j], j, r.dir, r.claims[j]);
    if r.claims[i].Done? {
      CandidateReadsBack(ps[i].layout, ps[i].window, r.claims[i].n);
      TempsApart(ps);
    }
  }
}
