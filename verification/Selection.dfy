/** Selecting the k-th smallest of an array, in place. */
module Selection {

  function CountAtMost(s: seq<nat>, c: nat): nat {
    if s == [] then 0 else (if s[0] <= c then 1 else 0) + CountAtMost(s[1..], c)
  }

  lemma {:induction false} CountConcat(s: seq<nat>, t: seq<nat>, c: nat)
    ensures CountAtMost(s + t, c) == CountAtMost(s, c) + CountAtMost(t, c)
  {
    if s == [] {
      assert s + t == t;
    } else {
      CountConcat(s[1..], t, c);
      assert (s + t)[1..] == s[1..] + t;
    }
  }

  lemma {:induction false} CountAll(s: seq<nat>, c: nat)
    ensures (forall i :: 0 <= i < |s| ==> s[i] <= c) ==> CountAtMost(s, c) == |s|
    ensures (forall i :: 0 <= i < |s| ==> s[i] > c) ==> CountAtMost(s, c) == 0
  {
    if s != [] {
      CountAll(s[1..], c);
    }
  }

  lemma Cancel(x: nat, a: multiset<nat>, b: multiset<nat>, c: multiset<nat>)
    requires multiset{x} + a == b + (multiset{x} + c)
    ensures a == b + c
  {
    forall y: nat
      ensures a[y] == (b + c)[y]
    {
      assert (multiset{x} + a)[y] == (b + (multiset{x} + c))[y];
    }
  }

  /** Counting does not depend on the order. */
  lemma {:induction false} CountPermuted(s: seq<nat>, t: seq<nat>, c: nat)
    requires multiset(s) == multiset(t)
    ensures CountAtMost(s, c) == CountAtMost(t, c)
  {
    if s == [] {
      assert |t| == |multiset(t)| == |multiset(s)| == 0;
    } else {
      assert s[0] in multiset(t);
      var i :| 0 <= i < |t| && t[i] == s[0];
      var rest := t[..i] + t[i + 1..];
      assert t == t[..i] + ([t[i]] + t[i + 1..]);
      assert s == [s[0]] + s[1..];
      assert multiset(t) == multiset(t[..i]) + (multiset{t[i]} + multiset(t[i + 1..]));
      assert multiset(s) == multiset{s[0]} + multiset(s[1..]);
      Cancel(s[0], multiset(s[1..]), multiset(t[..i]), multiset(t[i + 1..]));
      CountPermuted(s[1..], rest, c);
      CountConcat(t[..i], t[i + 1..], c);
      CountConcat(t[..i], [t[i]] + t[i + 1..], c);
      assert ([t[i]] + t[i + 1..])[1..] == t[i + 1..];
    }
  }

  predicate Distinct<T(==)>(s: seq<T>) {
    forall i, j :: 0 <= i < j < |s| ==> s[i] != s[j]
  }

  lemma {:induction false} DistinctMultiset(s: seq<nat>)
    ensures Distinct(s) <==> forall x :: multiset(s)[x] <= 1
  {
    if s != [] {
      var h, t := s[0], s[1..];
      assert s == [h] + t;
      DistinctMultiset(t);
      assert multiset(s) == multiset{h} + multiset(t);
      assert forall x :: multiset(s)[x] == multiset(t)[x] + (if x == h then 1 else 0);
      assert (forall x :: multiset(s)[x] <= 1) <==> multiset(t)[h] == 0 && forall x :: multiset(t)[x] <= 1;
      assert Distinct(s) <==> h !in t && Distinct(t) by {
        assert forall i :: 0 <= i < |t| ==> t[i] == s[i + 1];
      }
    }
  }

  /** Nothing before `lo` is above anything from it on, and likewise for `hi`. */
  ghost predicate Fenced(a: array<nat>, lo: nat, hi: nat)
    reads a
  {
    && lo <= hi <= a.Length
    && (forall i, j :: 0 <= i < lo <= j < a.Length ==> a[i] <= a[j])
    && (forall i, j :: 0 <= i < hi <= j < a.Length ==> a[i] <= a[j])
  }

  method Swap(a: array<nat>, i: nat, j: nat, lo: nat, hi: nat)
    requires lo <= i < hi && lo <= j < hi && Fenced(a, lo, hi)
    modifies a
    ensures a[i] == old(a[j]) && a[j] == old(a[i])
    ensures forall k :: 0 <= k < a.Length && k != i && k != j ==> a[k] == old(a[k])
    ensures multiset(a[..]) == multiset(old(a[..])) && Fenced(a, lo, hi)
  {
    a[i], a[j] := a[j], a[i];
  }

  /** Splits the stretch into what is below, at and above the pivot. */
  method Partition(a: array<nat>, lo: nat, hi: nat, pivot: nat) returns (lt: nat, gt: nat)
    requires Fenced(a, lo, hi) && exists p :: lo <= p < hi && a[p] == pivot
    modifies a
    ensures multiset(a[..]) == multiset(old(a[..])) && Fenced(a, lo, hi)
    ensures lo <= lt < gt <= hi
    ensures forall k :: lo <= k < hi ==> (k < lt <==> a[k] < pivot) && (k >= gt <==> a[k] > pivot)
  {
    lt, gt := lo, hi;
    var i := lo;
    ghost var p :| lo <= p < hi && a[p] == pivot;
    while i < gt
      invariant lo <= lt <= i <= gt <= hi && Fenced(a, lo, hi)
      invariant multiset(a[..]) == multiset(old(a[..]))
      invariant forall k :: lo <= k < lt ==> a[k] < pivot
      invariant forall k :: lt <= k < i ==> a[k] == pivot
      invariant forall k :: gt <= k < hi ==> a[k] > pivot
      invariant lt <= p < gt && a[p] == pivot
      decreases gt - i
    {
      if a[i] < pivot {
        Swap(a, i, lt, lo, hi);
        if p == lt {
          p := i;
        }
        lt, i := lt + 1, i + 1;
      } else if a[i] > pivot {
        gt := gt - 1;
        Swap(a, i, gt, lo, hi);
        if p == gt {
          p := i;
        }
      } else {
        i := i + 1;
      }
    }
  }

  /** Puts the k-th smallest in its place, with nothing larger before it or smaller after it. */
  method SelectNth(a: array<nat>, k: nat)
    requires k < a.Length
    modifies a
    ensures multiset(a[..]) == multiset(old(a[..]))
    ensures forall i :: 0 <= i <= k ==> a[i] <= a[k]
    ensures forall j :: k <= j < a.Length ==> a[k] <= a[j]
  {
    var lo, hi := 0, a.Length;
    while hi - lo > 1
      invariant lo <= k < hi && Fenced(a, lo, hi)
      invariant multiset(a[..]) == multiset(old(a[..]))
      decreases hi - lo
    {
      var pivot := a[lo + (hi - lo) / 2];
      var lt, gt := Partition(a, lo, hi, pivot);
      if k < lt {
        hi := lt;
      } else if k >= gt {
        lo := gt;
      } else {
        return;
      }
    }
  }

  /** At least k + 1 elements are at most the k-th smallest, and just as many when all are distinct. */
  method NthSmallest(values: seq<nat>, k: nat) returns (c: nat)
    requires k < |values|
    ensures CountAtMost(values, c) >= k + 1
    ensures Distinct(values) ==> CountAtMost(values, c) == k + 1
  {
    var a := new nat[|values|](i requires 0 <= i < |values| => values[i]);
    assert a[..] == values;
    SelectNth(a, k);
    c := a[k];
    SelectedCount(values, a[..], k);
  }

  lemma LowCount(t: seq<nat>, k: nat)
    requires k < |t| && forall i :: 0 <= i <= k ==> t[i] <= t[k]
    ensures CountAtMost(t, t[k]) == k + 1 + CountAtMost(t[k + 1..], t[k])
  {
    var low, high := t[..k + 1], t[k + 1..];
    assert t == low + high;
    CountConcat(low, high, t[k]);
    CountAll(low, t[k]);
  }

  lemma SelectedCount(values: seq<nat>, t: seq<nat>, k: nat)
    requires multiset(values) == multiset(t) && k < |t|
    requires forall i :: 0 <= i <= k ==> t[i] <= t[k]
    requires forall j :: k <= j < |t| ==> t[k] <= t[j]
    ensures CountAtMost(values, t[k]) >= k + 1
    ensures Distinct(values) ==> CountAtMost(values, t[k]) == k + 1
  {
    var low, high := t[..k + 1], t[k + 1..];
    CountPermuted(values, t, t[k]);
    LowCount(t, k);
    if Distinct(values) {
      DistinctMultiset(values);
      DistinctMultiset(t);
      forall i | 0 <= i < |high|
        ensures high[i] > t[k]
      {
        assert high[i] == t[k + 1 + i];
      }
      CountAll(high, t[k]);
    }
  }
}
