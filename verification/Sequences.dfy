/** What every module needs of sequences and numbers. */
module Sequences {

  function Max(a: nat, b: nat): nat {
    if a < b then b else a
  }

  lemma Regroup<T>(a: seq<T>, b: seq<T>, c: seq<T>)
    ensures a + b + c == a + (b + c)
  {
  }
}
