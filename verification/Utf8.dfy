/** The UTF-8 facts the string codec relies on (RFC 3629). */
module Utf8 {
  import opened Bytes

  predicate Within(s: bytes, i: nat, lo: int, hi: int) {
    i < |s| && lo <= s[i] <= hi
  }

  predicate Continuation(s: bytes, i: nat) {
    Within(s, i, 0x80, 0xBF)
  }

  /** The length of the well-formed character `s` starts with, or 0. */
  function CharLen(s: bytes): (n: nat)
    ensures n <= |s| && n <= 4
  {
    if s == [] then 0
    else if s[0] < 0x80 then 1
    else if 0xC2 <= s[0] <= 0xDF && Continuation(s, 1) then 2
    else if Continuation(s, 2) && (
              || (s[0] == 0xE0 && Within(s, 1, 0xA0, 0xBF))
              || ((0xE1 <= s[0] <= 0xEC || 0xEE <= s[0] <= 0xEF) && Continuation(s, 1))
              || (s[0] == 0xED && Within(s, 1, 0x80, 0x9F))) then 3
    else if Continuation(s, 2) && Continuation(s, 3) && (
              || (s[0] == 0xF0 && Within(s, 1, 0x90, 0xBF))
              || (0xF1 <= s[0] <= 0xF3 && Continuation(s, 1))
              || (s[0] == 0xF4 && Within(s, 1, 0x80, 0x8F))) then 4
    else 0
  }

  predicate Valid(s: bytes) {
    s == [] || (CharLen(s) > 0 && Valid(s[CharLen(s)..]))
  }

  /** `trim_end_matches('\0')` */
  function TrimNuls(s: bytes): bytes {
    if s != [] && s[|s| - 1] == 0 then TrimNuls(s[..|s| - 1]) else s
  }

  /** `floor_char_boundary`: the last character boundary at or before `n`. */
  function FloorBoundary(s: bytes, n: nat): (i: nat)
    ensures i <= n && i <= |s|
  {
    if n >= |s| then |s|
    else if n == 0 || !Continuation(s, n) then n
    else FloorBoundary(s, n - 1)
  }

  /** The first character depends on nothing after it. */
  lemma CharLenPrefix(s: bytes, t: bytes)
    requires 0 < CharLen(s) <= |t| && forall i: nat :: i < CharLen(s) ==> t[i] == s[i]
    ensures CharLen(t) == CharLen(s)
  {
  }

  lemma {:induction false} ValidPadded(s: bytes, k: nat)
    requires Valid(s)
    ensures Valid(s + Zeros(k))
    decreases |s| + k
  {
    var z := s + Zeros(k);
    if s != [] {
      var c := CharLen(s);
      CharLenPrefix(s, z);
      ValidPadded(s[c..], k);
      assert z[c..] == s[c..] + Zeros(k);
    } else if k > 0 {
      assert z == Zeros(k) && z[1..] == [] + Zeros(k - 1);
      ValidPadded([], k - 1);
    }
  }

  lemma {:induction false} TrimPadded(s: bytes, k: nat)
    requires s == [] || s[|s| - 1] != 0
    ensures TrimNuls(s + Zeros(k)) == s
  {
    if k > 0 {
      assert (s + Zeros(k))[..|s| + k - 1] == s + Zeros(k - 1);
      TrimPadded(s, k - 1);
    } else {
      assert s + Zeros(0) == s;
    }
  }

  /** Cutting a string at a floored boundary leaves UTF-8. */
  lemma {:induction false} ValidCut(s: bytes, n: nat)
    requires Valid(s)
    ensures Valid(s[..FloorBoundary(s, n)])
  {
    hide CharLen;
    var c := CharLen(s);
    if n >= |s| {
      assert s[..|s|] == s;
    } else if n < c {
      FloorInsideChar(s, n);
      assert s[..0] == [];
    } else {
      FloorShift(s, c, n);
      var tail := s[c..];
      var i := FloorBoundary(tail, n - c);
      ValidCut(tail, n - c);
      var cut := s[..c + i];
      CharLenPrefix(s, cut);
      assert cut[c..] == tail[..i];
    }
  }

  lemma {:induction false} FloorInsideChar(s: bytes, n: nat)
    requires n < CharLen(s)
    ensures FloorBoundary(s, n) == 0
  {
    if n > 0 {
      FloorInsideChar(s, n - 1);
    }
  }

  lemma {:induction false} FloorShift(s: bytes, c: nat, n: nat)
    requires Valid(s) && 0 < c == CharLen(s) <= n < |s|
    ensures FloorBoundary(s, n) == c + FloorBoundary(s[c..], n - c)
  {
    assert s[c..][n - c] == s[n];
    if n == c {
      assert Valid(s[c..]);
    } else {
      FloorShift(s, c, n - 1);
    }
  }

  /** No character of a string starts with an octet that continues one. */
  lemma {:induction false} BoundaryIsNoContinuation(s: bytes, j: nat)
    requires Valid(s) && j < |s| && Valid(s[..j])
    ensures !Continuation(s, j)
    decreases |s|
  {
    if j > 0 {
      var c := CharLen(s[..j]);
      CharLenPrefix(s[..j], s);
      assert s[..j][c..] == s[c..][..j - c];
      BoundaryIsNoContinuation(s[c..], j - c);
      assert s[c..][j - c] == s[j];
    }
  }

  /** The floored boundary is the last that cuts to UTF-8. */
  lemma {:induction false} FloorIsLast(s: bytes, n: nat, j: nat)
    requires Valid(s) && j <= n && j <= |s| && Valid(s[..j])
    ensures j <= FloorBoundary(s, n)
  {
    hide CharLen, Valid, Continuation;
    if j < n < |s| && Continuation(s, n) {
      FloorIsLast(s, n - 1, j);
    } else if j == n < |s| {
      BoundaryIsNoContinuation(s, j);
    }
  }
}
