/** Which octets are UTF-8: those of sequences of Unicode scalar values (RFC 3629 section 3). */
module CodePoints {
  import opened Bytes
  import Utf8

  /** Any code point but a surrogate. */
  type Point = c: int | 0 <= c < 0xD800 || 0xE000 <= c <= 0x10_FFFF

  function Octets(c: Point): (b: bytes)
    ensures 1 <= |b| <= 4
  {
    if c < 0x80 then [c]
    else if c < 0x800 then [0xC0 + c / 64, 0x80 + c % 64]
    else if c < 0x1_0000 then [0xE0 + c / 4096, 0x80 + c / 64 % 64, 0x80 + c % 64]
    else [0xF0 + c / 262144, 0x80 + c / 4096 % 64, 0x80 + c / 64 % 64, 0x80 + c % 64]
  }

  function Text(cs: seq<Point>): bytes {
    if cs == [] then [] else Octets(cs[0]) + Text(cs[1..])
  }

  lemma PointIsChar(c: Point, rest: bytes)
    ensures Utf8.CharLen(Octets(c) + rest) == |Octets(c)|
  {
    var s := Octets(c) + rest;
    if c >= 0x1_0000 {
      assert s[0] == 0xF0 + c / 262144 && s[1] == 0x80 + c / 4096 % 64;
    } else if c >= 0x800 {
      assert s[0] == 0xE0 + c / 4096 && s[1] == 0x80 + c / 64 % 64;
    }
  }

  lemma TwoOctets(a: int, b: int)
    requires 0xC2 <= a <= 0xDF && 0x80 <= b <= 0xBF
    ensures var c := (a - 0xC0) * 64 + (b - 0x80);
            0x80 <= c < 0x800 && Octets(c) == [a, b]
  {
  }

  lemma ThreeOctets(a: int, b: int, d: int)
    requires 0xE0 <= a <= 0xEF && 0x80 <= b <= 0xBF && 0x80 <= d <= 0xBF
    requires (a == 0xE0 ==> 0xA0 <= b) && (a == 0xED ==> b <= 0x9F)
    ensures var c := (a - 0xE0) * 4096 + (b - 0x80) * 64 + (d - 0x80);
            0x800 <= c < 0x1_0000 && !(0xD800 <= c <= 0xDFFF) && Octets(c) == [a, b, d]
  {
    var c := (a - 0xE0) * 4096 + (b - 0x80) * 64 + (d - 0x80);
    assert c / 64 == (a - 0xE0) * 64 + (b - 0x80) && c % 64 == d - 0x80;
    assert c / 4096 == a - 0xE0;
  }

  lemma FourOctets(a: int, b: int, d: int, e: int)
    requires 0xF0 <= a <= 0xF4 && 0x80 <= b <= 0xBF && 0x80 <= d <= 0xBF && 0x80 <= e <= 0xBF
    requires (a == 0xF0 ==> 0x90 <= b) && (a == 0xF4 ==> b <= 0x8F)
    ensures var c := (a - 0xF0) * 262144 + (b - 0x80) * 4096 + (d - 0x80) * 64 + (e - 0x80);
            0x1_0000 <= c <= 0x10_FFFF && Octets(c) == [a, b, d, e]
  {
    var c := (a - 0xF0) * 262144 + (b - 0x80) * 4096 + (d - 0x80) * 64 + (e - 0x80);
    assert c / 64 == (a - 0xF0) * 4096 + (b - 0x80) * 64 + (d - 0x80) && c % 64 == e - 0x80;
    assert c / 4096 == (a - 0xF0) * 64 + (b - 0x80) && c / 64 % 64 == d - 0x80;
    assert c / 262144 == a - 0xF0;
  }

  lemma CharIsPoint(s: bytes) returns (c: Point)
    requires Utf8.CharLen(s) > 0
    ensures s[..Utf8.CharLen(s)] == Octets(c)
  {
    hide Octets;
    var n := Utf8.CharLen(s);
    var a: int := s[0];
    if n == 1 {
      OneOctet(a);
      c := a;
    } else if n == 2 {
      var b: int := s[1];
      TwoOctets(a, b);
      c := (a - 0xC0) * 64 + (b - 0x80);
    } else if n == 3 {
      var b: int, d: int := s[1], s[2];
      ThreeOctets(a, b, d);
      c := (a - 0xE0) * 4096 + (b - 0x80) * 64 + (d - 0x80);
    } else {
      var b: int, d: int, e: int := s[1], s[2], s[3];
      FourOctets(a, b, d, e);
      c := (a - 0xF0) * 262144 + (b - 0x80) * 4096 + (d - 0x80) * 64 + (e - 0x80);
    }
  }

  lemma OneOctet(a: int)
    requires 0 <= a < 0x80
    ensures Octets(a) == [a]
  {
  }

  lemma {:induction false} TextIsValid(cs: seq<Point>)
    ensures Utf8.Valid(Text(cs))
  {
    hide Utf8.CharLen, Octets;
    if cs != [] {
      var rest := Text(cs[1..]);
      PointIsChar(cs[0], rest);
      TextIsValid(cs[1..]);
      assert (Octets(cs[0]) + rest)[|Octets(cs[0])|..] == rest;
    }
  }

  lemma {:induction false} ValidIsText(s: bytes) returns (cs: seq<Point>)
    requires Utf8.Valid(s)
    ensures s == Text(cs)
    decreases |s|
  {
    hide Utf8.CharLen, Octets;
    if s == [] {
      cs := [];
    } else {
      var n := Utf8.CharLen(s);
      var c := CharIsPoint(s);
      var more := ValidIsText(s[n..]);
      cs := [c] + more;
      assert cs[1..] == more && s == s[..n] + s[n..];
    }
  }

  /** Octets are taken for text if and only if they are the UTF-8 of some code points, none a surrogate. */
  lemma ValidIs(s: bytes)
    ensures Utf8.Valid(s) <==> exists cs :: s == Text(cs)
  {
    if Utf8.Valid(s) {
      var cs := ValidIsText(s);
    } else if cs :| s == Text(cs) {
      TextIsValid(cs);
    }
  }
}
