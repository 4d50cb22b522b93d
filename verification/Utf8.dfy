/**
 * UTF-8 of section 3 of RFC 3629, twice: as the encodings of Unicode scalar
 * values, and as the byte-by-byte automaton a stream is checked with.
 */
module Utf8 {
  import opened Options

  predicate IsBytes(s: seq<int>) { forall i :: 0 <= i < |s| ==> 0 <= s[i] < 256 }

  predicate Scalar(cp: int) { 0 <= cp <= 0x10FFFF && !(0xD800 <= cp <= 0xDFFF) }

  function Encode(cp: int): (s: seq<int>)
    requires Scalar(cp)
    ensures 1 <= |s| <= 4 && IsBytes(s)
  {
    if cp < 0x80 then [cp]
    else if cp < 0x800 then [0xC0 + cp / 64, 0x80 + cp % 64]
    else if cp < 0x10000 then [0xE0 + cp / 4096, 0x80 + cp / 64 % 64, 0x80 + cp % 64]
    else [0xF0 + cp / 262144, 0x80 + cp / 4096 % 64, 0x80 + cp / 64 % 64, 0x80 + cp % 64]
  }

  function EncodeAll(cps: seq<int>): seq<int>
    requires forall i :: 0 <= i < |cps| ==> Scalar(cps[i])
  {
    if |cps| == 0 then [] else Encode(cps[0]) + EncodeAll(cps[1..])
  }

  /** `Next(lo, hi, more)`: the next byte lies in lo..hi, and `more` plain continuation bytes follow it. */
  datatype Expect = Start | Next(lo: int, hi: int, more: int)

  function Feed(q: Expect, b: int): Option<Expect> {
    match q
    case Next(lo, hi, more) =>
      if lo <= b <= hi then Some(if more > 0 then Next(0x80, 0xBF, more - 1) else Start) else None
    case Start =>
      if 0 <= b < 0x80 then Some(Start)
      else if 0xC2 <= b <= 0xDF then Some(Next(0x80, 0xBF, 0))
      else if b == 0xE0 then Some(Next(0xA0, 0xBF, 1))
      else if b == 0xED then Some(Next(0x80, 0x9F, 1))
      else if 0xE1 <= b <= 0xEF then Some(Next(0x80, 0xBF, 1))
      else if b == 0xF0 then Some(Next(0x90, 0xBF, 2))
      else if 0xF1 <= b <= 0xF3 then Some(Next(0x80, 0xBF, 2))
      else if b == 0xF4 then Some(Next(0x80, 0x8F, 2))
      else None
  }

  function FeedAll(q: Expect, s: seq<int>): Option<Expect>
    decreases |s|
  {
    if |s| == 0 then Some(q)
    else
      var r := Feed(q, s[0]);
      if r.None? then None else FeedAll(r.value, s[1..])
  }

  predicate Valid(s: seq<int>) { FeedAll(Start, s) == Some(Start) }

  lemma {:induction false} FeedConcat(q: Expect, s: seq<int>, t: seq<int>)
    ensures FeedAll(q, s + t) == var r := FeedAll(q, s); if r.None? then None else FeedAll(r.value, t)
    decreases |s|
  {
    if |s| == 0 {
      assert s + t == t;
    } else {
      assert (s + t)[1..] == s[1..] + t;
      var r := Feed(q, s[0]);
      if r.Some? { FeedConcat(r.value, s[1..], t); }
    }
  }

  /** Plain continuation bytes bring the automaton back to its start. */
  lemma {:induction false} Continue(q: Expect, s: seq<int>)
    requires q.Next? && q.more >= 0 && |s| == q.more + 1 && q.lo <= s[0] <= q.hi
    requires forall i :: 1 <= i < |s| ==> 0x80 <= s[i] <= 0xBF
    ensures FeedAll(q, s) == Some(Start)
    decreases |s|
  {
    if q.more > 0 {
      assert forall i :: 0 <= i < |s| - 1 ==> s[1..][i] == s[i + 1];
      Continue(Next(0x80, 0xBF, q.more - 1), s[1..]);
    } else {
      assert s[1..] == [] && FeedAll(Start, s[1..]) == Some(Start);
    }
  }

  /** The lead byte of an encoding admits the byte that follows it. */
  lemma LeadAdmits(cp: int)
    requires Scalar(cp) && cp >= 0x80
    ensures var s := Encode(cp); var q := Feed(Start, s[0]);
      && q.Some? && q.value.Next? && q.value.more == |s| - 2 && q.value.lo <= s[1] <= q.value.hi
      && forall i :: 1 <= i < |s| ==> 0x80 <= s[i] <= 0xBF
  {
  }

  lemma EncodeValid(cp: int)
    requires Scalar(cp)
    ensures Valid(Encode(cp))
  {
    var s := Encode(cp);
    if cp < 0x80 {
      assert s[1..] == [] && FeedAll(Start, s[1..]) == Some(Start);
    } else {
      LeadAdmits(cp);
      Continue(Feed(Start, s[0]).value, s[1..]);
    }
  }

  /** The automaton accepts exactly the encodings of sequences of scalar values. */
  lemma {:induction false} EncodingsAreValid(cps: seq<int>)
    requires forall i :: 0 <= i < |cps| ==> Scalar(cps[i])
    ensures Valid(EncodeAll(cps))
  {
    if |cps| > 0 {
      EncodeValid(cps[0]);
      EncodingsAreValid(cps[1..]);
      FeedConcat(Start, Encode(cps[0]), EncodeAll(cps[1..]));
    }
  }

  lemma {:induction false} ValidAreEncodings(s: seq<int>) returns (cps: seq<int>)
    requires Valid(s)
    ensures forall i :: 0 <= i < |cps| ==> Scalar(cps[i])
    ensures s == EncodeAll(cps)
  {
    if |s| == 0 { return []; }
    var cp := FirstScalar(s);
    var n := |Encode(cp)|;
    EncodeValid(cp);
    assert s == s[..n] + s[n..];
    FeedConcat(Start, s[..n], s[n..]);
    var rest := ValidAreEncodings(s[n..]);
    cps := [cp] + rest;
  }

  /** After a lead byte the rest of the character is determined byte by byte. */
  lemma NextByte(q: Expect, s: seq<int>) returns (q': Expect)
    requires q.Next? && FeedAll(q, s) == Some(Start)
    ensures |s| > 0 && q.lo <= s[0] <= q.hi && FeedAll(q', s[1..]) == Some(Start)
    ensures q' == if q.more > 0 then Next(0x80, 0xBF, q.more - 1) else Start
  {
    q' := Feed(q, s[0]).value;
  }

  lemma FirstScalar(s: seq<int>) returns (cp: int)
    requires Valid(s) && |s| > 0
    ensures Scalar(cp) && |Encode(cp)| <= |s| && s[..|Encode(cp)|] == Encode(cp)
  {
    var a := s[0];
    if a < 0x80 { return a; }
    var q := Feed(Start, a).value;
    if a < 0xE0 { cp := Scalar2(q, s); }
    else if a < 0xF0 { cp := Scalar3(q, s); }
    else { cp := Scalar4(q, s); }
  }

  lemma Scalar2(q: Expect, s: seq<int>) returns (cp: int)
    requires |s| > 0 && 0x80 <= s[0] < 0xE0 && Feed(Start, s[0]) == Some(q) && FeedAll(q, s[1..]) == Some(Start)
    ensures Scalar(cp) && |Encode(cp)| <= |s| && s[..|Encode(cp)|] == Encode(cp)
  {
    var q1 := NextByte(q, s[1..]);
    cp := (s[0] - 0xC0) * 64 + (s[1] - 0x80);
  }

  lemma Scalar3(q: Expect, s: seq<int>) returns (cp: int)
    requires |s| > 0 && 0xE0 <= s[0] < 0xF0 && Feed(Start, s[0]) == Some(q) && FeedAll(q, s[1..]) == Some(Start)
    ensures Scalar(cp) && |Encode(cp)| <= |s| && s[..|Encode(cp)|] == Encode(cp)
  {
    var q1 := NextByte(q, s[1..]);
    var q2 := NextByte(q1, s[1..][1..]);
    cp := (s[0] - 0xE0) * 4096 + (s[1] - 0x80) * 64 + (s[2] - 0x80);
    Split3(s[0] - 0xE0, s[1] - 0x80, s[2] - 0x80);
  }

  lemma Scalar4(q: Expect, s: seq<int>) returns (cp: int)
    requires |s| > 0 && 0xF0 <= s[0] && Feed(Start, s[0]) == Some(q) && FeedAll(q, s[1..]) == Some(Start)
    ensures Scalar(cp) && |Encode(cp)| <= |s| && s[..|Encode(cp)|] == Encode(cp)
  {
    var q1 := NextByte(q, s[1..]);
    var q2 := NextByte(q1, s[1..][1..]);
    var q3 := NextByte(q2, s[1..][1..][1..]);
    cp := (s[0] - 0xF0) * 262144 + (s[1] - 0x80) * 4096 + (s[2] - 0x80) * 64 + (s[3] - 0x80);
    Split4(s[0] - 0xF0, s[1] - 0x80, s[2] - 0x80, s[3] - 0x80);
  }

  lemma Split3(a: int, b: int, c: int)
    requires 0 <= a < 16 && 0 <= b < 64 && 0 <= c < 64
    ensures var cp := a * 4096 + b * 64 + c; cp / 4096 == a && cp / 64 % 64 == b && cp % 64 == c
  {
  }

  lemma Split4(a: int, b: int, c: int, d: int)
    requires 0 <= a < 8 && 0 <= b < 64 && 0 <= c < 64 && 0 <= d < 64
    ensures var cp := a * 262144 + b * 4096 + c * 64 + d;
      cp / 262144 == a && cp / 4096 % 64 == b && cp / 64 % 64 == c && cp % 64 == d
  {
    var cp := a * 262144 + b * 4096 + c * 64 + d;
    var x, y := a * 4096 + b * 64 + c, a * 64 + b;
    assert cp == 64 * x + d && cp / 64 == x;
    assert x == 64 * y + c && cp / 4096 == y;
  }
}
