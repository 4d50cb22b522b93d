/**
 * json_escape and json_unescape of core/json.c, over bytes: the string body
 * of section 7 of RFC 8259. The methods run over index and write cursor as
 * the source does and are proved against the functions.
 */
module JsonCodec {
  import opened Options
  import opened Seqs
  import opened Utf8

  const QUOTE := 0x22
  const BACK := 0x5C

  predicate NoNul(s: seq<int>) { forall i :: 0 <= i < |s| ==> 1 <= s[i] < 256 }

  // Escape

  function HexDigit(d: int): int { if d < 10 then 0x30 + d else 0x61 + d - 10 }

  /** \uXXXX in lower case. */
  function UEscape(n: int): (s: seq<int>)
    ensures |s| == 6
  {
    [BACK, 0x75, HexDigit(n / 4096 % 16), HexDigit(n / 256 % 16), HexDigit(n / 16 % 16), HexDigit(n % 16)]
  }

  function EscapeByte(c: int): (s: seq<int>)
    ensures 1 <= |s| <= 6
  {
    if c == QUOTE then [BACK, QUOTE]
    else if c == BACK then [BACK, BACK]
    else if c == 0x08 then [BACK, 0x62]
    else if c == 0x0C then [BACK, 0x66]
    else if c == 0x0A then [BACK, 0x6E]
    else if c == 0x0D then [BACK, 0x72]
    else if c == 0x09 then [BACK, 0x74]
    else if c < 0x20 then UEscape(c)
    else [c]
  }

  function Escape(s: seq<int>): seq<int> { if |s| == 0 then [] else EscapeByte(s[0]) + Escape(s[1..]) }

  // Unescape

  function HexVal(h: int): (r: Option<int>)
    ensures r.Some? ==> 0 <= r.value < 16
  {
    if 0x30 <= h <= 0x39 then Some(h - 0x30)
    else if 0x61 <= h <= 0x66 then Some(h - 0x61 + 10)
    else if 0x41 <= h <= 0x46 then Some(h - 0x41 + 10)
    else None
  }

  /** json_hex4. */
  function Hex4(h0: int, h1: int, h2: int, h3: int): (r: Option<int>)
    ensures r.Some? ==> 0 <= r.value <= 0xFFFF
  {
    var a, b, c, d := HexVal(h0), HexVal(h1), HexVal(h2), HexVal(h3);
    if a.None? || b.None? || c.None? || d.None? then None
    else Some(a.value * 4096 + b.value * 256 + c.value * 16 + d.value)
  }

  /** json_emit_utf8: what a C string cannot hold becomes U+FFFD. */
  function Emit(cp: int): seq<int> { if cp == 0 || !Scalar(cp) then Encode(0xFFFD) else Encode(cp) }

  predicate HighSurrogate(cp: int) { 0xD800 <= cp <= 0xDBFF }

  predicate LowSurrogate(cp: int) { 0xDC00 <= cp <= 0xDFFF }

  /** The four hex digits of an escape starting at the backslash `i`, if it is well formed. */
  function UAt(s: seq<int>, i: int): (r: Option<int>)
    requires 0 <= i <= |s|
    ensures r.Some? ==> 0 <= r.value <= 0xFFFF && i + 6 <= |s|
  {
    if i + 6 <= |s| && s[i] == BACK && s[i + 1] == 0x75 then Hex4(s[i + 2], s[i + 3], s[i + 4], s[i + 5]) else None
  }

  /** What one turn of the loop consumes and writes. */
  datatype Turn = Turn(used: int, out: seq<int>)

  function ReadU(s: seq<int>, i: int): (t: Turn)
    requires 0 <= i && i + 1 < |s|
    ensures 2 <= t.used <= |s| - i && 1 <= |t.out| <= t.used
  {
    var cp := UAt(s, i);
    if cp.None? then Turn(2, [BACK, 0x75])
    else
      var lo := UAt(s, i + 6);
      if HighSurrogate(cp.value) && lo.Some? && LowSurrogate(lo.value) then
        Turn(12, Emit(0x10000 + (cp.value - 0xD800) * 1024 + (lo.value - 0xDC00)))
      else
        assert |Emit(cp.value)| <= 3;
        Turn(6, Emit(cp.value))
  }

  function Read(s: seq<int>, i: int): (t: Turn)
    requires 0 <= i < |s|
    ensures 1 <= t.used <= |s| - i && 1 <= |t.out| <= t.used
  {
    if s[i] != BACK || i + 1 >= |s| then Turn(1, [s[i]])
    else
      var n := s[i + 1];
      if n == 0x62 then Turn(2, [0x08])
      else if n == 0x66 then Turn(2, [0x0C])
      else if n == 0x6E then Turn(2, [0x0A])
      else if n == 0x72 then Turn(2, [0x0D])
      else if n == 0x74 then Turn(2, [0x09])
      else if n == 0x75 then ReadU(s, i)
      else Turn(2, [n])
  }

  /** The decoded bytes of `s` from `i` on: never more than the bytes they came from. */
  function Decoded(s: seq<int>, i: int): (r: seq<int>)
    requires 0 <= i <= |s|
    ensures |r| <= |s| - i
    decreases |s| - i
  {
    if i == |s| then [] else Read(s, i).out + Decoded(s, i + Read(s, i).used)
  }

  function Unescape(s: seq<int>): seq<int> { Decoded(s, 0) }

  // Round trip

  /** `rest` is what the bytes from `i` on decode to. */
  predicate Rests(s: seq<int>, i: int, rest: seq<int>) { 0 <= i <= |s| && rest == Decoded(s, i) }

  lemma DecodedStep(s: seq<int>, i: int, t: Turn)
    requires 0 <= i < |s| && t == Read(s, i)
    ensures Decoded(s, i) == t.out + Decoded(s, i + t.used)
  {
  }

  lemma HexReads(d: int)
    requires 0 <= d < 16
    ensures HexVal(HexDigit(d)) == Some(d)
  {
  }

  lemma Nibbles(n: int)
    requires 0 <= n <= 0xFFFF
    ensures n / 4096 % 16 * 4096 + n / 256 % 16 * 256 + n / 16 % 16 * 16 + n % 16 == n
  {
    var x := n / 16;
    var y := x / 16;
    assert y == n / 256 && y / 16 == n / 4096;
  }

  /** Any 16-bit value survives the trip through its \uXXXX form. */
  lemma UEscapeReads(p: seq<int>, n: int, rest: seq<int>)
    requires 0 <= n <= 0xFFFF
    ensures UAt(p + UEscape(n) + rest, |p|) == Some(n)
  {
    var e := UEscape(n);
    var s := p + e + rest;
    assert forall k :: 0 <= k < 6 ==> s[|p| + k] == e[k];
    HexReads(n / 4096 % 16);
    HexReads(n / 256 % 16);
    HexReads(n / 16 % 16);
    HexReads(n % 16);
    Nibbles(n);
  }

  /** One escaped byte is read back whole, whatever stands around it. */
  lemma EscapedByteReads(p: seq<int>, c: int, rest: seq<int>)
    requires 1 <= c < 256
    ensures Read(p + EscapeByte(c) + rest, |p|) == Turn(|EscapeByte(c)|, [c])
  {
    var e := EscapeByte(c);
    var w := p + e + rest;
    assert w[|p|] == e[0] && (|e| > 1 ==> w[|p| + 1] == e[1]);
    if |e| == 6 { UEscapeReads(p, c, rest); }
  }

  /** Unescaping an escaped string gives the string back, for every NUL-free byte string. */
  lemma UnescapeEscape(s: seq<int>)
    requires NoNul(s)
    ensures Unescape(Escape(s)) == s
  {
    EscapeDecodes([], s, Escape(s), Unescape(Escape(s)));
  }

  lemma {:induction false} EscapeDecodes(p: seq<int>, s: seq<int>, w: seq<int>, r: seq<int>)
    requires NoNul(s) && w == p + Escape(s) && Rests(w, |p|, r)
    ensures r == s
    decreases |s|
  {
    if |s| > 0 {
      var p', r' := EscapeDecodesOne(p, s, w, r);
      EscapeDecodes(p', s[1..], w, r');
      assert s == [s[0]] + s[1..];
    }
  }

  lemma EscapeDecodesOne(p: seq<int>, s: seq<int>, w: seq<int>, r: seq<int>) returns (p': seq<int>, r': seq<int>)
    requires NoNul(s) && |s| > 0 && w == p + Escape(s) && Rests(w, |p|, r)
    ensures w == p' + Escape(s[1..]) && Rests(w, |p'|, r') && r == [s[0]] + r'
  {
    var e, rest := EscapeByte(s[0]), Escape(s[1..]);
    Assoc(p, e, rest);
    p' := p + e;
    r' := ByteDecodes(p, s[0], rest, r);
  }

  lemma ByteDecodes(p: seq<int>, c: int, rest: seq<int>, r: seq<int>) returns (r': seq<int>)
    requires 1 <= c < 256 && Rests(p + EscapeByte(c) + rest, |p|, r)
    ensures r == [c] + r' && Rests(p + EscapeByte(c) + rest, |p| + |EscapeByte(c)|, r')
  {
    var w, e := p + EscapeByte(c) + rest, EscapeByte(c);
    EscapedByteReads(p, c, rest);
    DecodedStep(w, |p|, Turn(|e|, [c]));
    r' := Decoded(w, |p| + |e|);
  }

  /** An escaped character decodes to its UTF-8, above the BMP by way of its surrogate pair. */
  lemma EscapedCharacterReads(cp: int)
    requires Scalar(cp) && cp != 0
    ensures cp <= 0xFFFF ==> Unescape(UEscape(cp)) == Encode(cp)
    ensures cp > 0xFFFF ==>
      Unescape(UEscape(0xD800 + (cp - 0x10000) / 1024) + UEscape(0xDC00 + (cp - 0x10000) % 1024)) == Encode(cp)
  {
    if cp <= 0xFFFF {
      BmpReads(cp);
    } else {
      PairReads(cp, 0xD800 + (cp - 0x10000) / 1024, 0xDC00 + (cp - 0x10000) % 1024);
    }
  }

  lemma BmpReads(cp: int)
    requires Scalar(cp) && 0 < cp <= 0xFFFF
    ensures Unescape(UEscape(cp)) == Encode(cp)
  {
    UEscapeReads([], cp, []);
    assert [] + UEscape(cp) + [] == UEscape(cp);
    OneTurn(UEscape(cp), Encode(cp));
  }

  lemma PairReads(cp: int, hi: int, lo: int)
    requires 0xFFFF < cp <= 0x10FFFF && HighSurrogate(hi) && LowSurrogate(lo)
    requires cp == 0x10000 + (hi - 0xD800) * 1024 + (lo - 0xDC00)
    ensures Unescape(UEscape(hi) + UEscape(lo)) == Encode(cp)
  {
    var s := UEscape(hi) + UEscape(lo);
    UEscapeReads([], hi, UEscape(lo));
    UEscapeReads(UEscape(hi), lo, []);
    assert [] + UEscape(hi) + UEscape(lo) == s && UEscape(hi) + UEscape(lo) + [] == s;
    PairTurn(s, hi, lo);
    OneTurn(s, Encode(cp));
  }

  lemma PairTurn(s: seq<int>, hi: int, lo: int)
    requires |s| == 12 && s[0] == BACK && s[1] == 0x75 && UAt(s, 0) == Some(hi) && UAt(s, 6) == Some(lo)
    requires HighSurrogate(hi) && LowSurrogate(lo)
    ensures Read(s, 0) == Turn(12, Emit(0x10000 + (hi - 0xD800) * 1024 + (lo - 0xDC00)))
  {
  }

  /** A string that one turn uses up. */
  lemma OneTurn(s: seq<int>, out: seq<int>)
    requires |s| > 0 && Read(s, 0) == Turn(|s|, out)
    ensures Unescape(s) == out
  {
    DecodedStep(s, 0, Turn(|s|, out));
  }

  // Valid UTF-8 stays valid

  lemma EmitValid(cp: int)
    ensures Valid(Emit(cp)) && NoNul(Emit(cp))
  {
    EncodeValid(if cp == 0 || !Scalar(cp) then 0xFFFD else cp);
  }

  lemma AsciiStays(s: seq<int>, i: int, n: int)
    requires 0 <= i && 0 <= n <= |s| - i && forall k :: i <= k < i + n ==> 0 <= s[k] < 0x80
    ensures FeedAll(Start, s[i..]) == FeedAll(Start, s[i + n..])
    decreases n
  {
    if n > 0 {
      assert s[i..][1..] == s[i + 1..];
      AsciiStays(s, i + 1, n - 1);
    }
  }

  lemma ReadUValid(s: seq<int>, i: int)
    requires 0 <= i && i + 1 < |s| && s[i] == BACK && s[i + 1] == 0x75
    ensures Valid(ReadU(s, i).out) && NoNul(ReadU(s, i).out)
    ensures FeedAll(Start, s[i..]) == FeedAll(Start, s[i + ReadU(s, i).used..])
  {
    var cp := UAt(s, i);
    if cp.None? {
      AsciiStays(s, i, 2);
      assert Valid([BACK, 0x75]) by { assert [BACK, 0x75][1..] == [0x75] && [0x75][1..] == []; }
    } else {
      HexIsAscii(s, i);
      if ReadU(s, i).used == 12 { HexIsAscii(s, i + 6); }
      AsciiStays(s, i, ReadU(s, i).used);
      var lo := UAt(s, i + 6);
      EmitValid(cp.value);
      if lo.Some? { EmitValid(0x10000 + (cp.value - 0xD800) * 1024 + (lo.value - 0xDC00)); }
    }
  }

  lemma HexIsAscii(s: seq<int>, i: int)
    requires 0 <= i <= |s| && UAt(s, i).Some?
    ensures forall k :: i <= k < i + 6 ==> 0 <= s[k] < 0x80
  {
  }

  /** A byte below 0x80 never continues a character. */
  predicate Awaits(q: Expect) { q.Next? ==> q.lo >= 0x80 }

  /** One turn writes what the automaton, in the state it is in, accepts in place of what was consumed. */
  lemma ReadValid(q: Expect, s: seq<int>, i: int) returns (q': Expect)
    requires 0 <= i < |s| && Awaits(q) && FeedAll(q, s[i..]) == Some(Start)
    ensures Awaits(q') && FeedAll(q, Read(s, i).out) == Some(q')
    ensures FeedAll(q', s[i + Read(s, i).used..]) == Some(Start)
  {
    var t := s[i..];
    assert t[1..] == s[i + 1..];
    q' := Feed(q, s[i]).value;
    if s[i] == BACK && i + 1 < |s| {
      assert q == Start;
      if s[i + 1] == 0x75 {
        ReadUValid(s, i);
      } else {
        assert s[i + 1..][1..] == s[i + 2..];
        q' := Feed(Start, s[i + 1]).value;
      }
    }
  }

  lemma {:induction false} DecodedValid(q: Expect, s: seq<int>, i: int)
    requires 0 <= i <= |s| && Awaits(q) && FeedAll(q, s[i..]) == Some(Start)
    ensures FeedAll(q, Decoded(s, i)) == Some(Start)
    decreases |s| - i
  {
    if i < |s| {
      var q', used := ValidOne(q, s, i);
      DecodedValid(q', s, i + used);
    }
  }

  lemma ValidOne(q: Expect, s: seq<int>, i: int) returns (q': Expect, used: int)
    requires 0 <= i < |s| && Awaits(q) && FeedAll(q, s[i..]) == Some(Start)
    ensures 0 < used <= |s| - i && Awaits(q') && FeedAll(q', s[i + used..]) == Some(Start)
    ensures FeedAll(q', Decoded(s, i + used)) == Some(Start) ==> FeedAll(q, Decoded(s, i)) == Some(Start)
  {
    var t := Read(s, i);
    q' := ReadValid(q, s, i);
    used := t.used;
    DecodedStep(s, i, t);
    FeedConcat(q, t.out, Decoded(s, i + t.used));
  }

  /** Valid UTF-8 decodes to valid UTF-8, through surrogates and malformed escapes alike. */
  lemma UnescapeValid(s: seq<int>)
    requires Valid(s)
    ensures Valid(Unescape(s))
  {
    assert s[0..] == s;
    DecodedValid(Start, s, 0);
  }

  /** And a C string decodes to a C string. */
  lemma DecodedNoNul(s: seq<int>, i: int)
    requires NoNul(s) && 0 <= i <= |s|
    ensures NoNul(Decoded(s, i))
  {
    NoNulIs(s, i, Decoded(s, i));
  }

  lemma {:induction false} NoNulIs(s: seq<int>, i: int, r: seq<int>)
    requires NoNul(s) && 0 <= i <= |s| && r == Decoded(s, i)
    ensures NoNul(r)
    decreases |s| - i
  {
    if i < |s| {
      var t := Read(s, i);
      var rest := Decoded(s, i + t.used);
      ReadNoNul(s, i);
      NoNulIs(s, i + t.used, rest);
      DecodedStep(s, i, t);
    }
  }

  lemma ReadNoNul(s: seq<int>, i: int)
    requires NoNul(s) && 0 <= i < |s|
    ensures NoNul(Read(s, i).out)
  {
    if s[i] == BACK && i + 1 < |s| && s[i + 1] == 0x75 { ReadUValid(s, i); }
  }

  // The loops

  /** json_put: write only where a terminator still fits behind, count always. */
  method Put(out: array<int>, w: nat, c: int, ghost done: seq<int>)
    requires |done| == w && Fits(out, done)
    modifies out
    ensures Fits(out, done + [c])
  {
    if w + 1 < out.Length { out[w] := c; }
  }

  /** The buffer holds as much of `done` as leaves room for the terminator. */
  ghost predicate Fits(out: array<int>, done: seq<int>)
    reads out
  {
    forall k :: 0 <= k < |done| && k + 1 < out.Length ==> out[k] == done[k]
  }

  method PutAll(out: array<int>, w: nat, s: seq<int>, ghost done: seq<int>) returns (w': nat)
    requires |done| == w && Fits(out, done)
    modifies out
    ensures w' == w + |s| && Fits(out, done + s)
  {
    w' := w;
    for k := 0 to |s|
      invariant w' == w + k && Fits(out, done + s[..k])
    {
      Put(out, w', s[k], done + s[..k]);
      assert done + s[..k] + [s[k]] == done + s[..k + 1];
      w' := w' + 1;
    }
    assert s[..|s|] == s;
  }

  method EscapeTurn(s: seq<int>, i: nat, out: array<int>, w: nat, ghost done: seq<int>)
    returns (w': nat, ghost done': seq<int>)
    requires i < |s| && |done| == w && Fits(out, done)
    modifies out
    ensures |done'| == w' && Fits(out, done')
    ensures done' + Escape(s[i + 1..]) == done + Escape(s[i..])
  {
    var e := EscapeByte(s[i]);
    assert s[i..][1..] == s[i + 1..];
    w' := PutAll(out, w, e, done);
    done' := done + e;
  }

  /** json_escape: returns the size needed, writes the prefix that fits, and terminates it. */
  method EscapeInto(s: seq<int>, out: array<int>) returns (w: nat)
    modifies out
    ensures w == |Escape(s)|
    ensures out.Length > 0 ==>
      var n := if w < out.Length then w else out.Length - 1;
      out[..n] == Escape(s)[..n] && out[n] == 0
  {
    w := 0;
    ghost var done: seq<int> := [];
    assert s[0..] == s;
    for i := 0 to |s|
      invariant |done| == w && Fits(out, done) && done + Escape(s[i..]) == Escape(s)
    {
      w, done := EscapeTurn(s, i, out, w, done);
    }
    assert done == Escape(s);
    if out.Length > 0 { out[if w < out.Length then w else out.Length - 1] := 0; }
  }

  method Copy(out: array<int>, w: nat, s: seq<int>)
    requires w + |s| <= out.Length
    modifies out
    ensures out[..w + |s|] == old(out[..w]) + s
  {
    for k := 0 to |s|
      invariant out[..w + k] == old(out[..w]) + s[..k]
    {
      out[w + k] := s[k];
      assert out[..w + k + 1] == out[..w + k] + [s[k]];
    }
    assert s[..|s|] == s;
  }

  /** One turn of the loop, and what is left after it. */
  method ReadTurn(s: seq<int>, i: nat, ghost rest: seq<int>) returns (t: Turn, ghost rest': seq<int>)
    requires i < |s| && Rests(s, i, rest)
    ensures 0 < t.used <= |s| - i && |t.out| <= t.used && rest == t.out + rest' && Rests(s, i + t.used, rest')
  {
    t := Read(s, i);
    DecodedStep(s, i, t);
    rest' := Decoded(s, i + t.used);
  }

  method UnescapeTurn(s: seq<int>, i: nat, out: array<int>, w: nat, ghost rest: seq<int>)
    returns (i': nat, w': nat, ghost rest': seq<int>)
    requires w <= i < |s| < out.Length && Rests(s, i, rest)
    modifies out
    ensures i < i' <= |s| && w' <= i' && Rests(s, i', rest')
    ensures out[..w'] + rest' == old(out[..w]) + rest
  {
    var t;
    t, rest' := ReadTurn(s, i, rest);
    ghost var before := out[..w];
    Copy(out, w, t.out);
    i', w' := i + t.used, w + |t.out|;
    assert before + t.out + rest' == before + rest by { Assoc(before, t.out, rest'); }
  }

  /** json_unescape: needs no more than one byte beyond the input, and never overtakes what it has read. */
  method UnescapeInto(s: seq<int>, out: array<int>) returns (w: nat)
    requires out.Length >= |s| + 1
    modifies out
    ensures w <= |s| && out[..w] == Unescape(s) && out[w] == 0
  {
    w := 0;
    var i := 0;
    ghost var rest := Unescape(s);
    while i < |s|
      invariant w <= i <= |s| && Rests(s, i, rest) && out[..w] + rest == Unescape(s)
    {
      i, w, rest := UnescapeTurn(s, i, out, w, rest);
    }
    out[w] := 0;
  }
}
