/**
 * The string body of section 7 of RFC 8259, as items: a byte that stands for
 * itself, a short escape, or \u with four hex digits of either case. What
 * json_escape writes is such a body and the shortest one; what json_unescape
 * reads from any such body is what its items mean.
 */
module JsonGrammar {
  import opened Options
  import opened Seqs
  import opened Utf8
  import opened JsonCodec

  datatype Item =
    | Plain(b: int)
    | Short(c: int)
    | Hex(n: int, caps: seq<bool>)

  /** The characters that may follow a backslash, but for u. */
  const SHORTS := {0x22, 0x5C, 0x2F, 0x62, 0x66, 0x6E, 0x72, 0x74}

  predicate ItemOk(it: Item) {
    match it
    case Plain(b) => 0x20 <= b < 256 && b != 0x22 && b != 0x5C
    case Short(c) => c in SHORTS
    case Hex(n, caps) => 0 <= n <= 0xFFFF && |caps| == 4
  }

  ghost predicate ItemsOk(items: seq<Item>) { forall i :: 0 <= i < |items| ==> ItemOk(items[i]) }

  function HexChar(d: int, cap: bool): int { if d < 10 then 0x30 + d else if cap then 0x41 + d - 10 else 0x61 + d - 10 }

  function Text(it: Item): (s: seq<int>)
    requires ItemOk(it)
    ensures 1 <= |s| <= 6
  {
    match it
    case Plain(b) => [b]
    case Short(c) => [0x5C, c]
    case Hex(n, caps) =>
      [0x5C, 0x75, HexChar(n / 4096 % 16, caps[0]), HexChar(n / 256 % 16, caps[1]),
       HexChar(n / 16 % 16, caps[2]), HexChar(n % 16, caps[3])]
  }

  function Texts(items: seq<Item>): seq<int>
    requires ItemsOk(items)
  {
    if |items| == 0 then [] else Text(items[0]) + Texts(items[1..])
  }

  /** A string body: the text of some items. */
  ghost predicate StringBody(s: seq<int>) { exists items :: ItemsOk(items) && s == Texts(items) }

  // What a body means

  function ShortMeans(c: int): int {
    if c == 0x62 then 8
    else if c == 0x66 then 12
    else if c == 0x6E then 10
    else if c == 0x72 then 13
    else if c == 0x74 then 9
    else c
  }

  /** U+FFFD stands in for a NUL and for half a pair, which the output cannot hold. */
  function UnitMeans(n: int): seq<int>
    requires 0 <= n <= 0xFFFF
  {
    if n == 0 || 0xD800 <= n <= 0xDFFF then Encode(0xFFFD) else Encode(n)
  }

  function ItemMeans(it: Item): seq<int>
    requires ItemOk(it)
  {
    match it
    case Plain(b) => [b]
    case Short(c) => [ShortMeans(c)]
    case Hex(n, _) => UnitMeans(n)
  }

  /** A high surrogate and a low one. */
  predicate PairOf(hi: Option<int>, low: Option<int>) {
    hi.Some? && low.Some? && 0xD800 <= hi.value <= 0xDBFF && 0xDC00 <= low.value <= 0xDFFF
  }

  function PairMeans(hi: int, low: int): seq<int>
    requires PairOf(Some(hi), Some(low))
  {
    Encode(0x10000 + (hi - 0xD800) * 1024 + (low - 0xDC00))
  }

  predicate Paired(items: seq<Item>) { |items| > 1 && PairOf(UnitOf(items), UnitOf(items[1..])) }

  function Meaning(items: seq<Item>): seq<int>
    requires ItemsOk(items)
  {
    if |items| == 0 then []
    else if Paired(items) then
      PairMeans(items[0].n, items[1].n) + Meaning(items[2..])
    else ItemMeans(items[0]) + Meaning(items[1..])
  }

  // Reading a body

  lemma HexCharReads(d: int, cap: bool)
    requires 0 <= d < 16
    ensures HexVal(HexChar(d, cap)) == Some(d)
  {
  }

  /** Six bytes that escape the 16-bit value `n`. */
  predicate Escapes(e: seq<int>, n: int) { |e| == 6 && e[0] == BACK && e[1] == 0x75 && Hex4(e[2], e[3], e[4], e[5]) == Some(n) }

  lemma HexTextEscapes(it: Item)
    requires ItemOk(it) && it.Hex?
    ensures Escapes(Text(it), it.n)
  {
    var n := it.n;
    HexCharReads(n / 4096 % 16, it.caps[0]);
    HexCharReads(n / 256 % 16, it.caps[1]);
    HexCharReads(n / 16 % 16, it.caps[2]);
    HexCharReads(n % 16, it.caps[3]);
    Nibbles(n);
  }

  lemma UAtEscape(p: seq<int>, e: seq<int>, rest: seq<int>, n: int)
    requires Escapes(e, n)
    ensures UAt(p + e + rest, |p|) == Some(n)
  {
    var s := p + e + rest;
    assert forall k :: 0 <= k < 6 ==> s[|p| + k] == e[k];
  }

  /** The item at a boundary, byte by byte, and the next boundary. */
  lemma BoundaryHead(p: seq<int>, items: seq<Item>, w: seq<int>)
    requires ItemsOk(items) && |items| > 0 && w == p + Texts(items)
    ensures w == p + Text(items[0]) + Texts(items[1..])
    ensures |p| + |Text(items[0])| <= |w| && w[|p|] == Text(items[0])[0]
    ensures |Text(items[0])| > 1 ==> w[|p| + 1] == Text(items[0])[1]
  {
    Assoc(p, Text(items[0]), Texts(items[1..]));
  }

  lemma NoUAt(w: seq<int>, i: nat)
    requires i <= |w| && (i + 1 < |w| && w[i] == BACK ==> w[i + 1] != 0x75)
    ensures UAt(w, i) == None
  {
  }

  lemma HexUAt(p: seq<int>, it: Item, rest: seq<int>)
    requires ItemOk(it) && it.Hex?
    ensures UAt(p + Text(it) + rest, |p|) == Some(it.n)
  {
    HexTextEscapes(it);
    UAtEscape(p, Text(it), rest, it.n);
  }

  lemma OtherUAt(p: seq<int>, it: Item, rest: seq<int>)
    requires ItemOk(it) && !it.Hex?
    ensures UAt(p + Text(it) + rest, |p|) == None
  {
    var w, e := p + Text(it) + rest, Text(it);
    assert w[|p|] == e[0] && (|e| > 1 ==> w[|p| + 1] == e[1]);
    NoUAt(w, |p|);
  }

  /** The 16-bit value that a first item escapes, if it does. */
  function UnitOf(items: seq<Item>): Option<int> { if |items| > 0 && items[0].Hex? then Some(items[0].n) else None }

  /** What stands at an item boundary is a \u escape exactly when the next item is. */
  lemma UAtBoundary(p: seq<int>, items: seq<Item>, w: seq<int>)
    requires ItemsOk(items) && w == p + Texts(items)
    ensures UAt(w, |p|) == UnitOf(items)
  {
    if |items| == 0 {
      NoUAt(w, |p|);
    } else {
      Assoc(p, Text(items[0]), Texts(items[1..]));
      if items[0].Hex? { HexUAt(p, items[0], Texts(items[1..])); } else { OtherUAt(p, items[0], Texts(items[1..])); }
    }
  }

  lemma PlainStep(w: seq<int>, i: nat, b: int, r: seq<int>) returns (r': seq<int>)
    requires i < |w| && w[i] == b != BACK && Rests(w, i, r)
    ensures r == [b] + r' && Rests(w, i + 1, r')
  {
    DecodedStep(w, i, Turn(1, [b]));
    r' := Decoded(w, i + 1);
  }

  lemma ShortStep(w: seq<int>, i: nat, c: int, r: seq<int>) returns (r': seq<int>)
    requires i + 1 < |w| && w[i] == BACK && w[i + 1] == c && c in SHORTS && Rests(w, i, r)
    ensures r == [ShortMeans(c)] + r' && Rests(w, i + 2, r')
  {
    DecodedStep(w, i, Turn(2, [ShortMeans(c)]));
    r' := Decoded(w, i + 2);
  }

  lemma HexTurn(w: seq<int>, i: nat, n: int, low: Option<int>)
    requires i + 6 <= |w| && w[i] == BACK && w[i + 1] == 0x75 && UAt(w, i) == Some(n) && UAt(w, i + 6) == low
    ensures Read(w, i) ==
      if PairOf(Some(n), low) then Turn(12, PairMeans(n, low.value)) else Turn(6, UnitMeans(n))
  {
    assert Read(w, i) == ReadU(w, i);
  }

  lemma HexStep(w: seq<int>, i: nat, n: int, low: Option<int>, r: seq<int>) returns (r': seq<int>)
    requires i + 6 <= |w| && w[i] == BACK && w[i + 1] == 0x75 && UAt(w, i) == Some(n) && UAt(w, i + 6) == low
    requires Rests(w, i, r)
    ensures if PairOf(Some(n), low) then r == PairMeans(n, low.value) + r' && Rests(w, i + 12, r')
            else r == UnitMeans(n) + r' && Rests(w, i + 6, r')
  {
    HexTurn(w, i, n, low);
    r' := TurnStep(w, i, Read(w, i), r);
  }

  lemma TurnStep(w: seq<int>, i: nat, t: Turn, r: seq<int>) returns (r': seq<int>)
    requires i < |w| && t == Read(w, i) && Rests(w, i, r)
    ensures r == t.out + r' && Rests(w, i + t.used, r')
  {
    DecodedStep(w, i, t);
    r' := Decoded(w, i + t.used);
  }

  lemma {:induction false} BodyDecodesFrom(p: seq<int>, items: seq<Item>, w: seq<int>, r: seq<int>)
    requires ItemsOk(items) && w == p + Texts(items) && Rests(w, |p|, r)
    ensures r == Meaning(items)
    decreases |items|
  {
    if |items| > 0 {
      BoundaryHead(p, items, w);
      var p1 := p + Text(items[0]);
      if items[0].Hex? {
        HexDecodesFrom(p, p1, items, w, r);
      } else {
        var r' := OtherStep(w, |p|, items[0], r);
        BodyDecodesFrom(p1, items[1..], w, r');
      }
    }
  }

  lemma OtherStep(w: seq<int>, i: nat, it: Item, r: seq<int>) returns (r': seq<int>)
    requires ItemOk(it) && !it.Hex? && i + |Text(it)| <= |w| && w[i] == Text(it)[0]
    requires (|Text(it)| > 1 ==> w[i + 1] == Text(it)[1]) && Rests(w, i, r)
    ensures r == ItemMeans(it) + r' && Rests(w, i + |Text(it)|, r')
  {
    if it.Plain? { r' := PlainStep(w, i, it.b, r); } else { r' := ShortStep(w, i, it.c, r); }
  }

  lemma {:induction false} HexDecodesFrom(p: seq<int>, p1: seq<int>, items: seq<Item>, w: seq<int>, r: seq<int>)
    requires ItemsOk(items) && |items| > 0 && items[0].Hex? && w == p + Texts(items) && Rests(w, |p|, r)
    requires p1 == p + Text(items[0]) && w == p1 + Texts(items[1..])
    ensures r == Meaning(items)
    decreases |items|, 0
  {
    var r' := HexAt(p, p1, items, w, r);
    if Paired(items) {
      BoundaryHead(p1, items[1..], w);
      assert items[1..][1..] == items[2..];
      BodyDecodesFrom(p1 + Text(items[1]), items[2..], w, r');
    } else {
      BodyDecodesFrom(p1, items[1..], w, r');
    }
  }

  lemma HexAt(p: seq<int>, p1: seq<int>, items: seq<Item>, w: seq<int>, r: seq<int>) returns (r': seq<int>)
    requires ItemsOk(items) && |items| > 0 && items[0].Hex? && w == p + Texts(items) && Rests(w, |p|, r)
    requires p1 == p + Text(items[0]) && w == p1 + Texts(items[1..])
    ensures if Paired(items) then r == PairMeans(items[0].n, items[1].n) + r' && Rests(w, |p1| + 6, r')
            else r == UnitMeans(items[0].n) + r' && Rests(w, |p1|, r')
  {
    BoundaryHead(p, items, w);
    UAtBoundary(p, items, w);
    UAtBoundary(p1, items[1..], w);
    r' := HexStep(w, |p|, items[0].n, UnitOf(items[1..]), r);
  }

  /** Unescaping any string body gives what its items mean. */
  lemma BodyDecodes(items: seq<Item>)
    requires ItemsOk(items)
    ensures Unescape(Texts(items)) == Meaning(items)
  {
    assert [] + Texts(items) == Texts(items);
    BodyDecodesFrom([], items, Texts(items), Unescape(Texts(items)));
  }

  // Writing a body

  function ItemOf(c: int): (it: Item)
    requires 1 <= c < 256
    ensures ItemOk(it)
  {
    if c == 0x22 || c == 0x5C then Short(c)
    else if c == 8 then Short(0x62)
    else if c == 12 then Short(0x66)
    else if c == 10 then Short(0x6E)
    else if c == 13 then Short(0x72)
    else if c == 9 then Short(0x74)
    else if c < 0x20 then Hex(c, [false, false, false, false])
    else Plain(c)
  }

  lemma ItemIsEscape(c: int)
    requires 1 <= c < 256
    ensures Text(ItemOf(c)) == EscapeByte(c)
  {
  }

  lemma ConsItem(c: int, items: seq<Item>)
    requires 1 <= c < 256 && ItemsOk(items)
    ensures var all := [ItemOf(c)] + items;
      ItemsOk(all) && Texts(all) == EscapeByte(c) + Texts(items) && Meaning(all) == [c] + Meaning(items)
  {
    var all := [ItemOf(c)] + items;
    ItemIsEscape(c);
    assert all[1..] == items && !Paired(all);
  }

  /** What escape writes is a string body that means the string. */
  lemma {:induction false} EscapeIsBody(s: seq<int>) returns (items: seq<Item>)
    requires NoNul(s)
    ensures ItemsOk(items) && Escape(s) == Texts(items) && Meaning(items) == s
  {
    items := [];
    if |s| > 0 {
      var rest := EscapeIsBody(s[1..]);
      ConsItem(s[0], rest);
      items := [ItemOf(s[0])] + rest;
      assert s == [s[0]] + s[1..];
    }
  }

  /** So it holds no control byte and no bare quote, and unescapes to the string. */
  lemma EscapeWellFormed(s: seq<int>)
    requires NoNul(s)
    ensures StringBody(Escape(s)) && Unescape(Escape(s)) == s
    ensures forall i :: 0 <= i < |Escape(s)| ==> 0x20 <= Escape(s)[i] < 256
  {
    var items := EscapeIsBody(s);
    BodyDecodes(items);
    TextsPrintable(items);
  }

  lemma {:induction false} TextsPrintable(items: seq<Item>)
    requires ItemsOk(items)
    ensures forall i :: 0 <= i < |Texts(items)| ==> 0x20 <= Texts(items)[i] < 256
  {
    if |items| > 0 {
      TextsPrintable(items[1..]);
      TextPrintable(items[0]);
    }
  }

  lemma TextPrintable(it: Item)
    requires ItemOk(it)
    ensures forall i :: 0 <= i < |Text(it)| ==> 0x20 <= Text(it)[i] < 256
  {
  }

  // No shorter body means the same

  lemma {:induction false} EscapeConcat(a: seq<int>, b: seq<int>)
    ensures Escape(a + b) == Escape(a) + Escape(b)
    decreases |a|
  {
    if |a| == 0 {
      assert a + b == b;
    } else {
      assert (a + b)[1..] == a[1..] + b;
      EscapeConcat(a[1..], b);
      Assoc(EscapeByte(a[0]), Escape(a[1..]), Escape(b));
    }
  }

  lemma {:induction false} HighStays(s: seq<int>)
    requires forall i :: 0 <= i < |s| ==> s[i] >= 0x80
    ensures |Escape(s)| == |s|
  {
    if |s| > 0 { HighStays(s[1..]); }
  }

  lemma EncodedEscape(cp: int)
    requires Scalar(cp)
    ensures |Escape(Encode(cp))| <= 6
  {
    if cp < 0x80 {
      assert Encode(cp)[1..] == [] && Escape(Encode(cp)[1..]) == [];
    } else {
      LeadAdmits(cp);
      HighStays(Encode(cp));
    }
  }

  lemma OneEscape(c: int)
    ensures |Escape([c])| == |EscapeByte(c)|
  {
    assert [c][1..] == [] && Escape([c][1..]) == [];
  }

  /** Escape writes the shortest string body there is for the string. */
  lemma {:induction false} EscapeIsShortest(items: seq<Item>)
    requires ItemsOk(items)
    ensures |Escape(Meaning(items))| <= |Texts(items)|
    decreases |items|
  {
    if |items| == 0 {
    } else if Paired(items) {
      EscapeIsShortest(items[2..]);
      EncodedEscape(0x10000 + (items[0].n - 0xD800) * 1024 + (items[1].n - 0xDC00));
      EscapeConcat(PairMeans(items[0].n, items[1].n), Meaning(items[2..]));
      assert items[1..][1..] == items[2..];
    } else {
      EscapeIsShortest(items[1..]);
      ItemEscape(items[0]);
      EscapeConcat(ItemMeans(items[0]), Meaning(items[1..]));
    }
  }

  /** Escaping what an item means takes no more than the item. */
  lemma ItemEscape(it: Item)
    requires ItemOk(it)
    ensures |Escape(ItemMeans(it))| <= |Text(it)|
  {
    match it
    case Plain(b) => OneEscape(b);
    case Short(c) => OneEscape(ShortMeans(c));
    case Hex(n, _) => EncodedEscape(if n == 0 || 0xD800 <= n <= 0xDFFF then 0xFFFD else n);
  }

  // Valid UTF-8 stays valid

  lemma EscapeByteFeeds(c: int, rest: seq<int>)
    requires 1 <= c < 0x80
    ensures FeedAll(Start, EscapeByte(c) + rest) == FeedAll(Start, rest)
  {
    var e := EscapeByte(c);
    AsciiStays(e + rest, 0, |e|);
    assert (e + rest)[0..] == e + rest && (e + rest)[|e|..] == rest;
  }

  lemma {:induction false} EscapeFeeds(q: Expect, s: seq<int>)
    requires NoNul(s) && Awaits(q) && FeedAll(q, s) == Some(Start)
    ensures FeedAll(q, Escape(s)) == Some(Start)
    decreases |s|
  {
    if |s| > 0 {
      var q' := Feed(q, s[0]).value;
      EscapeFeeds(q', s[1..]);
      if s[0] < 0x80 {
        assert q == Start && q' == Start;
        EscapeByteFeeds(s[0], Escape(s[1..]));
      } else {
        assert Escape(s)[1..] == Escape(s[1..]);
      }
    }
  }

  /** Escaping valid UTF-8 gives valid UTF-8. */
  lemma EscapeValid(s: seq<int>)
    requires NoNul(s) && Valid(s)
    ensures Valid(Escape(s))
  {
    EscapeFeeds(Start, s);
  }
}
