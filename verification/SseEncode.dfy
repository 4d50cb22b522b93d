/**
 * A payload put on the wire as data lines and a blank line comes back as that
 * payload, unless a carriage return stands where the reader strips one.
 */
module SseEncode {
  import opened Options
  import opened Seqs
  import opened SseSpec
  import opened TextLines

  /** The lines of a payload, the last one included. */
  function Segments(p: string): (r: seq<string>)
    ensures |r| > 0 && forall i :: 0 <= i < |r| ==> LineEnd(r[i]) == |r[i]|
    decreases |p|
  {
    var i := LineEnd(p);
    if i == |p| then [p]
    else
      assert LineEnd(p[..i]) == i;
      [p[..i]] + Segments(p[i + 1..])
  }

  function Wire(segs: seq<string>): string {
    if |segs| == 0 then "" else "data: " + segs[0] + "\n" + Wire(segs[1..])
  }

  function Encode(p: string): string { Wire(Segments(p)) + "\n" }

  function EncodeAll(ps: seq<string>): string { if |ps| == 0 then "" else Encode(ps[0]) + EncodeAll(ps[1..]) }

  function Tagged(segs: seq<string>): (r: seq<string>)
    ensures |r| == |segs| && forall i :: 0 <= i < |r| ==> |r[i]| > 0
  {
    if |segs| == 0 then [] else ["data: " + segs[0]] + Tagged(segs[1..])
  }

  lemma {:induction false} SegmentsJoin(p: string)
    ensures Join(Segments(p)) == p
    decreases |p|
  {
    var i := LineEnd(p);
    if i < |p| {
      SegmentsJoin(p[i + 1..]);
      var rest := Segments(p[i + 1..]);
      assert ([p[..i]] + rest)[1..] == rest;
      assert p == p[..i] + "\n" + p[i + 1..];
    }
  }

  lemma FramesOne(g: seq<string>, ls: seq<string>)
    requires forall i :: 0 <= i < |g| ==> |g[i]| > 0
    ensures Frames(g + [""] + ls) == FrameOf(g) + Frames(ls)
  {
    assert Blank(g) == |g|;
    GroupBreak(g, ls);
    assert ([g] + Groups(ls))[1..] == Groups(ls);
  }

  lemma StripAfter(h: string, v: string)
    requires LineEnd(h) == |h| && |h| > 0 && h[|h| - 1] != '\r'
    ensures StripCr(h + v) == h + StripCr(v)
    ensures LineEnd(v) == |v| ==> LineEnd(h + v) == |h + v|
  {
    LineEndConcat(h, v);
    assert |v| > 0 ==> (h + v)[..|h + v| - 1] == h + v[..|v| - 1];
    assert |v| == 0 ==> h + v == h;
  }

  lemma TagOpen(h: string)
    requires h == "data: "
    ensures LineEnd(h) == |h|
  {
    assert forall i :: 0 <= i < |h| ==> h[i] != '\n';
  }

  lemma StripTag(v: string)
    ensures StripCr("data: " + v) == "data: " + StripCr(v)
    ensures LineEnd(v) == |v| ==> LineEnd("data: " + v) == |v| + 6
  {
    TagOpen("data: ");
    StripAfter("data: ", v);
  }

  lemma {:induction false} WireRaw(segs: seq<string>, t: string)
    requires forall i :: 0 <= i < |segs| ==> LineEnd(segs[i]) == |segs[i]|
    ensures RawLines(Wire(segs) + t) == Tagged(segs) + RawLines(t)
    decreases |segs|
  {
    if |segs| == 0 {
      assert Wire(segs) + t == t;
    } else {
      var head, rest := "data: " + segs[0], Wire(segs[1..]) + t;
      Assoc(head + "\n", Wire(segs[1..]), t);
      StripTag(segs[0]);
      LineBreak(head, rest);
      WireRaw(segs[1..], t);
      Assoc([head], Tagged(segs[1..]), RawLines(t));
    }
  }

  lemma {:induction false} StrippedTagged(segs: seq<string>)
    ensures Stripped(Tagged(segs)) == Tagged(Stripped(segs))
  {
    if |segs| > 0 {
      StripTag(segs[0]);
      StrippedTagged(segs[1..]);
      assert Tagged(segs)[1..] == Tagged(segs[1..]) && Stripped(segs)[1..] == Stripped(segs[1..]);
    }
  }

  lemma TaggedData(v: string)
    ensures DataOf("data: " + v) == Some(v)
  {
    var l := "data: " + v;
    assert l[4] == ':' && Colon(l) == 4;
    assert l[..4] == "data" && l[6..] == v;
  }

  lemma {:induction false} TaggedDatas(segs: seq<string>)
    ensures Datas(Tagged(segs)) == segs
  {
    if |segs| > 0 {
      TaggedData(segs[0]);
      TaggedDatas(segs[1..]);
    }
  }

  /** One encoded payload in front of a stream is one frame in front of its frames. */
  lemma EncodedReads(p: string, t: string)
    ensures Events(Encode(p) + t) == [Join(Stripped(Segments(p)))] + Events(t)
  {
    var segs := Segments(p);
    var g := Tagged(Stripped(segs));
    assert Encode(p) + t == Wire(segs) + ("" + "\n" + t);
    WireRaw(segs, "" + "\n" + t);
    LineBreak("", t);
    EncodedLines(segs, RawLines(t));
    FramesOne(g, Lines(t));
    TaggedDatas(Stripped(segs));
  }

  lemma EncodedLines(segs: seq<string>, after: seq<string>)
    ensures Stripped(Tagged(segs) + ([""] + after)) == Tagged(Stripped(segs)) + [""] + Stripped(after)
  {
    StrippedConcat(Tagged(segs), [""] + after);
    StrippedConcat([""], after);
    StrippedTagged(segs);
    assert Stripped([""]) == [""];
  }

  // When the payload survives

  /** No carriage return right before a newline or at the end. */
  predicate Unstripped(p: string) {
    forall i :: 0 <= i < |p| && p[i] == '\r' ==> i + 1 < |p| && p[i + 1] != '\n'
  }

  lemma {:induction false} JoinStripped(segs: seq<string>)
    ensures |Join(Stripped(segs))| <= |Join(segs)|
    ensures |Join(Stripped(segs))| == |Join(segs)| ==> Stripped(segs) == segs
  {
    if |segs| > 1 { JoinStripped(segs[1..]); }
  }

  lemma UnstrippedSplit(p: string, i: nat, rest: string)
    requires i < |p| && p[i] == '\n' && rest == p[i + 1..] && forall j :: 0 <= j < i ==> p[j] != '\n'
    ensures Unstripped(p) <==> (i == 0 || p[i - 1] != '\r') && Unstripped(rest)
  {
    assert forall j :: 0 <= j < |rest| ==> rest[j] == p[i + 1 + j];
    if (i == 0 || p[i - 1] != '\r') && Unstripped(rest) {
      forall j | 0 <= j < |p| && p[j] == '\r' ensures j + 1 < |p| && p[j + 1] != '\n' {
        assert j > i ==> rest[j - i - 1] == '\r';
      }
    }
    if Unstripped(p) {
      forall j | 0 <= j < |rest| && rest[j] == '\r' ensures j + 1 < |rest| && rest[j + 1] != '\n' {
        assert p[i + 1 + j] == '\r';
      }
    }
  }

  lemma {:induction false} StrippedIff(p: string)
    ensures Stripped(Segments(p)) == Segments(p) <==> Unstripped(p)
    decreases |p|
  {
    var i := LineEnd(p);
    if i < |p| {
      var rest := Segments(p[i + 1..]);
      StrippedIff(p[i + 1..]);
      UnstrippedSplit(p, i, p[i + 1..]);
      assert Segments(p) == [p[..i]] + rest && Segments(p)[1..] == rest;
    } else {
      assert Segments(p)[1..] == [];
      assert Stripped(Segments(p)) == [StripCr(p)];
    }
  }

  /** A payload comes back exactly when no carriage return ends one of its lines. */
  lemma RoundTripIff(p: string)
    ensures Events(Encode(p)) == [p] <==> Unstripped(p)
  {
    EncodedReads(p, "");
    assert Encode(p) + "" == Encode(p) && Events("") == [];
    assert Events(Encode(p)) == [Join(Stripped(Segments(p)))];
    SegmentsJoin(p);
    StrippedIff(p);
    JoinStripped(Segments(p));
  }

  /** So does a whole stream of payloads without carriage returns. */
  lemma {:induction false} StreamRoundTrip(ps: seq<string>)
    requires forall i, j :: 0 <= i < |ps| && 0 <= j < |ps[i]| ==> ps[i][j] != '\r'
    ensures Events(EncodeAll(ps)) == ps
  {
    if |ps| > 0 {
      StreamRoundTrip(ps[1..]);
      EncodedReads(ps[0], EncodeAll(ps[1..]));
      SegmentsJoin(ps[0]);
      StrippedIff(ps[0]);
    }
  }
}
