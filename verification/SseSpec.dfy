/**
 * The event stream of section 9.2.6 of the WHATWG HTML standard, as far as
 * core/sse.c honours it: split the stream into lines, group the lines by
 * blank line, join the data fields of each group. A bare CR does not end a
 * line and a field without a colon is ignored.
 */
module SseSpec {
  import opened Options
  import opened Seqs
  import opened TextLines

  function StripCr(s: string): string { if |s| > 0 && s[|s| - 1] == '\r' then s[..|s| - 1] else s }

  function Stripped(ls: seq<string>): (r: seq<string>)
    ensures |r| == |ls|
  {
    if |ls| == 0 then [] else [StripCr(ls[0])] + Stripped(ls[1..])
  }

  /** The complete lines of a stream, each without a CR before its newline. */
  function Lines(s: string): seq<string> { Stripped(RawLines(s)) }

  function Colon(s: string): (i: nat)
    ensures i <= |s| && (forall j :: 0 <= j < i ==> s[j] != ':') && (i < |s| ==> s[i] == ':')
  {
    if |s| == 0 || s[0] == ':' then 0 else 1 + Colon(s[1..])
  }

  /** The payload of a data field, without the one optional space. */
  function DataOf(line: string): Option<string> {
    var i := Colon(line);
    if i == |line| || line[..i] != "data" then None
    else Some(if i + 1 < |line| && line[i + 1] == ' ' then line[i + 2..] else line[i + 1..])
  }

  /** A line is a data field with payload `v` exactly when it is data, a colon, at most one space and `v`. */
  lemma DataLineIff(line: string, v: string)
    ensures DataOf(line) == Some(v) <==> line == "data: " + v || (line == "data:" + v && !(|v| > 0 && v[0] == ' '))
  {
    var i := Colon(line);
    if DataOf(line) == Some(v) {
      assert line == line[..i] + [':'] + line[i + 1..];
      assert i + 1 < |line| && line[i + 1] == ' ' ==> line[i + 1..] == " " + line[i + 2..];
    }
    if line == "data: " + v { FieldColon(line, " " + v); }
    if line == "data:" + v { FieldColon(line, v); }
  }

  lemma FieldColon(line: string, rest: string)
    requires line == "data:" + rest
    ensures Colon(line) == 4 && line[..4] == "data" && line[5..] == rest
  {
    assert line[4] == ':';
    assert forall j :: 0 <= j < 4 ==> line[j] == "data:"[j] && line[j] != ':';
  }

  function Fields(line: string): seq<string> { if DataOf(line).Some? then [DataOf(line).value] else [] }

  function Datas(group: seq<string>): seq<string> {
    if |group| == 0 then [] else Fields(group[0]) + Datas(group[1..])
  }

  function Join(d: seq<string>): string {
    if |d| == 0 then "" else if |d| == 1 then d[0] else d[0] + "\n" + Join(d[1..])
  }

  /** A group with no data field makes no frame. */
  function FrameOf(group: seq<string>): seq<string> { if |Datas(group)| == 0 then [] else [Join(Datas(group))] }

  function Blank(ls: seq<string>): (i: nat)
    ensures i <= |ls| && (forall j :: 0 <= j < i ==> |ls[j]| > 0) && (i < |ls| ==> |ls[i]| == 0)
  {
    if |ls| == 0 || |ls[0]| == 0 then 0 else 1 + Blank(ls[1..])
  }

  /** The groups of lines that a blank line closes. */
  function Groups(ls: seq<string>): seq<seq<string>> {
    var i := Blank(ls);
    if i == |ls| then [] else [ls[..i]] + Groups(ls[i + 1..])
  }

  function FramesOf(groups: seq<seq<string>>): seq<string> {
    if |groups| == 0 then [] else FrameOf(groups[0]) + FramesOf(groups[1..])
  }

  function Frames(ls: seq<string>): seq<string> { FramesOf(Groups(ls)) }

  /** The lines since the last blank one. */
  function Open(ls: seq<string>): seq<string> {
    var i := Blank(ls);
    if i == |ls| then ls else Open(ls[i + 1..])
  }

  /** The frames a whole stream carries. */
  function Events(s: string): seq<string> { Frames(Lines(s)) }

  // Reading one more byte, one more line

  lemma {:induction false} StrippedConcat(a: seq<string>, b: seq<string>)
    ensures Stripped(a + b) == Stripped(a) + Stripped(b)
  {
    if |a| == 0 {
      assert a + b == b;
    } else {
      assert (a + b)[1..] == a[1..] + b;
      StrippedConcat(a[1..], b);
    }
  }

  lemma LinesPush(s: string, c: char)
    ensures Lines(s + [c]) == if c == '\n' then Lines(s) + [StripCr(Tail(s))] else Lines(s)
    ensures Tail(s + [c]) == if c == '\n' then "" else Tail(s) + [c]
  {
    if c == '\n' {
      CloseLine(s, "");
      assert s + "" + "\n" == s + [c] && Tail(s) + "" == Tail(s);
      StrippedConcat(RawLines(s), [Tail(s)]);
    } else {
      GrowTail(s, [c]);
    }
  }

  lemma BlankConcat(a: seq<string>, b: seq<string>)
    ensures Blank(a + b) == if Blank(a) < |a| then Blank(a) else |a| + Blank(b)
  {
    var w := a + b;
    assert forall j :: 0 <= j < |a| ==> w[j] == a[j];
    assert forall j :: 0 <= j < |b| ==> w[|a| + j] == b[j];
    var k := if Blank(a) < |a| then Blank(a) else |a| + Blank(b);
    assert k < |w| ==> |w[k]| == 0;
    assert forall j :: 0 <= j < k ==> |w[j]| > 0;
  }

  /** A group, the blank line that closes it, and what follows. */
  lemma GroupBreak(g: seq<string>, rest: seq<string>)
    requires Blank(g) == |g|
    ensures var w := g + [""] + rest;
      Blank(w) == |g| && Groups(w) == [g] + Groups(rest) && Open(w) == Open(rest)
  {
    var w := g + [""] + rest;
    assert w == g + ([""] + rest);
    BlankConcat(g, [""] + rest);
    assert w[..|g|] == g && w[|g| + 1..] == rest;
  }

  lemma SplitGroup(ls: seq<string>) returns (g: seq<string>, rest: seq<string>)
    requires Blank(ls) < |ls|
    ensures Blank(g) == |g| && ls == g + [""] + rest && |rest| < |ls|
  {
    var i := Blank(ls);
    g, rest := ls[..i], ls[i + 1..];
    assert forall j :: 0 <= j < |g| ==> g[j] == ls[j];
    assert ls[i] == "";
  }

  lemma {:induction false} GroupsConcat(a: seq<string>, b: seq<string>)
    ensures Groups(a + b) == Groups(a) + Groups(Open(a) + b)
    ensures Open(a + b) == Open(Open(a) + b)
    decreases |a|
  {
    if Blank(a) < |a| {
      var g, rest := SplitGroup(a);
      GroupBreak(g, rest);
      GroupBreak(g, rest + b);
      Assoc(g + [""], rest, b);
      GroupsConcat(rest, b);
      Assoc([g], Groups(rest), Groups(Open(rest) + b));
    }
  }

  lemma {:induction false} OpenIsOpen(ls: seq<string>)
    ensures Blank(Open(ls)) == |Open(ls)|
    decreases |ls|
  {
    var i := Blank(ls);
    if i < |ls| { OpenIsOpen(ls[i + 1..]); }
  }

  lemma {:induction false} FramesOfPush(gs: seq<seq<string>>, g: seq<string>)
    ensures FramesOf(gs + [g]) == FramesOf(gs) + FrameOf(g)
  {
    if |gs| == 0 {
      assert FramesOf([g]) == FrameOf(g) + FramesOf([g][1..]);
    } else {
      assert (gs + [g])[1..] == gs[1..] + [g];
      FramesOfPush(gs[1..], g);
    }
  }

  lemma GroupsPush(ls: seq<string>, l: string)
    ensures Groups(ls + [l]) == if |l| == 0 then Groups(ls) + [Open(ls)] else Groups(ls)
    ensures Open(ls + [l]) == if |l| == 0 then [] else Open(ls) + [l]
  {
    var g := Open(ls);
    OpenIsOpen(ls);
    GroupsConcat(ls, [l]);
    BlankConcat(g, [l]);
    if |l| == 0 {
      assert l == "" && g + [l] == g + [""] + [];
      GroupBreak(g, []);
    }
  }

  lemma FramesPush(ls: seq<string>, l: string)
    ensures Frames(ls + [l]) == if |l| == 0 then Frames(ls) + FrameOf(Open(ls)) else Frames(ls)
    ensures Open(ls + [l]) == if |l| == 0 then [] else Open(ls) + [l]
  {
    GroupsPush(ls, l);
    FramesOfPush(Groups(ls), Open(ls));
  }

  lemma {:induction false} DatasPush(g: seq<string>, l: string)
    ensures Datas(g + [l]) == Datas(g) + Fields(l)
  {
    if |g| == 0 {
      assert g + [l] == [l] && Datas([l]) == Fields(l) + Datas([l][1..]);
    } else {
      assert (g + [l])[1..] == g[1..] + [l];
      DatasPush(g[1..], l);
    }
  }

  lemma {:induction false} JoinPush(d: seq<string>, v: string)
    ensures Join(d + [v]) == if |d| == 0 then v else Join(d) + "\n" + v
  {
    if |d| > 0 {
      assert (d + [v])[1..] == d[1..] + [v];
      JoinPush(d[1..], v);
    }
  }

  /** The data fields of the group still open at the end of a stream. */
  function OpenData(s: string): seq<string> { Datas(Open(Lines(s))) }

  /** The frame a blank line closes. */
  function Closed(d: seq<string>): seq<string> { if |d| == 0 then [] else [Join(d)] }

  /** What a reader knows after some bytes: the frames found, the open group, the unfinished line. */
  datatype Progress = Progress(events: seq<string>, open: seq<string>, tail: string)

  function Taken(p: Progress, c: char): Progress {
    if c != '\n' then p.(tail := p.tail + [c])
    else
      var l := StripCr(p.tail);
      if |l| == 0 then Progress(p.events + Closed(p.open), [], "") else Progress(p.events, p.open + Fields(l), "")
  }

  function Reading(s: string): Progress {
    if |s| == 0 then Progress([], [], "") else Taken(Reading(s[..|s| - 1]), s[|s| - 1])
  }

  lemma ReadingPush(s: string, c: char)
    ensures Reading(s + [c]) == Taken(Reading(s), c)
  {
    assert (s + [c])[..|s|] == s;
  }

  function TakenAll(p: Progress, s: string): Progress
    decreases |s|
  {
    if |s| == 0 then p else TakenAll(Taken(p, s[0]), s[1..])
  }

  lemma {:induction false} ReadingMore(s: string, t: string)
    ensures Reading(s + t) == TakenAll(Reading(s), t)
    decreases |t|
  {
    if |t| == 0 {
      assert s + t == s;
    } else {
      assert s + t == s + [t[0]] + t[1..];
      ReadingPush(s, t[0]);
      ReadingMore(s + [t[0]], t[1..]);
    }
  }

  /** Reading byte by byte finds what splitting, grouping and joining the whole stream finds. */
  lemma {:induction false} ReadingIs(s: string)
    ensures Reading(s) == Progress(Events(s), OpenData(s), Tail(s))
  {
    if |s| > 0 {
      var t, c := s[..|s| - 1], s[|s| - 1];
      assert s == t + [c];
      ReadingIs(t);
      LinesPush(t, c);
      if c == '\n' { LinePush(Lines(t), StripCr(Tail(t))); }
    }
  }

  lemma Fed(s: string, buf: string)
    ensures Reading(s + buf) == TakenAll(Reading(s), buf) && Reading(s + buf).events == Events(s + buf)
  {
    ReadingMore(s, buf);
    ReadingIs(s + buf);
  }

  lemma LinePush(ls: seq<string>, l: string)
    ensures Frames(ls + [l]) == if |l| == 0 then Frames(ls) + Closed(Datas(Open(ls))) else Frames(ls)
    ensures Datas(Open(ls + [l])) == if |l| == 0 then [] else Datas(Open(ls)) + Fields(l)
  {
    FramesPush(ls, l);
    DatasPush(Open(ls), l);
  }
}
