/** Newline-terminated lines in a byte stream, shared by the stream readers. */
module TextLines {
  import opened Seqs

  /** Where the first line ends, or the length when none does. */
  function LineEnd(s: string): (i: nat)
    ensures i <= |s| && (forall j :: 0 <= j < i ==> s[j] != '\n') && (i < |s| ==> s[i] == '\n')
  {
    if |s| == 0 || s[0] == '\n' then 0 else 1 + LineEnd(s[1..])
  }

  /** What follows the last complete line. */
  function Tail(s: string): string {
    var i := LineEnd(s);
    if i == |s| then s else Tail(s[i + 1..])
  }

  /** The complete lines, without their newlines. */
  function RawLines(s: string): seq<string> {
    var i := LineEnd(s);
    if i == |s| then [] else [s[..i]] + RawLines(s[i + 1..])
  }

  lemma LineEndConcat(s: string, t: string)
    ensures LineEnd(s + t) == if LineEnd(s) < |s| then LineEnd(s) else |s| + LineEnd(t)
  {
    var i := LineEnd(s);
    var w := s + t;
    assert forall j :: 0 <= j < |s| ==> w[j] == s[j];
    assert forall j :: 0 <= j < |t| ==> w[|s| + j] == t[j];
    var k := if i < |s| then i else |s| + LineEnd(t);
    assert k < |w| ==> w[k] == '\n';
    assert forall j :: 0 <= j < k ==> w[j] != '\n';
  }

  /** A line, its newline, and what follows. */
  lemma LineBreak(head: string, rest: string)
    requires LineEnd(head) == |head|
    ensures var w := head + "\n" + rest;
      LineEnd(w) == |head| && RawLines(w) == [head] + RawLines(rest) && Tail(w) == Tail(rest)
  {
    var w := head + "\n" + rest;
    assert w == head + ("\n" + rest);
    LineEndConcat(head, "\n" + rest);
    assert w[..|head|] == head && w[|head| + 1..] == rest;
  }

  lemma SplitLine(s: string) returns (head: string, rest: string)
    requires LineEnd(s) < |s|
    ensures LineEnd(head) == |head| && s == head + "\n" + rest && |rest| < |s|
  {
    var i := LineEnd(s);
    head, rest := s[..i], s[i + 1..];
    PrefixOpen(s, i);
  }

  /** A stream read in two parts: the second completes the tail of the first. */
  lemma {:induction false} StreamConcat(s: string, t: string)
    ensures Tail(s + t) == Tail(Tail(s) + t)
    ensures RawLines(s + t) == RawLines(s) + RawLines(Tail(s) + t)
    decreases |s|
  {
    if LineEnd(s) < |s| {
      var head, rest := SplitLine(s);
      LineBreak(head, rest);
      LineBreak(head, rest + t);
      Assoc(head + "\n", rest, t);
      StreamConcat(rest, t);
      Assoc([head], RawLines(rest), RawLines(Tail(rest) + t));
    }
  }

  /** A newline closes the tail and whatever came after it. */
  lemma CloseLine(s: string, l: string)
    requires LineEnd(l) == |l|
    ensures Tail(s + l + "\n") == "" && RawLines(s + l + "\n") == RawLines(s) + [Tail(s) + l]
  {
    var t := Tail(s) + l;
    TailIsOpen(s);
    LineEndConcat(Tail(s), l);
    LineBreak(t, "");
    Assoc(s, l, "\n");
    Assoc(Tail(s), l, "\n");
    Assoc(t, "\n", "");
    StreamConcat(s, l + "\n");
  }

  /** Bytes without a newline lengthen the tail. */
  lemma GrowTail(s: string, l: string)
    requires LineEnd(l) == |l|
    ensures Tail(s + l) == Tail(s) + l && RawLines(s + l) == RawLines(s)
  {
    TailIsOpen(s);
    LineEndConcat(Tail(s), l);
    StreamConcat(s, l);
  }

  lemma PrefixOpen(s: string, i: nat)
    requires i <= LineEnd(s)
    ensures LineEnd(s[..i]) == i
  {
  }

  lemma {:induction false} TailIsOpen(s: string)
    ensures LineEnd(Tail(s)) == |Tail(s)|
    decreases |s|
  {
    var i := LineEnd(s);
    if i < |s| { TailIsOpen(s[i + 1..]); }
  }
}
