/**
 * Line assembly for a botmanctl client in core/botmanctl.c: reads land in a
 * fixed buffer, complete lines are run, an over-long line is refused once.
 * The client stays open and in command mode.
 */
module Botmanctl {
  import opened TextLines

  const INPUT_SZ := 2048
  const CAP := INPUT_SZ - 1   // the most bytes the buffer holds unread

  /** What the client gets to see. */
  datatype Event = Ran(line: string) | Refused | Delimiter

  /** The command as a C string: a NUL in the line ends it. */
  function CString(s: string): (r: string)
    ensures r <= s && '\0' !in r && (|r| < |s| ==> s[|r|] == '\0')
  {
    if |s| == 0 || s[0] == '\0' then "" else [s[0]] + CString(s[1..])
  }

  // What a byte stream deserves

  /** A line shorter than the buffer runs; a longer one is refused; each ends with one delimiter. */
  function Answer(line: string): seq<Event> {
    if |line| < CAP then [Ran(CString(line)), Delimiter] else [Refused, Delimiter]
  }

  function AnswerAll(lines: seq<string>): seq<Event> {
    if |lines| == 0 then [] else AnswerAll(lines[..|lines| - 1]) + Answer(lines[|lines| - 1])
  }

  /** The answers to the complete lines of a stream. */
  function Answers(s: string): seq<Event> { AnswerAll(RawLines(s)) }

  /** With the refusal of an unfinished line that is already too long. */
  function Output(s: string): seq<Event> {
    Answers(s) + if |Tail(s)| >= CAP then [Refused, Delimiter] else []
  }

  // What the client buffer does

  datatype Input = Input(buf: string, overlong: bool, log: seq<Event>)

  /** The line ending at `i` is run, or dropped as the tail of a refused one. */
  function LineTaken(c: Input, i: nat): Input
    requires i < |c.buf|
  {
    Input(c.buf[i + 1..], false, if c.overlong then c.log else c.log + [Ran(CString(c.buf[..i])), Delimiter])
  }

  /** bctl_client_drain. */
  function Drained(c: Input): Input
    decreases |c.buf|
  {
    var i := LineEnd(c.buf);
    if i < |c.buf| then Drained(LineTaken(c, i))
    else if |c.buf| == CAP then
      Input("", true, if c.overlong then c.log else c.log + [Refused, Delimiter])
    else c
  }

  lemma DrainedLine(c: Input)
    requires LineEnd(c.buf) < |c.buf|
    ensures Drained(c) == Drained(LineTaken(c, LineEnd(c.buf)))
  {
  }

  /** The bytes `done` are dealt with, those in the buffer are not. */
  predicate Serves(c: Input, done: string) {
    && |c.buf| <= CAP && c.log == Output(done)
    && if c.overlong then |Tail(done)| >= CAP else Tail(done) == ""
  }

  /** Everything received is dealt with or still in the buffer. */
  ghost predicate Stands(c: Input, s: string) { exists done :: Serves(c, done) && done + c.buf == s }

  /** A newline closes the tail. */
  lemma NewlineCloses(s: string, l: string)
    requires LineEnd(l) == |l|
    ensures Tail(s + l + "\n") == "" && Answers(s + l + "\n") == Answers(s) + Answer(Tail(s) + l)
  {
    CloseLine(s, l);
    assert (RawLines(s) + [Tail(s) + l])[..|RawLines(s)|] == RawLines(s);
  }

  lemma LineServed(done: string, l: string)
    requires LineEnd(l) == |l| < CAP
    ensures Tail(done + l + "\n") == ""
    ensures Tail(done) == "" ==> Output(done + l + "\n") == Output(done) + [Ran(CString(l)), Delimiter]
    ensures |Tail(done)| >= CAP ==> Output(done + l + "\n") == Output(done)
  {
    NewlineCloses(done, l);
    assert Tail(done) == "" ==> Tail(done) + l == l;
    assert Output(done + l + "\n") == Answers(done) + Answer(Tail(done) + l);
    assert Tail(done) == "" ==> Output(done) == Answers(done);
  }

  lemma TakenServes(c: Input, done: string, i: nat) returns (done': string)
    requires Serves(c, done) && i == LineEnd(c.buf) < |c.buf|
    ensures Serves(LineTaken(c, i), done') && done' + LineTaken(c, i).buf == done + c.buf
  {
    var l, rest := c.buf[..i], c.buf[i + 1..];
    PrefixOpen(c.buf, i);
    LineServed(done, l);
    done' := done + l + "\n";
    Rejoined(done, c.buf, i);
  }

  lemma Rejoined(done: string, buf: string, i: nat)
    requires i < |buf| && buf[i] == '\n'
    ensures done + buf[..i] + "\n" + buf[i + 1..] == done + buf
  {
    assert buf == buf[..i] + "\n" + buf[i + 1..];
  }

  /** After a drain everything received is answered, and there is room for another byte. */
  lemma {:induction false} DrainedServes(c: Input, done: string)
    requires Serves(c, done)
    ensures |Drained(c).buf| < CAP && Drained(c).log == Output(done + c.buf)
    ensures Stands(Drained(c), done + c.buf)
    decreases |c.buf|
  {
    var i := LineEnd(c.buf);
    if i < |c.buf| {
      var done' := TakenServes(c, done, i);
      DrainedServes(LineTaken(c, i), done');
    } else {
      StuckServes(c, done);
    }
  }

  /** No newline left: the bytes wait, or a full buffer is given up. */
  lemma StuckServes(c: Input, done: string)
    requires Serves(c, done) && LineEnd(c.buf) == |c.buf|
    ensures |Drained(c).buf| < CAP && Drained(c).log == Output(done + c.buf)
    ensures Stands(Drained(c), done + c.buf)
  {
    GrowTail(done, c.buf);
    if |c.buf| == CAP {
      assert Serves(Drained(c), done + c.buf) && done + c.buf + "" == done + c.buf;
    } else {
      assert Serves(Drained(c), done);
    }
  }

  /** However a chunk is cut, reading it leaves the client where the whole stream would. */
  lemma ChunkServes(c: Input, s: string, chunk: string)
    requires Stands(c, s) && |c.buf| + |chunk| <= CAP
    ensures var d := Drained(c.(buf := c.buf + chunk)); |d.buf| < CAP && d.log == Output(s + chunk) && Stands(d, s + chunk)
  {
    var done :| Serves(c, done) && done + c.buf == s;
    assert done + (c.buf + chunk) == s + chunk;
    DrainedServes(c.(buf := c.buf + chunk), done);
  }

  class Client {
    const inBuf: array<char>
    var inLen: nat
    var overlong: bool
    var log: seq<Event>
    ghost var seen: string

    ghost predicate Sized()
      reads this
    {
      inBuf.Length == INPUT_SZ && inLen <= CAP
    }

    ghost function State(): Input
      requires Sized()
      reads this, inBuf
    {
      Input(inBuf[..inLen], overlong, log)
    }

    /** Between reads: some prefix of the stream is dealt with, the rest is in the buffer. */
    ghost predicate Valid()
      reads this, inBuf
    {
      && Sized() && inLen < CAP && log == Output(seen)
      && Stands(State(), seen)
    }

    constructor ()
      ensures Valid() && seen == "" && log == [] && fresh(inBuf)
    {
      inBuf := new char[INPUT_SZ];
      inLen, overlong, log, seen := 0, false, [], "";
      new;
      assert Serves(State(), "") && "" + inBuf[..0] == "";
    }

    /** memchr for a newline. */
    method FindNewline() returns (i: nat)
      requires Sized()
      ensures i == LineEnd(inBuf[..inLen])
    {
      i := 0;
      while i < inLen && inBuf[i] != '\n'
        invariant i <= inLen && forall j :: 0 <= j < i ==> inBuf[j] != '\n'
      {
        i := i + 1;
      }
    }

    /** memmove of what follows the consumed bytes to the front. */
    method Shift(consumed: nat)
      requires Sized() && consumed <= inLen
      modifies this`inLen, inBuf
      ensures Sized() && inLen == old(inLen) - consumed
      ensures inBuf[..inLen] == old(inBuf[consumed..inLen])
    {
      for k := 0 to inLen - consumed
        invariant forall j :: 0 <= j < k ==> inBuf[j] == old(inBuf[consumed + j])
        invariant forall j :: consumed + k <= j < inLen ==> inBuf[j] == old(inBuf[j])
        modifies inBuf
      {
        inBuf[k] := inBuf[consumed + k];
      }
      inLen := inLen - consumed;
    }

    /** One complete line: run it, unless it is the tail of a refused one. */
    method TakeLine(i: nat)
      requires Sized() && i == LineEnd(inBuf[..inLen]) < inLen
      modifies this`inLen, this`overlong, this`log, inBuf
      ensures Sized() && inLen == old(inLen) - i - 1
      ensures State() == LineTaken(old(State()), i)
    {
      if overlong { overlong := false; }
      else { log := log + [Ran(CString(inBuf[..i])), Delimiter]; }
      assert inBuf[..inLen][..i] == inBuf[..i] && inBuf[..inLen][i + 1..] == inBuf[i + 1..inLen];
      Shift(i + 1);
    }

    /** bctl_client_drain. */
    method Drain()
      requires Sized()
      modifies this`inLen, this`overlong, this`log, inBuf
      ensures Sized() && State() == Drained(old(State()))
    {
      var i := FindNewline();
      while i < inLen
        invariant Sized() && i == LineEnd(inBuf[..inLen]) && Drained(State()) == Drained(old(State()))
        decreases inLen
      {
        DrainedLine(State());
        TakeLine(i);
        i := FindNewline();
      }
      if inLen == CAP {
        if !overlong { log := log + [Refused, Delimiter]; }
        inLen, overlong := 0, true;
      }
    }

    /** The bytes of one read, behind those already there. */
    method Fill(chunk: string)
      requires Sized() && inLen + |chunk| <= CAP
      modifies this`inLen, inBuf
      ensures Sized() && inLen == old(inLen) + |chunk| && inBuf[..inLen] == old(inBuf[..inLen]) + chunk
    {
      for k := 0 to |chunk|
        invariant inBuf[..inLen + k] == old(inBuf[..inLen]) + chunk[..k]
        modifies inBuf
      {
        inBuf[inLen + k] := chunk[k];
        assert inBuf[..inLen + k + 1] == inBuf[..inLen + k] + [chunk[k]];
      }
      assert chunk[..|chunk|] == chunk;
      inLen := inLen + |chunk|;
    }

    /**
     * bctl_client_input with what one read returned. However the stream is
     * cut into reads, the answers are those of the bytes so far, and the next
     * read has room for at least one byte.
     */
    method Receive(chunk: string)
      requires Valid() && 0 < |chunk| <= INPUT_SZ - inLen - 1
      modifies this, inBuf
      ensures Valid() && seen == old(seen) + chunk && log == Output(seen) && inLen < CAP
    {
      ChunkServes(State(), seen, chunk);
      Fill(chunk);
      Drain();
      seen := seen + chunk;
    }
  }
}
