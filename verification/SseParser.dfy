/**
 * sse_parser_feed of core/sse.c: two growing buffers filled byte by byte. The
 * frames handed to the callback are those the specification finds in the
 * whole stream so far, however the stream is cut into chunks.
 */
module SseParser {
  import opened Options
  import opened SseSpec

  const INIT_CAP := 4096

  class Buffer {
    var data: array<char>
    var len: nat

    ghost predicate Valid()
      reads this
    {
      len <= data.Length
    }

    ghost function Text(): string
      requires Valid()
      reads this, data
    {
      data[..len]
    }

    constructor ()
      ensures Valid() && len == 0 && fresh(data)
    {
      data, len := new char[0], 0;
    }

    /** sse_ensure_cap: room for `needed` characters and a terminator, contents kept. */
    method EnsureCap(needed: nat)
      requires Valid() && len <= needed
      modifies this`data
      ensures Valid() && data.Length >= needed + 1 && Text() == old(Text())
      ensures data == old(data) || fresh(data)
    {
      if needed + 1 <= data.Length { return; }
      var cap := if data.Length == 0 then INIT_CAP else data.Length;
      while cap < needed + 1
        invariant cap > 0
        decreases needed + 1 - cap
      {
        cap := cap * 2;
      }
      var bigger := new char[cap];
      for i := 0 to len
        invariant bigger[..i] == data[..i]
        modifies bigger
      {
        bigger[i] := data[i];
      }
      data := bigger;
    }

    /** sse_line_push. */
    method Push(c: char)
      requires Valid()
      modifies this, data
      ensures Valid() && Text() == old(Text()) + [c]
      ensures data == old(data) || fresh(data)
    {
      EnsureCap(len + 1);
      data[len] := c;
      len := len + 1;
      assert data[..len] == data[..len - 1] + [c];
      data[len] := '\0';
    }

    method Append(s: string)
      requires Valid()
      modifies this, data
      ensures Valid() && Text() == old(Text()) + s
      ensures data == old(data) || fresh(data)
    {
      EnsureCap(len + |s|);
      ghost var was := Text();
      for i := 0 to |s|
        invariant data.Length >= len + |s| + 1 && data[..len + i] == was + s[..i]
        modifies data
      {
        data[len + i] := s[i];
        assert data[..len + i + 1] == data[..len + i] + [s[i]];
      }
      len := len + |s|;
      assert s[..|s|] == s;
      data[len] := '\0';
    }
  }

  class Parser {
    const line: Buffer
    const frame: Buffer
    var hasData: bool
    var out: seq<string>
    ghost var seen: string
    ghost var now: Progress

    ghost predicate Apart()
      reads this, line, frame
    {
      line != frame && line.Valid() && frame.Valid() && line.data != frame.data
    }

    /** The frame buffer holds the data fields `d`. */
    ghost predicate Holds(d: seq<string>)
      requires Apart()
      reads this, line, frame, frame.data
    {
      (hasData <==> |d| > 0) && frame.Text() == Join(d)
    }

    /** The tail in the line buffer, the open group in the frame buffer, the frames out. */
    ghost predicate Tracks()
      reads this, line, frame, line.data, frame.data
    {
      Apart() && Holds(now.open) && line.Text() == now.tail && out == now.events
    }

    /** The parser stands where the bytes `seen` leave it. */
    ghost predicate Valid()
      reads this, line, frame, line.data, frame.data
    {
      Tracks() && now == Reading(seen)
    }

    constructor ()
      ensures Valid() && seen == "" && fresh(line) && fresh(frame) && fresh(line.data) && fresh(frame.data)
    {
      line := new Buffer();
      frame := new Buffer();
      hasData, out, seen, now := false, [], "", Progress([], [], "");
    }

    /** sse_frame_append. */
    method AppendData(v: string, ghost d: seq<string>)
      requires Apart() && Holds(d)
      modifies this`hasData, frame, frame.data
      ensures Apart() && Holds(d + [v])
      ensures frame.data == old(frame.data) || fresh(frame.data)
    {
      JoinPush(d, v);
      if hasData { frame.Push('\n'); }
      frame.Append(v);
      hasData := true;
    }

    /** sse_process_line on the line in the buffer. */
    method ProcessLine(ghost l: string, ghost d: seq<string>) returns (emitted: nat)
      requires Apart() && Holds(d) && l == line.Text()
      modifies this`hasData, this`out, frame, frame.data
      ensures Apart() && Holds(if |l| == 0 then [] else d + Fields(l))
      ensures out == old(out) + if |l| == 0 then Closed(d) else []
      ensures emitted == |out| - |old(out)|
      ensures frame.data == old(frame.data) || fresh(frame.data)
    {
      emitted := 0;
      if line.len == 0 {
        if hasData {
          out := out + [frame.data[..frame.len]];
          frame.len, hasData := 0, false;
          emitted := 1;
        }
        return;
      }
      var v := DataField();
      if v.Some? { AppendData(v.value, d); } else { assert d + Fields(l) == d; }
    }

    /** The payload when the buffered line is a data field. */
    method DataField() returns (v: Option<string>)
      requires Apart() && line.len > 0
      ensures v == DataOf(line.Text())
    {
      var text := line.data[..line.len];
      var colon := 0;
      while colon < |text| && text[colon] != ':'
        invariant colon <= |text| && forall j :: 0 <= j < colon ==> text[j] != ':'
      {
        colon := colon + 1;
      }
      if colon == |text| { return None; }
      var value := text[colon + 1..];
      if |value| > 0 && value[0] == ' ' { value := value[1..]; }
      v := if colon == 4 && text[..4] == "data" then Some(value) else None;
    }

    /** One byte of sse_parser_feed. */
    method Byte(c: char) returns (emitted: nat)
      requires Tracks()
      modifies this`hasData, this`out, this`now, line, line.data, frame, frame.data
      ensures Tracks()
      ensures now == Taken(old(now), c) && emitted == |out| - |old(out)| && old(out) <= out
      ensures line.data == old(line.data) || fresh(line.data)
      ensures frame.data == old(frame.data) || fresh(frame.data)
    {
      emitted := 0;
      if c == '\n' { emitted := EndLine(); } else { line.Push(c); }
      now := Taken(now, c);
    }

    /** The newline: a CR before it goes, and the line is processed. */
    method EndLine() returns (emitted: nat)
      requires Tracks()
      modifies this`hasData, this`out, line, frame, frame.data
      ensures Apart() && line.Text() == ""
      ensures var l := StripCr(now.tail);
        && Holds(if |l| == 0 then [] else now.open + Fields(l))
        && out == old(out) + if |l| == 0 then Closed(now.open) else []
      ensures emitted == |out| - |old(out)| && line.data == old(line.data)
      ensures frame.data == old(frame.data) || fresh(frame.data)
    {
      if line.len > 0 && line.data[line.len - 1] == '\r' { line.len := line.len - 1; }
      ghost var l := line.Text();
      assert l == StripCr(now.tail);
      emitted := ProcessLine(l, now.open);
      line.len := 0;
    }

    method TakeAll(buf: string) returns (emitted: nat)
      requires Tracks()
      modifies this`hasData, this`out, this`now, line, line.data, frame, frame.data
      ensures Tracks() && now == TakenAll(old(now), buf) && emitted == |out| - |old(out)|
      ensures line.data == old(line.data) || fresh(line.data)
      ensures frame.data == old(frame.data) || fresh(frame.data)
    {
      emitted := 0;
      for i := 0 to |buf|
        invariant Tracks() && emitted == |out| - |old(out)|
        invariant TakenAll(now, buf[i..]) == TakenAll(old(now), buf)
        invariant line.data == old(line.data) || fresh(line.data)
        invariant frame.data == old(frame.data) || fresh(frame.data)
      {
        assert buf[i..][0] == buf[i] && buf[i..][1..] == buf[i + 1..];
        var n := Byte(buf[i]);
        emitted := emitted + n;
      }
    }

    /** sse_parser_feed: whatever the chunks, the frames are those of the stream so far. */
    method Feed(buf: string) returns (emitted: nat)
      requires Valid()
      modifies this, line, line.data, frame, frame.data
      ensures Valid() && seen == old(seen) + buf && emitted == |out| - |old(out)|
      ensures out == Events(seen)
      ensures line.data == old(line.data) || fresh(line.data)
      ensures frame.data == old(frame.data) || fresh(frame.data)
    {
      emitted := TakeAll(buf);
      Fed(seen, buf);
      seen := seen + buf;
    }
  }
}
