/** How the agent cuts its socket into requests (src/agent/server.ts `attachConnection`). */
module AgentFraming {
  import opened Wrappers
  import opened LineChannels
  import Bytes
  import Text

  const MAX_FRAME_BYTES := 8388608

  /** Every line that is not blank is answered, if only with an error; none of them ends the connection. */
  function AnyLine(line: string): Option<Msg> {
    Some(Msg("line", line))
  }

  /** The limit is put on everything buffered, before lines are taken out of it. */
  function AfterData(b: Inbox, chunk: string): Inbox {
    if !b.open then b
    else if ByteLength(b.rest + chunk) > MAX_FRAME_BYTES then b.(rest := b.rest + chunk, open := false)
    else
      var a := Accept(AnyLine, b.rest + chunk);
      Inbox(a.rest, b.arrived + a.msgs, true)
  }

  class AgentConnection {
    var buf: string
    var closed: bool
    ghost var requests: seq<Msg>

    constructor ()
      ensures View() == Inbox("", [], true)
    {
      buf, closed, requests := "", false, [];
    }

    ghost function View(): Inbox
      reads this
    {
      Inbox(buf, requests, !closed)
    }

    /** Returns the lines to answer. */
    method OnData(chunk: string) returns (lines: seq<Msg>)
      modifies this
      ensures View() == AfterData(old(View()), chunk)
      ensures requests == old(requests) + lines
    {
      lines := [];
      if closed { return; }
      buf := buf + chunk;
      if ByteLength(buf) > MAX_FRAME_BYTES {
        closed := true;
        return;
      }
      lines, buf := TakeLines(buf);
      requests := requests + lines;
    }
  }

  method TakeLines(buf: string) returns (lines: seq<Msg>, rest: string)
    ensures Accept(AnyLine, buf).msgs == lines && Accept(AnyLine, buf).rest == rest
  {
    lines, rest := [], buf;
    while IndexOf(rest, '\n').Some?
      invariant Accept(AnyLine, buf) == Accept(AnyLine, rest).(msgs := lines + Accept(AnyLine, rest).msgs)
      decreases |rest|
    {
      var i := IndexOf(rest, '\n').value;
      var line := rest[..i];
      rest := rest[i + 1..];
      if Text.Trim(line) != "" {
        ConcatAssoc(lines, [Msg("line", line)], Accept(AnyLine, rest).msgs);
        lines := lines + [Msg("line", line)];
      }
    }
    assert lines + [] == lines;
  }

  function AfterAll(chunks: seq<string>): Inbox {
    if chunks == [] then Inbox("", [], true)
    else AfterData(AfterAll(chunks[..|chunks| - 1]), chunks[|chunks| - 1])
  }

  lemma {:induction false} NeverBad(s: string)
    ensures !Accept(AnyLine, s).bad
    decreases |s|
  {
    var i := IndexOf(s, '\n');
    if i.Some? { NeverBad(s[i.value + 1..]); }
  }

  /** As long as the connection is open, its requests are those of the stream, however it was cut. */
  lemma {:induction false} OpenReadsAll(chunks: seq<string>)
    ensures
      var b, whole := AfterAll(chunks), Accept(AnyLine, Joined(chunks));
      && b.arrived <= whole.msgs
      && (b.open ==> b.arrived == whole.msgs && b.rest == whole.rest)
    decreases |chunks|
  {
    if chunks != [] {
      var init, last := chunks[..|chunks| - 1], chunks[|chunks| - 1];
      OpenReadsAll(init);
      NeverBad(Joined(init));
      AcceptConcat(AnyLine, Joined(init), last);
    }
  }

  /** So while it is open every line that is not blank is one request, in order, and the unfinished line is kept. */
  lemma EveryLineIsARequest(lines: seq<string>, last: string, chunks: seq<string>)
    requires AfterAll(chunks).open && AreLines(lines) && '\n' !in last && Joined(chunks) == Stream(lines) + last
    ensures
      var b := AfterAll(chunks);
      && b.rest == last && |b.arrived| == |Spoken(lines)|
      && forall i :: 0 <= i < |b.arrived| ==> b.arrived[i] == Msg("line", Spoken(lines)[i])
  {
    OpenReadsAll(chunks);
    var msgs := LinesRead(AnyLine, lines, last);
    assert IndexOf(last, '\n').None? && msgs + [] == msgs;
    forall i | 0 <= i < |msgs| ensures msgs[i] == Msg("line", Spoken(lines)[i]) {
      assert AnyLine(Spoken(lines)[i]) == Some(msgs[i]);
    }
  }

  /** A chunk is refused exactly when it and the unfinished line before it are too long together. */
  lemma OpenIff(chunks: seq<string>, chunk: string)
    requires AfterAll(chunks).open
    ensures AfterAll(chunks + [chunk]).open
            <==> ByteLength(Accept(AnyLine, Joined(chunks)).rest + chunk) <= 8388608
  {
    OpenReadsAll(chunks);
    assert (chunks + [chunk])[..|chunks|] == chunks;
  }

  /** In terms of the lines: the unfinished one and the chunk together may have 8 MiB. */
  lemma RoomFor(lines: seq<string>, last: string, chunks: seq<string>, chunk: string)
    requires AfterAll(chunks).open && AreLines(lines) && '\n' !in last && Joined(chunks) == Stream(lines) + last
    ensures AfterAll(chunks + [chunk]).open <==> |Bytes.Utf8(last + chunk)| <= 8388608
  {
    EveryLineIsARequest(lines, last, chunks);
    assert (chunks + [chunk])[..|chunks|] == chunks;
  }

  /**
   So here the cut does matter. A line just under the limit is under way; its last bytes and the start of the
   next request are accepted one after the other, and refused when they come in one chunk.
   */
  lemma CutMatters(x: string, y: string, z: string)
    requires y != "" && y[|y| - 1] == '\n'
    requires ByteLength(x + y) <= MAX_FRAME_BYTES < ByteLength(x + y + z)
    requires ByteLength(x) <= MAX_FRAME_BYTES && ByteLength(z) <= MAX_FRAME_BYTES
    requires '\n' !in x
    ensures AfterAll([x, y, z]).open && !AfterAll([x, y + z]).open
  {
    assert x + (y + z) == x + y + z;
    OneChunk(x);
    assert AfterAll([x, y]) == AfterData(AfterAll([x]), y) by { assert [x, y][..1] == [x]; }
    assert AfterAll([x, y, z]) == AfterData(AfterAll([x, y]), z) by { assert [x, y, z][..2] == [x, y]; }
    assert AfterAll([x, y + z]) == AfterData(AfterAll([x]), y + z) by { assert [x, y + z][..1] == [x]; }
    EndsEmpty(x + y);
    assert "" + z == z;
  }

  lemma OneChunk(x: string)
    requires ByteLength(x) <= MAX_FRAME_BYTES && '\n' !in x
    ensures AfterAll([x]) == Inbox(x, [], true)
  {
    assert [x][..0] == [] && "" + x == x;
    assert AfterAll([x]) == AfterData(AfterAll([]), x);
    assert IndexOf(x, '\n').None?;
  }

  lemma {:induction false} AsciiBytes(s: string)
    requires forall i :: 0 <= i < |s| ==> s[i] < '\U{80}'
    ensures ByteLength(s) == |s|
  {
    if s != "" { AsciiBytes(s[1..]); }
  }

  /** A request of the full limit less its line break, then the line break and one more byte: two bytes do it. */
  lemma CutMattersFor(x: string)
    requires |x| == MAX_FRAME_BYTES - 1 && forall i :: 0 <= i < |x| ==> x[i] == 'a'
    ensures AfterAll([x, "\n", "b"]).open && !AfterAll([x, "\nb"]).open
  {
    AsciiBytes(x);
    AsciiBytes(x + "\n");
    AsciiBytes("b");
    AsciiBytes(x + "\n" + "b");
    CutMatters(x, "\n", "b");
    assert "\n" + "b" == "\nb";
  }

  lemma {:induction false} EndsEmpty(s: string)
    requires s == "" || s[|s| - 1] == '\n'
    ensures Accept(AnyLine, s).rest == ""
    decreases |s|
  {
    var i := IndexOf(s, '\n');
    if i.Some? {
      EndsEmpty(s[i.value + 1..]);
    }
  }
}
