/** Newline-delimited messages over a socket, buffered so that none is lost to timing (src/sync/pair.ts). */
module LineChannels {
  import opened Wrappers
  import Bytes
  import Text

  const MAX_LINE_BYTES := 16384

  /** A parsed frame: any JSON object with a text `t`. */
  datatype Msg = Msg(t: string, body: string)

  /** JSON parsing, opaque: nothing for a line that is not such an object. */
  type Parse = string -> Option<Msg>

  // ---------- what a stream of characters means ----------

  /** Messages in order, the unfinished last line, and whether a bad line ended the reading. */
  datatype Accepted = Accepted(msgs: seq<Msg>, rest: string, bad: bool)

  function IndexOf(s: string, c: char): (i: Option<nat>)
    ensures i.None? ==> forall k :: 0 <= k < |s| ==> s[k] != c
    ensures i.Some? ==> i.value < |s| && s[i.value] == c && forall k :: 0 <= k < i.value ==> s[k] != c
  {
    if s == "" then None
    else if s[0] == c then Some(0)
    else
      var i := IndexOf(s[1..], c);
      if i.None? then None else Some(i.value + 1)
  }

  /** A blank line is skipped, a bad one ends the reading, any other is a message before the `tail`. */
  function AfterLine(parse: Parse, line: string, rest: string, tail: Accepted): Accepted {
    if Text.Trim(line) == "" then tail
    else if parse(line).None? then Accepted([], rest, true)
    else tail.(msgs := [parse(line).value] + tail.msgs)
  }

  function Accept(parse: Parse, s: string): Accepted
    decreases |s|
  {
    var i := IndexOf(s, '\n');
    if i.None? then Accepted([], s, false)
    else
      var rest := s[i.value + 1..];
      AfterLine(parse, s[..i.value], rest, Accept(parse, rest))
  }

  lemma IndexOfConcat(a: string, b: string, c: char)
    requires IndexOf(a, c).Some?
    ensures IndexOf(a + b, c) == IndexOf(a, c)
  {
    var i, j := IndexOf(a, c).value, IndexOf(a + b, c);
    assert (a + b)[i] == c;
    assert forall k | 0 <= k < i :: (a + b)[k] == a[k] != c;
  }

  lemma CutConcat(a: string, b: string, i: nat)
    requires i < |a|
    ensures (a + b)[..i] == a[..i] && (a + b)[i + 1..] == a[i + 1..] + b
  {
  }

  /** Reading on from where `first` stopped. */
  function Resume(parse: Parse, first: Accepted, more: string): Accepted {
    if first.bad then first.(rest := first.rest + more)
    else
      var second := Accept(parse, first.rest + more);
      second.(msgs := first.msgs + second.msgs)
  }

  lemma ResumeLine(parse: Parse, line: string, rest: string, tail: Accepted, more: string)
    ensures Resume(parse, AfterLine(parse, line, rest, tail), more)
            == AfterLine(parse, line, rest + more, Resume(parse, tail, more))
  {
    if parse(line).Some? {
      ConcatAssoc([parse(line).value], tail.msgs, Accept(parse, tail.rest + more).msgs);
    }
  }

  /** Reading in two pieces is reading at once: the unfinished line is carried over. */
  lemma {:induction false} AcceptConcat(parse: Parse, a: string, b: string)
    ensures Accept(parse, a + b) == Resume(parse, Accept(parse, a), b)
    decreases |a|
  {
    var i := IndexOf(a, '\n');
    if i.Some? {
      IndexOfConcat(a, b, '\n');
      CutConcat(a, b, i.value);
      var rest := a[i.value + 1..];
      AcceptConcat(parse, rest, b);
      ResumeLine(parse, a[..i.value], rest, Accept(parse, rest), b);
    }
  }

  function ByteLength(s: string): nat {
    |Bytes.Utf8(s)|
  }

  /** Every line of the stream, the unfinished one too, is within the limit. */
  predicate WithinLimit(s: string)
    decreases |s|
  {
    var i := IndexOf(s, '\n');
    if i.None? then ByteLength(s) <= MAX_LINE_BYTES
    else ByteLength(s[..i.value]) <= MAX_LINE_BYTES && WithinLimit(s[i.value + 1..])
  }

  lemma PartIsShorter(s: string, t: string)
    ensures ByteLength(s) <= ByteLength(s + t)
  {
    Bytes.Utf8Concat(s, t);
  }

  lemma AcceptRest(parse: Parse, a: string, i: nat)
    requires IndexOf(a, '\n') == Some(i) && !Accept(parse, a).bad
    ensures !Accept(parse, a[i + 1..]).bad && Accept(parse, a[i + 1..]).rest == Accept(parse, a).rest
  {
  }

  lemma LimitBehind(s: string, i: nat)
    requires WithinLimit(s) && IndexOf(s, '\n') == Some(i)
    ensures WithinLimit(s[i + 1..])
  {
  }

  lemma LimitRest(a: string, b: string, i: nat)
    requires WithinLimit(a + b) && IndexOf(a, '\n') == Some(i)
    ensures WithinLimit(a[i + 1..] + b)
  {
    IndexOfConcat(a, b, '\n');
    LimitBehind(a + b, i);
    CutConcat(a, b, i);
  }

  /** However much of it has arrived, the unfinished line is within the limit as well. */
  lemma {:induction false} PrefixWithinLimit(parse: Parse, a: string, b: string)
    requires WithinLimit(a + b) && !Accept(parse, a).bad
    ensures ByteLength(Accept(parse, a).rest) <= MAX_LINE_BYTES
    decreases |a|
  {
    var i := IndexOf(a, '\n');
    if i.Some? {
      AcceptRest(parse, a, i.value);
      LimitRest(a, b, i.value);
      PrefixWithinLimit(parse, a[i.value + 1..], b);
    } else {
      StartWithinLimit(a, b);
    }
  }

  lemma StartWithinLimit(a: string, b: string)
    requires WithinLimit(a + b) && IndexOf(a, '\n').None?
    ensures ByteLength(a) <= MAX_LINE_BYTES
  {
    var j := IndexOf(a + b, '\n');
    if j.None? {
      PartIsShorter(a, b);
    } else {
      assert (a + b)[j.value] == '\n';
      assert (a + b)[..j.value] == a + b[..j.value - |a|];
      PartIsShorter(a, b[..j.value - |a|]);
    }
  }

  // ---------- one chunk after another ----------

  /** What the socket has produced so far; once it is closed further bytes are not read. */
  datatype Inbox = Inbox(rest: string, arrived: seq<Msg>, open: bool)

  function AfterChunk(parse: Parse, b: Inbox, chunk: string): Inbox {
    if !b.open then b
    else
      var a := Accept(parse, b.rest + chunk);
      Inbox(a.rest, b.arrived + a.msgs, !a.bad && ByteLength(a.rest) <= MAX_LINE_BYTES)
  }

  function AfterChunks(parse: Parse, chunks: seq<string>): Inbox {
    if chunks == [] then Inbox("", [], true)
    else AfterChunk(parse, AfterChunks(parse, chunks[..|chunks| - 1]), chunks[|chunks| - 1])
  }

  function Joined(chunks: seq<string>): string {
    if chunks == [] then "" else Joined(chunks[..|chunks| - 1]) + chunks[|chunks| - 1]
  }

  lemma {:induction false} ChunksRead(parse: Parse, chunks: seq<string>, later: string)
    requires WithinLimit(Joined(chunks) + later)
    ensures
      var b, whole := AfterChunks(parse, chunks), Accept(parse, Joined(chunks));
      && b.arrived == whole.msgs
      && b.open == !whole.bad
      && (b.open ==> b.rest == whole.rest)
    decreases |chunks|
  {
    if chunks != [] {
      var init, last := chunks[..|chunks| - 1], chunks[|chunks| - 1];
      assert Joined(chunks) + later == Joined(init) + (last + later);
      ChunksRead(parse, init, last + later);
      AcceptConcat(parse, Joined(init), last);
      if !Accept(parse, Joined(chunks)).bad {
        PrefixWithinLimit(parse, Joined(chunks), later);
      }
    }
  }

  /** With every line within the limit, how the stream was cut into chunks makes no difference. */
  lemma SplitDoesNotMatter(parse: Parse, a: seq<string>, b: seq<string>)
    requires Joined(a) == Joined(b) && WithinLimit(Joined(a))
    ensures AfterChunks(parse, a).arrived == AfterChunks(parse, b).arrived == Accept(parse, Joined(a)).msgs
    ensures AfterChunks(parse, a).open == AfterChunks(parse, b).open == !Accept(parse, Joined(a)).bad
  {
    assert Joined(a) + "" == Joined(a) && Joined(b) + "" == Joined(b);
    ChunksRead(parse, a, "");
    ChunksRead(parse, b, "");
  }

  /** Whatever the lines' lengths, what arrives is the beginning of what the whole stream means. */
  lemma {:induction false} ArrivedIsPrefix(parse: Parse, chunks: seq<string>)
    ensures
      var b, whole := AfterChunks(parse, chunks), Accept(parse, Joined(chunks));
      && b.arrived <= whole.msgs
      && (b.open ==> b.arrived == whole.msgs && b.rest == whole.rest && !whole.bad)
    decreases |chunks|
  {
    if chunks != [] {
      var init, last := chunks[..|chunks| - 1], chunks[|chunks| - 1];
      ArrivedIsPrefix(parse, init);
      AcceptConcat(parse, Joined(init), last);
    }
  }

  // ---------- what arrives, line by line ----------

  /** Each line with a line break behind it. */
  function Stream(lines: seq<string>): string {
    if lines == [] then "" else lines[0] + "\n" + Stream(lines[1..])
  }

  /** The lines that are not blank, in order. */
  function Spoken(lines: seq<string>): seq<string> {
    if lines == [] then [] else (if Text.Blank(lines[0]) then [] else [lines[0]]) + Spoken(lines[1..])
  }

  ghost predicate AreLines(lines: seq<string>) {
    forall i :: 0 <= i < |lines| ==> '\n' !in lines[i]
  }

  /** `msgs` are what the lines parse to that are not blank, in order. */
  ghost predicate Says(parse: Parse, lines: seq<string>, msgs: seq<Msg>) {
    && |msgs| == |Spoken(lines)|
    && forall i :: 0 <= i < |msgs| ==> parse(Spoken(lines)[i]) == Some(msgs[i])
  }

  lemma FirstLine(line: string, more: string)
    requires '\n' !in line
    ensures
      var s := line + "\n" + more;
      IndexOf(s, '\n') == Some(|line|) && s[..|line|] == line && s[|line| + 1..] == more
  {
    var s := line + "\n" + more;
    assert s[|line|] == '\n';
    assert forall k :: 0 <= k < |line| ==> s[k] == line[k];
  }

  lemma StreamNext(lines: seq<string>, more: string)
    requires lines != []
    ensures Stream(lines) + more == lines[0] + "\n" + (Stream(lines[1..]) + more)
  {
  }

  lemma SaysNext(parse: Parse, lines: seq<string>, msgs: seq<Msg>)
    requires lines != [] && Says(parse, lines[1..], msgs)
    requires !Text.Blank(lines[0]) ==> parse(lines[0]).Some?
    ensures Says(parse, lines, if Text.Blank(lines[0]) then msgs else [parse(lines[0]).value] + msgs)
  {
  }

  /** Reading good lines gives their messages, and reading goes on behind them. */
  lemma {:induction false} LinesRead(parse: Parse, lines: seq<string>, more: string) returns (msgs: seq<Msg>)
    requires AreLines(lines) && forall i :: 0 <= i < |lines| ==> Text.Blank(lines[i]) || parse(lines[i]).Some?
    ensures Says(parse, lines, msgs)
    ensures Accept(parse, Stream(lines) + more)
            == Accepted(msgs + Accept(parse, more).msgs, Accept(parse, more).rest, Accept(parse, more).bad)
  {
    msgs := [];
    if lines == [] {
      assert Stream(lines) + more == more;
    } else {
      msgs := LinesRead(parse, lines[1..], more);
      StreamNext(lines, more);
      FirstLine(lines[0], Stream(lines[1..]) + more);
      var left, right := Text.TrimCuts(lines[0]);
      SaysNext(parse, lines, msgs);
      if !Text.Blank(lines[0]) {
        ConcatAssoc([parse(lines[0]).value], msgs, Accept(parse, more).msgs);
        msgs := [parse(lines[0]).value] + msgs;
      }
    }
  }

  lemma {:induction false} LinesWithinLimit(lines: seq<string>, more: string)
    requires AreLines(lines) && forall i :: 0 <= i < |lines| ==> ByteLength(lines[i]) <= MAX_LINE_BYTES
    requires WithinLimit(more)
    ensures WithinLimit(Stream(lines) + more)
  {
    if lines == [] {
      assert Stream(lines) + more == more;
    } else {
      LinesWithinLimit(lines[1..], more);
      StreamNext(lines, more);
      FirstLine(lines[0], Stream(lines[1..]) + more);
    }
  }

  ghost predicate GoodLines(parse: Parse, lines: seq<string>) {
    && AreLines(lines)
    && forall i :: 0 <= i < |lines| ==> (Text.Blank(lines[i]) || parse(lines[i]).Some?)
                                        && ByteLength(lines[i]) <= MAX_LINE_BYTES
  }

  /**
   Whatever the chunks, good lines arrive as what they parse to, each once and in order; blank ones contribute
   nothing, and what follows the last line break is kept for later.
   */
  lemma LinesArrive(parse: Parse, lines: seq<string>, last: string, chunks: seq<string>)
    requires GoodLines(parse, lines) && '\n' !in last && ByteLength(last) <= MAX_LINE_BYTES
    requires Joined(chunks) == Stream(lines) + last
    ensures var b := AfterChunks(parse, chunks); b.open && b.rest == last && Says(parse, lines, b.arrived)
  {
    var msgs := LinesRead(parse, lines, last);
    assert IndexOf(last, '\n').None?;
    LinesWithinLimit(lines, last);
    assert Joined(chunks) + "" == Joined(chunks);
    ChunksRead(parse, chunks, "");
    assert msgs + [] == msgs;
  }

  /** With no blank line among them: exactly the messages of the lines. */
  lemma EveryLineArrives(parse: Parse, lines: seq<string>, chunks: seq<string>)
    requires GoodLines(parse, lines) && Joined(chunks) == Stream(lines)
    requires forall i :: 0 <= i < |lines| ==> !Text.Blank(lines[i])
    ensures
      var b := AfterChunks(parse, chunks);
      && b.open && b.rest == "" && |b.arrived| == |lines|
      && forall i :: 0 <= i < |lines| ==> parse(lines[i]) == Some(b.arrived[i])
  {
    assert Stream(lines) + "" == Stream(lines);
    LinesArrive(parse, lines, "", chunks);
    AllSpoken(lines);
  }

  lemma {:induction false} AllSpoken(lines: seq<string>)
    requires forall i :: 0 <= i < |lines| ==> !Text.Blank(lines[i])
    ensures Spoken(lines) == lines
  {
    if lines != [] { AllSpoken(lines[1..]); }
  }

  /** The first line that is neither blank nor a message ends it: what came before has arrived, nothing after does. */
  lemma BadLineEnds(parse: Parse, lines: seq<string>, bad: string, more: string, chunks: seq<string>)
    requires GoodLines(parse, lines) && WithinLimit(more)
    requires '\n' !in bad && !Text.Blank(bad) && parse(bad).None? && ByteLength(bad) <= MAX_LINE_BYTES
    requires Joined(chunks) == Stream(lines) + (bad + "\n" + more)
    ensures var b := AfterChunks(parse, chunks); !b.open && Says(parse, lines, b.arrived)
  {
    var msgs := LinesRead(parse, lines, bad + "\n" + more);
    FirstLine(bad, more);
    var left, right := Text.TrimCuts(bad);
    LinesWithinLimit(lines, bad + "\n" + more);
    assert Joined(chunks) + "" == Joined(chunks);
    ChunksRead(parse, chunks, "");
    assert msgs + [] == msgs;
  }

  /** An open channel holds back at most one line's limit. */
  lemma OpenIsBounded(parse: Parse, chunks: seq<string>)
    ensures AfterChunks(parse, chunks).open ==> |Bytes.Utf8(AfterChunks(parse, chunks).rest)| <= 16384
  {
  }

  /** A line that grows beyond it closes the channel. */
  lemma TooLongCloses(parse: Parse, chunks: seq<string>, chunk: string)
    requires '\n' !in AfterChunks(parse, chunks).rest + chunk
    requires |Bytes.Utf8(AfterChunks(parse, chunks).rest + chunk)| > 16384
    ensures !AfterChunks(parse, chunks + [chunk]).open
    ensures AfterChunks(parse, chunks + [chunk]).arrived == AfterChunks(parse, chunks).arrived
  {
    assert (chunks + [chunk])[..|chunks|] == chunks;
    assert IndexOf(AfterChunks(parse, chunks).rest + chunk, '\n').None?;
  }

  // ---------- the channel ----------

  datatype NextResult = Got(msg: Msg) | Closed(error: string) | Waiting

  /** Each waiter, oldest first, gets the next message. */
  function Served(waiters: seq<nat>, msgs: seq<Msg>): (r: seq<(nat, Msg)>)
    ensures |r| == if |waiters| < |msgs| then |waiters| else |msgs|
    ensures forall i :: 0 <= i < |r| ==> r[i] == (waiters[i], msgs[i])
  {
    if waiters == [] || msgs == [] then [] else [(waiters[0], msgs[0])] + Served(waiters[1..], msgs[1..])
  }

  function Messages(handed: seq<(nat, Msg)>): (r: seq<Msg>)
    ensures |r| == |handed| && forall i :: 0 <= i < |r| ==> r[i] == handed[i].1
  {
    seq(|handed|, i requires 0 <= i < |handed| => handed[i].1)
  }

  /** `msgs` were handed out to the waiters `w` in turn, and what was left over went behind the queue `q`. */
  ghost predicate Given(w: seq<nat>, q: seq<Msg>, h: seq<(nat, Msg)>, msgs: seq<Msg>,
                        w': seq<nat>, q': seq<Msg>, h': seq<(nat, Msg)>)
  {
    var n := |Served(w, msgs)|;
    h' == h + Served(w, msgs) && w' == w[n..] && q' == q + msgs[n..]
  }

  lemma {:induction false} ServedConcat(w: seq<nat>, a: seq<Msg>, b: seq<Msg>)
    ensures Served(w, a + b) == Served(w, a) + Served(w[|Served(w, a)|..], b)
  {
    if a == [] {
      assert a + b == b;
    } else if w != [] {
      assert (a + b)[1..] == a[1..] + b;
      ServedConcat(w[1..], a[1..], b);
    }
  }

  lemma DropConcat<T>(a: seq<T>, b: seq<T>, n: nat)
    ensures n <= |a| ==> (a + b)[n..] == a[n..] + b
    ensures |a| <= n <= |a| + |b| ==> (a + b)[n..] == b[n - |a|..]
  {
  }

  lemma DropTwice<T>(s: seq<T>, n: nat, k: nat)
    requires n + k <= |s|
    ensures s[n..][k..] == s[n + k..]
  {
  }

  lemma GivenInTurn(w: seq<nat>, q: seq<Msg>, h: seq<(nat, Msg)>, a: seq<Msg>,
                    w1: seq<nat>, q1: seq<Msg>, h1: seq<(nat, Msg)>, b: seq<Msg>,
                    w2: seq<nat>, q2: seq<Msg>, h2: seq<(nat, Msg)>)
    requires Given(w, q, h, a, w1, q1, h1) && Given(w1, q1, h1, b, w2, q2, h2)
    ensures Given(w, q, h, a + b, w2, q2, h2)
  {
    var n, k := |Served(w, a)|, |Served(w1, b)|;
    ServedConcat(w, a, b);
    ConcatAssoc(h, Served(w, a), Served(w1, b));
    DropTwice(w, n, k);
    DropConcat(a, b, n + k);
    if n == |a| {
      assert q1 == q;
    } else {
      assert k == 0;
      ConcatAssoc(q, a[n..], b);
      assert b[0..] == b;
    }
  }

  /** The messages read so far and those still to be read from the buffer make up `whole`. */
  ghost predicate Reading(parse: Parse, whole: Accepted, taken: seq<Msg>, buf: string,
                          a0: seq<Msg>, arrived: seq<Msg>,
                          w0: seq<nat>, q0: seq<Msg>, h0: seq<(nat, Msg)>,
                          w: seq<nat>, q: seq<Msg>, h: seq<(nat, Msg)>)
  {
    && arrived == a0 + taken && Given(w0, q0, h0, taken, w, q, h)
    && whole == Accept(parse, buf).(msgs := taken + Accept(parse, buf).msgs)
  }

  lemma ReadOn(parse: Parse, whole: Accepted, taken: seq<Msg>, buf: string, got: seq<Msg>, buf': string,
               a0: seq<Msg>, arrived: seq<Msg>,
               w0: seq<nat>, q0: seq<Msg>, h0: seq<(nat, Msg)>,
               w: seq<nat>, q: seq<Msg>, h: seq<(nat, Msg)>,
               w': seq<nat>, q': seq<Msg>, h': seq<(nat, Msg)>)
    requires Reading(parse, whole, taken, buf, a0, arrived, w0, q0, h0, w, q, h)
    requires Accept(parse, buf) == Accept(parse, buf').(msgs := got + Accept(parse, buf').msgs)
    requires Given(w, q, h, got, w', q', h')
    ensures Reading(parse, whole, taken + got, buf', a0, arrived + got, w0, q0, h0, w', q', h')
  {
    GivenInTurn(w0, q0, h0, taken, w, q, h, got, w', q', h');
    ConcatAssoc(taken, got, Accept(parse, buf').msgs);
    ConcatAssoc(a0, taken, got);
  }

  lemma ReadAll(parse: Parse, whole: Accepted, taken: seq<Msg>, buf: string,
                a0: seq<Msg>, arrived: seq<Msg>,
                w0: seq<nat>, q0: seq<Msg>, h0: seq<(nat, Msg)>,
                w: seq<nat>, q: seq<Msg>, h: seq<(nat, Msg)>)
    requires Reading(parse, whole, taken, buf, a0, arrived, w0, q0, h0, w, q, h)
    requires Accept(parse, buf).msgs == []
    ensures whole == Accept(parse, buf).(msgs := taken)
    ensures arrived == a0 + whole.msgs && Given(w0, q0, h0, whole.msgs, w, q, h)
  {
    assert taken + [] == taken;
  }

  class LineChannel {
    const parse: Parse
    var buf: string
    var queue: seq<Msg>
    var waiters: seq<nat>
    var closedErr: Option<string>
    /** Every message read off the stream, in order. */
    ghost var arrived: seq<Msg>
    /** Every message given to a caller of `Next`, in order. */
    ghost var handed: seq<(nat, Msg)>

    constructor (parse: Parse)
      ensures Valid() && this.parse == parse && View() == Inbox("", [], true)
      ensures queue == [] && waiters == [] && handed == []
    {
      this.parse := parse;
      buf, queue, waiters, closedErr, arrived, handed := "", [], [], None, [], [];
    }

    /** Every message that arrived has been handed out once or still waits in the queue, in order. */
    ghost predicate Valid()
      reads this
    {
      && (queue == [] || waiters == [])
      && (closedErr.Some? ==> waiters == [])
      && Messages(handed) + queue == arrived
    }

    ghost function View(): Inbox
      reads this
    {
      Inbox(buf, arrived, closedErr.None?)
    }

    /** The first error is kept and rejects everyone who waits; frames already queued stay. */
    method Fail(err: string)
      requires Valid()
      modifies this`closedErr, this`waiters
      ensures Valid() && waiters == (if old(closedErr).None? then [] else old(waiters))
      ensures closedErr == if old(closedErr).None? then Some(err) else old(closedErr)
    {
      if closedErr.Some? { return; }
      closedErr := Some(err);
      waiters := [];
    }

    method Dispatch(msg: Msg)
      requires Valid()
      modifies this`queue, this`waiters, this`arrived, this`handed
      ensures Valid() && arrived == old(arrived) + [msg]
      ensures old(waiters) != [] ==>
                waiters == old(waiters)[1..] && queue == old(queue) && handed == old(handed) + [(old(waiters)[0], msg)]
      ensures old(waiters) == [] ==> waiters == [] && queue == old(queue) + [msg] && handed == old(handed)
    {
      arrived := arrived + [msg];
      if waiters != [] {
        handed := handed + [(waiters[0], msg)];
        waiters := waiters[1..];
      } else {
        queue := queue + [msg];
      }
    }

    /** Takes one line off the buffer; a line that is no message ends the channel. */
    method TakeLine(i: nat) returns (ok: bool, ghost got: seq<Msg>)
      requires Valid() && closedErr.None? && IndexOf(buf, '\n') == Some(i)
      modifies this
      ensures Valid() && |buf| < old(|buf|)
      ensures arrived == old(arrived) + got
      ensures ok <==> closedErr.None?
      ensures ok ==> && Accept(parse, old(buf)) == Accept(parse, buf).(msgs := got + Accept(parse, buf).msgs)
                     && Given(old(waiters), old(queue), old(handed), got, waiters, queue, handed)
      ensures !ok ==> && Accept(parse, old(buf)) == Accepted([], buf, true) && got == [] && waiters == []
                      && queue == old(queue) && handed == old(handed)
    {
      var line := buf[..i];
      buf := buf[i + 1..];
      if Text.Trim(line) == "" { return true, []; }
      var msg := parse(line);
      if msg.None? {
        Fail("malformed message from peer");
        return false, [];
      }
      Dispatch(msg.value);
      return true, [msg.value];
    }

    /** Reads complete lines until there is none left or one is bad. */
    method TakeLines() returns (ghost left: seq<nat>)
      requires Valid() && closedErr.None?
      modifies this
      ensures Valid() && buf == Accept(parse, old(buf)).rest
      ensures closedErr.Some? <==> Accept(parse, old(buf)).bad
      ensures arrived == old(arrived) + Accept(parse, old(buf)).msgs
      ensures Given(old(waiters), old(queue), old(handed), Accept(parse, old(buf)).msgs, left, queue, handed)
      ensures waiters == if closedErr.None? then left else []
    {
      ghost var whole, taken: seq<Msg> := Accept(parse, buf), [];
      ghost var w0, q0, h0, a0 := waiters, queue, handed, arrived;
      while IndexOf(buf, '\n').Some?
        invariant Valid() && closedErr.None?
        invariant Reading(parse, whole, taken, buf, a0, arrived, w0, q0, h0, waiters, queue, handed)
        decreases |buf|
      {
        ghost var b, a, w, q, h := buf, arrived, waiters, queue, handed;
        var ok, got := TakeLine(IndexOf(buf, '\n').value);
        if !ok {
          ReadAll(parse, whole, taken, b, a0, a, w0, q0, h0, w, q, h);
          return w;
        }
        ReadOn(parse, whole, taken, b, got, buf, a0, a, w0, q0, h0, w, q, h, waiters, queue, handed);
        taken := taken + got;
      }
      ReadAll(parse, whole, taken, buf, a0, arrived, w0, q0, h0, waiters, queue, handed);
      left := waiters;
    }

    /** Bytes arrived: complete lines go to the waiters and then to the queue; the rest is kept. */
    method OnData(chunk: string) returns (ghost left: seq<nat>)
      requires Valid() && closedErr.None?
      modifies this
      ensures Valid()
      ensures View() == AfterChunk(parse, old(View()), chunk)
      ensures Given(old(waiters), old(queue), old(handed), Accept(parse, old(buf) + chunk).msgs,
                    left, queue, handed)
      ensures waiters == if closedErr.None? then left else []
    {
      buf := buf + chunk;
      left := TakeLines();
      if closedErr.None? && ByteLength(buf) > MAX_LINE_BYTES {
        Fail("message from peer too large");
      }
    }

    /** The socket ended, was closed or broke. */
    method OnEnd(err: string)
      requires Valid()
      modifies this`closedErr, this`waiters
      ensures Valid() && closedErr.Some? && waiters == []
      ensures old(closedErr).Some? ==> closedErr == old(closedErr)
    {
      Fail(err);
    }

    /** A queued frame first, even after the end; then the error; else the caller waits its turn. */
    method Next(caller: nat) returns (r: NextResult)
      requires Valid() && caller !in waiters
      modifies this`queue, this`waiters, this`handed
      ensures Valid()
      ensures r.Got? <==> old(queue) != []
      ensures r.Got? ==> && r.msg == old(queue)[0] && queue == old(queue)[1..] && waiters == old(waiters)
                         && handed == old(handed) + [(caller, r.msg)]
      ensures r.Closed? <==> old(queue) == [] && closedErr.Some?
      ensures r.Closed? ==>
                closedErr == Some(r.error) && queue == [] && waiters == old(waiters) && handed == old(handed)
      ensures r.Waiting? ==> queue == [] && waiters == old(waiters) + [caller] && handed == old(handed)
    {
      if queue != [] {
        var m := queue[0];
        handed := handed + [(caller, m)];
        queue := queue[1..];
        return Got(m);
      }
      if closedErr.Some? { return Closed(closedErr.value); }
      waiters := waiters + [caller];
      return Waiting;
    }

    /** The caller gives up: nobody else's place changes and no message is consumed. */
    method TimeOut(caller: nat)
      requires Valid()
      modifies this`waiters
      ensures Valid() && caller !in waiters
      ensures waiters == Without(old(waiters), caller)
      ensures forall a, b :: old(waiters) == a + [caller] + b && caller !in a && caller !in b ==> waiters == a + b
    {
      WithoutRemoves(waiters, caller);
      forall a, b | waiters == a + [caller] + b && caller !in a && caller !in b
        ensures Without(waiters, caller) == a + b
      {
        WithoutOne(a, caller, b);
      }
      waiters := Without(waiters, caller);
    }
  }

  function Without(s: seq<nat>, x: nat): seq<nat> {
    if s == [] then [] else (if s[0] == x then [] else [s[0]]) + Without(s[1..], x)
  }

  lemma {:induction false} WithoutRemoves(s: seq<nat>, x: nat)
    ensures forall y :: y in Without(s, x) <==> y in s && y != x
    ensures s == [] ==> Without(s, x) == []
  {
    if s != [] {
      WithoutRemoves(s[1..], x);
      assert s == [s[0]] + s[1..];
    }
  }

  lemma {:induction false} WithoutIdle(s: seq<nat>, x: nat)
    requires x !in s
    ensures Without(s, x) == s
  {
    if s != [] { WithoutIdle(s[1..], x); }
  }

  /** The places of all others stay as they were. */
  lemma {:induction false} WithoutOne(a: seq<nat>, x: nat, b: seq<nat>)
    requires x !in a && x !in b
    ensures Without(a + [x] + b, x) == a + b
  {
    if a == [] {
      assert ([] + [x] + b)[1..] == b;
      WithoutIdle(b, x);
    } else {
      assert (a + [x] + b)[1..] == a[1..] + [x] + b;
      WithoutOne(a[1..], x, b);
    }
  }
}
