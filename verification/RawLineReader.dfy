/**
 Reading lines from a byte stream through a remainder the reader owns, waking in
 the middle of a line, and carrying the remainder across to a new process image.

 What matters is conservation: whatever way the stream is cut into reads and
 whenever the reader is interrupted or replaced, the lines handed out are the
 newline split of the stream.
 */
module RawLineReader {
  import opened Prelude

  newtype Byte = x: int | 0 <= x < 256

  const NEWLINE: Byte := 10
  const READ_CHUNK: nat := 64 * 1024

  // ---------------------------------------------------------------------
  // Lines
  // ---------------------------------------------------------------------

  /** Where the first newline is, or the length when there is none. */
  function Find(s: seq<Byte>): (at: nat)
    ensures at <= |s| && NEWLINE !in s[..at] && (at < |s| ==> s[at] == NEWLINE)
  {
    if s == [] || s[0] == NEWLINE then 0 else 1 + Find(s[1..])
  }

  /** Up to and with the first newline, or everything. */
  function FirstLine(s: seq<Byte>): seq<Byte> {
    if Find(s) < |s| then s[..Find(s) + 1] else s
  }

  function Lines(s: seq<Byte>): seq<seq<Byte>> {
    if s == [] then [] else [FirstLine(s)] + Lines(s[|FirstLine(s)|..])
  }

  function Concat(lines: seq<seq<Byte>>): seq<Byte> {
    if lines == [] then [] else lines[0] + Concat(lines[1..])
  }

  /** A line holds a newline only at its end; the last alone may lack one, and no line is empty. */
  predicate AreLines(lines: seq<seq<Byte>>) {
    forall i | 0 <= i < |lines| ::
      && lines[i] != [] && NEWLINE !in lines[i][..|lines[i]| - 1]
      && (i < |lines| - 1 ==> lines[i][|lines[i]| - 1] == NEWLINE)
  }

  lemma {:induction false} FindFrom(a: seq<Byte>, b: seq<Byte>)
    requires NEWLINE !in a
    ensures Find(a + b) == |a| + Find(b)
  {
    if a == [] {
      assert a + b == b;
    } else {
      FindFrom(a[1..], b);
      assert (a + b)[1..] == a[1..] + b;
    }
  }

  /** A stem without a newline, and the newline after it, are the first line of whatever follows. */
  lemma LineEndsAt(stem: seq<Byte>, rest: seq<Byte>)
    requires NEWLINE !in stem
    ensures FirstLine(stem + [NEWLINE] + rest) == stem + [NEWLINE]
  {
    var s := stem + [NEWLINE] + rest;
    assert Find(s) == |stem| by {
      assert s == stem + ([NEWLINE] + rest);
      FindFrom(stem, [NEWLINE] + rest);
      AtOnce(rest);
    }
    hide Find;
    assert s[..|stem| + 1] == stem + [NEWLINE];
  }

  lemma AtOnce(rest: seq<Byte>)
    ensures Find([NEWLINE] + rest) == 0
  {
  }

  /** The split is lines, and their concatenation is the stream. */
  lemma {:induction false} LinesRejoin(s: seq<Byte>)
    ensures Concat(Lines(s)) == s && AreLines(Lines(s))
  {
    hide FirstLine, AreLines;
    if s == [] {
      NoLines();
    } else {
      FirstIsALine(s);
      var first, rest := FirstLine(s), s[|FirstLine(s)|..];
      LinesRejoin(rest);
      OneMoreLine(first, Lines(rest));
    }
  }

  lemma NoLines()
    ensures AreLines([])
  {
  }

  lemma FirstIsALine(s: seq<Byte>)
    requires s != []
    ensures var first := FirstLine(s);
            && first != [] && NEWLINE !in first[..|first| - 1] && |first| <= |s| && first + s[|first|..] == s
            && (s[|first|..] != [] ==> first[|first| - 1] == NEWLINE)
  {
  }

  lemma OneMoreLine(first: seq<Byte>, lines: seq<seq<Byte>>)
    requires first != [] && NEWLINE !in first[..|first| - 1] && (lines != [] ==> first[|first| - 1] == NEWLINE)
    requires AreLines(lines)
    ensures AreLines([first] + lines) && Concat([first] + lines) == first + Concat(lines)
  {
  }

  lemma FewerLines(lines: seq<seq<Byte>>)
    requires lines != [] && AreLines(lines)
    ensures AreLines(lines[1..])
  {
  }

  /** There is only one way to write a stream as lines. */
  lemma {:induction false} OnlyOneSplit(lines: seq<seq<Byte>>)
    requires AreLines(lines)
    ensures Lines(Concat(lines)) == lines
  {
    if lines != [] {
      FewerLines(lines);
      OnlyOneSplit(lines[1..]);
      FirstOfLines(lines);
      assert Concat(lines)[|lines[0]|..] == Concat(lines[1..]);
    }
  }

  lemma FirstOfLines(lines: seq<seq<Byte>>)
    requires lines != [] && AreLines(lines)
    ensures FirstLine(Concat(lines)) == lines[0]
  {
    hide FirstLine, Concat;
    var line, rest := lines[0], lines[1..];
    var stem, last := line[..|line| - 1], line[|line| - 1];
    assert line == stem + [last];
    Unfolded(lines);
    if last == NEWLINE {
      LineEndsAt(stem, Concat(rest));
    } else {
      assert rest == [];
      Unfolded(rest);
      assert line + [] == line;
      NoNewline(line);
    }
  }

  lemma Unfolded(lines: seq<seq<Byte>>)
    ensures Concat(lines) == if lines == [] then [] else lines[0] + Concat(lines[1..])
  {
  }

  /** A stream without a newline is one line. */
  lemma NoNewline(s: seq<Byte>)
    requires NEWLINE !in s
    ensures FirstLine(s) == s
  {
    FindFrom(s, []);
    assert s + [] == s;
  }

  // ---------------------------------------------------------------------
  // The stream
  // ---------------------------------------------------------------------

  /** A descriptor. `unread` is all that is still to come before end of file. */
  class Source {
    var unread: seq<Byte>
    ghost var taken: seq<Byte>

    constructor (bytes: seq<Byte>)
      ensures unread == bytes && taken == []
    {
      unread := bytes;
      taken := [];
    }

    /** Any non-empty part of what is to come, no longer than `max`; nothing only at the end. */
    method Read(max: nat) returns (data: seq<Byte>)
      requires max > 0
      modifies this
      ensures old(unread) == data + unread && taken == old(taken) + data
      ensures |data| <= max && (data == [] <==> old(unread) == [])
    {
      if unread == [] {
        return [];
      }
      var n: nat :| 0 < n <= |unread| && n <= max;
      data := unread[..n];
      unread := unread[n..];
      taken := taken + data;
    }
  }

  /** The system around the reader: waits that may be woken, and sends that may fail. */
  class Host {
    ghost var wakes: nat
    ghost var failures: nat

    constructor ()
      ensures wakes == failures == 0
    {
      wakes, failures := 0, 0;
    }

    /** Wait until there is input, or something else to see to. */
    method Wait() returns (ready: bool, woken: bool)
      modifies this`wakes
      ensures ready || woken
      ensures wakes == old(wakes) + (if woken then 1 else 0)
    {
      ready, woken :| ready || woken;
      wakes := wakes + (if woken then 1 else 0);
    }

    /** A send takes any part of what is pending; nothing means that it failed. */
    method Send(pending: seq<Byte>) returns (sent: nat)
      requires pending != []
      modifies this`failures
      ensures sent <= |pending| && failures == old(failures) + (if sent == 0 then 1 else 0)
    {
      sent :| sent <= |pending|;
      failures := failures + (if sent == 0 then 1 else 0);
    }
  }

  // ---------------------------------------------------------------------
  // The reader
  // ---------------------------------------------------------------------

  /** The next line of `before` was handed out, leaving `after`; an empty line means the end. */
  predicate Took(before: seq<Byte>, after: seq<Byte>, line: seq<Byte>) {
    line == FirstLine(before) && after == before[|line|..]
  }

  /** A turn that was woken hands out nothing and loses nothing. */
  predicate Turn(before: seq<Byte>, after: seq<Byte>, answer: Option<seq<Byte>>) {
    if answer.Some? then Took(before, after, answer.value) else after == before
  }

  lemma TookALine(chunks: seq<Byte>, held: seq<Byte>, unread: seq<Byte>)
    requires NEWLINE !in chunks && Find(held) < |held|
    ensures Took(chunks + (held + unread), held[Find(held) + 1..] + unread, chunks + held[..Find(held) + 1])
  {
    hide Find, FirstLine, Took;
    var at := Find(held);
    var head, tail := held[..at], held[at + 1..];
    assert held == head + [NEWLINE] + tail && held[..at + 1] == head + [NEWLINE];
    LineFollows(chunks + head, tail + unread);
    Regroup(chunks, head, tail, unread);
  }

  lemma Regroup(a: seq<Byte>, b: seq<Byte>, c: seq<Byte>, d: seq<Byte>)
    ensures a + ((b + [NEWLINE] + c) + d) == a + b + [NEWLINE] + (c + d)
    ensures a + (b + [NEWLINE]) == a + b + [NEWLINE]
  {
  }

  lemma LineFollows(stem: seq<Byte>, rest: seq<Byte>)
    requires NEWLINE !in stem
    ensures Took(stem + [NEWLINE] + rest, rest, stem + [NEWLINE])
  {
    LineEndsAt(stem, rest);
  }

  lemma TookTheTail(tail: seq<Byte>)
    requires NEWLINE !in tail
    ensures Took(tail, [], tail)
  {
  }

  class Reader {
    const source: Source
    var remainder: seq<Byte>
    var eof: bool
    ghost var returned: seq<Byte>

    /** Everything not handed out yet. */
    function Rest(): seq<Byte>
      reads this, source
    {
      remainder + source.unread
    }

    /** Every byte read was handed out or is held. */
    ghost predicate Valid()
      reads this, source
    {
      source.taken == returned + remainder && (eof ==> source.unread == [])
    }

    constructor (source: Source, remainder: seq<Byte>, ghost returned: seq<Byte>)
      requires source.taken == returned + remainder
      ensures this.source == source && this.remainder == remainder && this.returned == returned && !eof
      ensures Valid()
    {
      this.source := source;
      this.remainder := remainder;
      this.eof := false;
      this.returned := returned;
    }

    predicate LineReady()
      reads this
    {
      Find(remainder) < |remainder|
    }

    /** Hand out the line begun by `chunks` and ended in the remainder. */
    method FinishLine(chunks: seq<Byte>) returns (line: seq<Byte>)
      requires NEWLINE !in chunks && LineReady() && (eof ==> source.unread == [])
      requires source.taken == returned + chunks + remainder
      modifies this
      ensures Valid() && eof == old(eof) && returned == old(returned) + line
      ensures Took(chunks + old(Rest()), Rest(), line)
    {
      hide FirstLine, Find, Took;
      var at := Find(remainder);
      line := chunks + remainder[..at + 1];
      TookALine(chunks, remainder, source.unread);
      assert chunks + remainder == line + remainder[at + 1..];
      remainder := remainder[at + 1..];
      returned := returned + line;
    }

    /** Set the remainder aside and read again. */
    method Refill(chunks: seq<Byte>) returns (longer: seq<Byte>)
      modifies this, source
      ensures longer == chunks + old(remainder) && longer + Rest() == chunks + old(Rest())
      ensures source.taken == old(source.taken) + remainder && returned == old(returned) && eof == old(eof)
      ensures old(source.unread) == remainder + source.unread && (remainder == [] <==> old(source.unread) == [])
    {
      longer := chunks + remainder;
      remainder := source.Read(READ_CHUNK);
      assert old(Rest()) == old(remainder) + Rest();
      assert chunks + old(Rest()) == longer + Rest();
    }

    /** One turn of `ReadLine`, `chunks` being what it has set aside. */
    method ReadOn(chunks: seq<Byte>) returns (line: Option<seq<Byte>>, longer: seq<Byte>)
      requires NEWLINE !in chunks && source.taken == returned + chunks + remainder && (eof ==> source.unread == [])
      modifies this, source
      ensures line.Some? ==> Valid() && Took(chunks + old(Rest()), Rest(), line.value) && returned == old(returned) + line.value
      ensures line.None? ==> NEWLINE !in longer && source.taken == returned + longer + remainder && (eof ==> source.unread == [])
                             && longer + Rest() == chunks + old(Rest()) && returned == old(returned)
                             && |source.unread| < |old(source.unread)|
    {
      hide FirstLine, Find, Took;
      if LineReady() {
        var whole := FinishLine(chunks);
        return Some(whole), [];
      }
      longer := Refill(chunks);
      if remainder == [] {
        TookTheTail(longer);
        assert Rest() == [] && longer == chunks + old(Rest());
        returned := returned + longer;
        line := Some(longer);
      } else {
        line := None;
      }
    }

    method ReadLine() returns (line: seq<Byte>)
      requires Valid()
      modifies this, source
      ensures Valid() && Took(old(Rest()), Rest(), line)
      ensures returned == old(returned) + line
    {
      hide FirstLine, Find, Took;
      var chunks: seq<Byte> := [];
      while true
        invariant NEWLINE !in chunks && chunks + Rest() == old(Rest())
        invariant source.taken == returned + chunks + remainder && returned == old(returned)
        invariant eof ==> source.unread == []
        decreases |source.unread|
      {
        var whole, longer := ReadOn(chunks);
        if whole.Some? {
          return whole.value;
        }
        chunks := longer;
      }
    }

    /** Read more behind the remainder, noting the end of the stream. */
    method Absorb()
      requires Valid() && !eof
      modifies this, source
      ensures Valid() && Rest() == old(Rest()) && returned == old(returned)
      ensures eof || |source.unread| < |old(source.unread)|
      ensures source.unread == [] || !eof
      ensures |source.unread| <= |old(source.unread)|
    {
      var data := source.Read(READ_CHUNK);
      if data == [] {
        eof := true;
      } else {
        remainder := remainder + data;
      }
    }

    /** As `ReadLine`, but gives up without a line when woken before one is whole. */
    method ReadLineInterruptible(host: Host) returns (answer: Option<seq<Byte>>)
      requires Valid()
      modifies this, source, host`wakes
      ensures Valid() && Turn(old(Rest()), Rest(), answer)
      ensures returned == old(returned) + (if answer.Some? then answer.value else [])
      ensures answer.None? ==> !LineReady() && host.wakes > old(host.wakes)
      ensures old(LineReady()) ==> answer.Some? && source.unread == old(source.unread)
    {
      hide FirstLine, Find, Took;
      while true
        invariant host.wakes >= old(host.wakes)
        invariant Valid() && Rest() == old(Rest()) && returned == old(returned)
        invariant old(LineReady()) ==> remainder == old(remainder) && source.unread == old(source.unread)
        decreases |source.unread|, !eof
      {
        if LineReady() {
          var line := FinishLine([]);
          assert [] + old(Rest()) == old(Rest());
          return Some(line);
        }
        if eof {
          var tail := remainder;
          assert Rest() == tail && remainder[..Find(remainder)] == remainder;
          TookTheTail(tail);
          remainder := [];
          returned := returned + tail;
          assert Rest() == [];
          return Some(tail);
        }
        var ready, woken := host.Wait();
        if ready {
          Absorb();
          if eof {
            continue;
          }
        }
        if LineReady() {
          var line := FinishLine([]);
          assert [] + old(Rest()) == old(Rest());
          return Some(line);
        }
        if woken {
          return None;
        }
      }
    }

    /** Replace this reader by one in a new image. Refused, changing nothing, exactly when the read-ahead
        is over one chunk or the channel fails. */
    method Handoff(host: Host) returns (next: Option<Reader>)
      requires Valid()
      modifies host`failures
      ensures next.None? <==> |remainder| > READ_CHUNK || host.failures > old(host.failures)
      ensures next.Some? ==> fresh(next.value) && next.value.source == source && next.value.Valid()
                             && next.value.Rest() == Rest() && next.value.returned == returned
    {
      var channel := OpenChannel(host, remainder);
      if channel.None? {
        return None;
      }
      var carried := ConsumeChannel(channel.value.stream, channel.value.bytes);
      if carried.None? {
        return None;
      }
      var image := new Reader(source, carried.value, returned);
      next := Some(image);
    }
  }

  // ---------------------------------------------------------------------
  // The channel between images
  // ---------------------------------------------------------------------

  datatype Channel = Channel(stream: Source, bytes: nat)

  /** Fill a channel piece by piece; each send may take any non-empty part, or fail. */
  method OpenChannel(host: Host, data: seq<Byte>) returns (channel: Option<Channel>)
    modifies host`failures
    ensures channel.None? <==> |data| > READ_CHUNK || host.failures > old(host.failures)
    ensures channel.Some? ==> fresh(channel.value.stream)
                              && channel.value.stream.unread == data && channel.value.bytes == |data|
  {
    if |data| > READ_CHUNK {
      return None;
    }
    var held, pending: seq<Byte> := [], data;
    while pending != []
      invariant held + pending == data && host.failures == old(host.failures)
      decreases |pending|
    {
      var sent := host.Send(pending);
      if sent == 0 {
        return None;
      }
      held, pending := held + pending[..sent], pending[sent..];
    }
    var stream := new Source(held);
    channel := Some(Channel(stream, |data|));
  }

  /** Drain a channel; its content is given only when it is exactly as long as announced. */
  method ConsumeChannel(stream: Source, bytes: int) returns (data: Option<seq<Byte>>)
    modifies stream
    ensures data.Some? <==> 0 <= bytes <= READ_CHUNK && |old(stream.unread)| == bytes
    ensures data.Some? ==> data.value == old(stream.unread) && stream.unread == []
  {
    if !(0 <= bytes <= READ_CHUNK) {
      return None;
    }
    var peeked := if |stream.unread| <= READ_CHUNK + 1 then |stream.unread| else READ_CHUNK + 1;
    if peeked != bytes {
      return None;
    }
    var chunks: seq<Byte> := [];
    while true
      invariant chunks + stream.unread == old(stream.unread) && |chunks| <= bytes
      decreases |stream.unread|
    {
      var chunk := stream.Read(READ_CHUNK + 1 - |chunks|);
      if chunk == [] {
        break;
      }
      chunks := chunks + chunk;
    }
    return Some(chunks);
  }

  // ---------------------------------------------------------------------
  // Whole runs
  // ---------------------------------------------------------------------

  /** A run: `rests[k]` is what is still to be handed out before turn k. A handoff is a turn without a line. */
  predicate Session(rests: seq<seq<Byte>>, answers: seq<Option<seq<Byte>>>) {
    |rests| == |answers| + 1 && forall k | 0 <= k < |answers| :: Turn(rests[k], rests[k + 1], answers[k])
  }

  /** The lines handed out; an empty answer only reports the end of the stream. */
  function HandedOut(answers: seq<Option<seq<Byte>>>): seq<seq<Byte>> {
    if answers == [] then []
    else
      (if answers[0].Some? && answers[0].value != [] then [answers[0].value] else []) + HandedOut(answers[1..])
  }

  /** However the turns, the interruptions and the images fall, the lines handed out followed by
      the lines still to come are the newline split of the stream. */
  lemma {:induction false} TheSplitOfTheStream(rests: seq<seq<Byte>>, answers: seq<Option<seq<Byte>>>)
    requires Session(rests, answers)
    ensures Lines(rests[0]) == HandedOut(answers) + Lines(rests[|answers|])
    decreases answers
  {
    hide Turn;
    if answers != [] {
      assert Turn(rests[0], rests[0 + 1], answers[0]);
      OneTurn(rests[0], rests[1], answers[0]);
      LaterTurns(rests, answers);
      TheSplitOfTheStream(rests[1..], answers[1..]);
    }
  }

  lemma OneTurn(before: seq<Byte>, after: seq<Byte>, answer: Option<seq<Byte>>)
    requires Turn(before, after, answer)
    ensures Lines(before) == HandedOut([answer]) + Lines(after)
  {
  }

  lemma LaterTurns(rests: seq<seq<Byte>>, answers: seq<Option<seq<Byte>>>)
    requires Session(rests, answers) && answers != []
    ensures Session(rests[1..], answers[1..]) && HandedOut(answers) == HandedOut([answers[0]]) + HandedOut(answers[1..])
  {
  }

  /** An empty answer is given exactly at the end of the stream: stopping there has handed out every line. */
  lemma EmptyMeansTheEnd(rests: seq<seq<Byte>>, answers: seq<Option<seq<Byte>>>)
    requires Session(rests, answers) && |answers| > 0 && answers[|answers| - 1] == Some([])
    ensures HandedOut(answers) == Lines(rests[0])
  {
    var n := |answers| - 1;
    assert Turn(rests[n], rests[n + 1], answers[n]);
    TheSplitOfTheStream(rests, answers);
    assert HandedOut(answers) + [] == HandedOut(answers);
  }
}
