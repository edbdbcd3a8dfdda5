/** The output stream: server/runmaster/outputstream.rs at the master, client/client/outputstream.rs at
    the client, and the path of a printed line from one to the other. */
module OutputStreams {
  import opened Bytes
  import opened Io
  import opened Framing
  import opened Channels
  import Bincode
  import P = Protocol

  function EncodeLine(m: P.PipeOut): bytes {
    P.NewOutputMsg(P.OutputHeader(m.fd, |m.line|), m.line)
  }

  /** For every interleaving of prints, partial writes and partial reads, what the client has returned is a
      prefix of what was printed, line by line with its tag, and all of it exactly when nothing is in
      flight. The lines are those whose length fits the header. */
  lemma PrintedLinesArrive(events: seq<Event<P.PipeOut>>)
    requires forall e :: e in events && e.Send? ==> |e.msg.line| < U32_MODULUS
    ensures var ch := Run(P.OUTPUT, EncodeLine, events);
            && ch.reader.error == None
            && ch.reader.msgs <= ch.sent
            && Encoded(EncodeLine, ch.reader.msgs) + ch.reader.rest + ch.wire + ch.out == Encoded(EncodeLine, ch.sent)
            && (ch.reader.msgs == ch.sent <==> ch.wire == [] && ch.out == [])
  {
    forall e | e in events && e.Send? ensures Faithful(P.OUTPUT, EncodeLine, e.msg) {
      P.OutputFrameBound(e.msg);
    }
    RunDelivers(P.OUTPUT, EncodeLine, events);
  }

  // The client.

  /** The lines that one read of the client returns: a read that fails returns none. */
  function LinesOfRead(buffer: bytes, chunk: bytes): seq<P.PipeOut> {
    var p := Resume(P.OUTPUT, [], buffer + chunk);
    if p.error.Some? then [] else p.msgs
  }

  /** The lines returned by the reads of `chunks`, in order. */
  function LinesOfReads(buffer: bytes, chunks: seq<bytes>): seq<P.PipeOut>
    decreases |chunks|
  {
    if chunks == [] then []
    else LinesOfRead(buffer, chunks[0]) +
         LinesOfReads(Parse(P.OUTPUT, buffer + chunks[0]).rest, chunks[1..])
  }

  /** As long as the bytes parse, the returned lines are those of the whole stream, however it is cut. */
  lemma {:induction false} ReturnedLines(buffer: bytes, chunks: seq<bytes>)
    requires Parse(P.OUTPUT, buffer).msgs == []
    requires Parse(P.OUTPUT, buffer + Flatten(chunks)).error == None
    ensures LinesOfReads(buffer, chunks) == Parse(P.OUTPUT, buffer + Flatten(chunks)).msgs
    decreases |chunks|
  {
    hide Parse, NextFrame;
    if chunks == [] {
      assert buffer + Flatten(chunks) == buffer;
    } else {
      FlattenFirst(chunks);
      hide Flatten;
      var first, later := buffer + chunks[0], Flatten(chunks[1..]);
      var p := Parse(P.OUTPUT, first);
      Associates(buffer, chunks[0], later);
      ParseAppend(P.OUTPUT, first, later);
      if p.error.Some? {
        ParseErrorStays(P.OUTPUT, first, later);
      }
      RestHoldsNoFrame(P.OUTPUT, first);
      ReturnedLines(p.rest, chunks[1..]);
    }
  }

  /** The number of reads before the first one that fails. */
  function GoodReads(buffer: bytes, chunks: seq<bytes>): (k: nat)
    ensures k <= |chunks|
    decreases |chunks|
  {
    if chunks == [] then 0 else
    var p := Parse(P.OUTPUT, buffer + chunks[0]);
    if p.error.Some? then 0 else 1 + GoodReads(p.rest, chunks[1..])
  }

  lemma RestFails(buffer: bytes)
    requires Parse(P.OUTPUT, buffer).error.Some?
    ensures Parse(P.OUTPUT, Parse(P.OUTPUT, buffer).rest).error.Some?
  {
    ParseIsMaximal(P.OUTPUT, buffer);
  }

  /** Once the buffer starts with a faulty frame, nothing more is returned. */
  lemma {:induction false} NothingAfterFailure(buffer: bytes, chunks: seq<bytes>)
    requires Parse(P.OUTPUT, buffer).error.Some?
    ensures LinesOfReads(buffer, chunks) == []
    decreases |chunks|
  {
    hide Parse, NextFrame;
    if chunks == [] {
    } else {
      var first := buffer + chunks[0];
      ParseErrorStays(P.OUTPUT, buffer, chunks[0]);
      RestFails(first);
      NothingAfterFailure(Parse(P.OUTPUT, first).rest, chunks[1..]);
    }
  }

  lemma RestIsGood(buffer: bytes)
    requires Parse(P.OUTPUT, buffer).error == None
    ensures Parse(P.OUTPUT, Parse(P.OUTPUT, buffer).rest).error == None
  {
    ParseIsMaximal(P.OUTPUT, buffer);
  }

  lemma NoFrameNoChange(buffer: bytes)
    requires Parse(P.OUTPUT, buffer).msgs == []
    ensures Parse(P.OUTPUT, buffer).rest == buffer
  {
  }

  lemma NothingMore(buffer: bytes, chunks: seq<bytes>)
    ensures buffer + Flatten(chunks[..0]) == buffer
  {
  }

  lemma NoRead(buffer: bytes)
    ensures LinesOfReads(buffer, []) == []
  {
  }

  lemma FirstRead(buffer: bytes, chunks: seq<bytes>)
    requires chunks != []
    ensures var p := Parse(P.OUTPUT, buffer + chunks[0]); var later := LinesOfReads(p.rest, chunks[1..]);
            LinesOfReads(buffer, chunks) == if p.error.Some? then later else p.msgs + later
  {
    hide Parse;
    assert [] + Parse(P.OUTPUT, buffer + chunks[0]).msgs == Parse(P.OUTPUT, buffer + chunks[0]).msgs;
    var later := LinesOfReads(Parse(P.OUTPUT, buffer + chunks[0]).rest, chunks[1..]);
    assert [] + later == later;
  }

  lemma GoodReadFirst(buffer: bytes, chunks: seq<bytes>, k: nat)
    requires 0 < k <= |chunks| && Parse(P.OUTPUT, buffer + chunks[0]).error == None
    ensures var p := Parse(P.OUTPUT, buffer + chunks[0]);
            var q := Parse(P.OUTPUT, p.rest + Flatten(chunks[1..][..k - 1]));
            && Parse(P.OUTPUT, buffer + Flatten(chunks[..k])) == Parsed(p.msgs + q.msgs, q.rest, q.error)
            && (k == 1 ==> q.error == None)
  {
    hide Parse, Flatten;
    var first, later := buffer + chunks[0], Flatten(chunks[1..][..k - 1]);
    FlattenFirstOf(chunks, k);
    Associates(buffer, chunks[0], later);
    ParseAppend(P.OUTPUT, first, later);
    RestIsGood(first);
    NothingMore(Parse(P.OUTPUT, first).rest, chunks[1..]);
  }

  /** What the reads return, in all: the lines that parse before the first read that fails. */
  lemma {:induction false} LinesBeforeFailure(buffer: bytes, chunks: seq<bytes>)
    requires Parse(P.OUTPUT, buffer).msgs == []
    ensures var k := GoodReads(buffer, chunks); var good := buffer + Flatten(chunks[..k]);
            && LinesOfReads(buffer, chunks) == Parse(P.OUTPUT, good).msgs
            && (k == 0 || Parse(P.OUTPUT, good).error == None)
            && (k < |chunks| ==> Parse(P.OUTPUT, Parse(P.OUTPUT, good).rest + chunks[k]).error.Some?)
    decreases |chunks|
  {
    hide Parse, NextFrame, Flatten, LinesOfReads;
    var k := GoodReads(buffer, chunks);
    if chunks == [] {
      NothingMore(buffer, chunks);
      NoRead(buffer);
    } else {
      FirstRead(buffer, chunks);
      var first := buffer + chunks[0];
      var p := Parse(P.OUTPUT, first);
      if p.error.Some? {
        NothingMore(buffer, chunks);
        NoFrameNoChange(buffer);
        RestFails(first);
        NothingAfterFailure(p.rest, chunks[1..]);
      } else {
        RestHoldsNoFrame(P.OUTPUT, first);
        LinesBeforeFailure(p.rest, chunks[1..]);
        GoodReadFirst(buffer, chunks, k);
      }
    }
  }

  lemma NothingQueuedIff(buffer: bytes)
    ensures Parse(P.OUTPUT, buffer).msgs == [] <==> !NextFrame(P.OUTPUT, buffer).Frame?
  {
    hide NextFrame;
  }

  /** The lines of the whole stream, at the first read that fails. */
  lemma FailureSplits(chunks: seq<bytes>, k: nat)
    requires k < |chunks|
    requires var before := Parse(P.OUTPUT, Flatten(chunks[..k]));
             Parse(P.OUTPUT, before.rest + chunks[k]).error.Some?
    ensures var before := Parse(P.OUTPUT, Flatten(chunks[..k]));
            && Parse(P.OUTPUT, Flatten(chunks)).msgs == before.msgs + Parse(P.OUTPUT, before.rest + chunks[k]).msgs
            && Parse(P.OUTPUT, Flatten(chunks)).error.Some?
  {
    hide Parse, Flatten;
    var a, b, later := Flatten(chunks[..k]), chunks[k], Flatten(chunks[k + 1..]);
    FlattenAt(chunks, k);
    ParseAppend(P.OUTPUT, a, b);
    ParseErrorStays(P.OUTPUT, a + b, later);
  }

  lemma EmptyBuffer()
    ensures Parse(P.OUTPUT, []) == Parsed([], [], None)
  {
  }

  /** Over every cut, the reads return exactly the lines that parse before the first read that fails. They are
      the lines of the whole stream if and only if no read fails, or the first one that does has no whole frame
      in front of the faulty one. */
  lemma LinesLostIff(chunks: seq<bytes>)
    ensures var k := GoodReads([], chunks);
            var before, all := Parse(P.OUTPUT, Flatten(chunks[..k])), Parse(P.OUTPUT, Flatten(chunks));
            && LinesOfReads([], chunks) == before.msgs
            && (k == |chunks| <==> all.error == None)
            && (LinesOfReads([], chunks) == all.msgs <==>
                k == |chunks| || !NextFrame(P.OUTPUT, before.rest + chunks[k]).Frame?)
  {
    hide Parse, NextFrame, LinesOfReads, GoodReads;
    var k := GoodReads([], chunks);
    EmptyBuffer();
    LinesBeforeFailure([], chunks);
    assert [] + Flatten(chunks[..k]) == Flatten(chunks[..k]);
    if k < |chunks| {
      FailureSplits(chunks, k);
      NothingQueuedIff(Parse(P.OUTPUT, Flatten(chunks[..k])).rest + chunks[k]);
    } else {
      assert chunks[..k] == chunks;
      if k == 0 {
        NothingMore([], chunks);
      }
    }
  }

  lemma OneFrame(good: bytes, line: P.PipeOut)
    requires NextFrame(P.OUTPUT, good) == Frame(|good|, line)
    ensures Parse(P.OUTPUT, good) == Parsed([line], [], None)
  {
    hide NextFrame;
    assert Parse(P.OUTPUT, good[|good|..]) == Parsed([], [], None) by { EmptyBuffer(); }
  }

  lemma NoFrame(bad: bytes)
    requires NextFrame(P.OUTPUT, bad).Bad?
    ensures Parse(P.OUTPUT, bad) == Parsed([], bad, Some(NextFrame(P.OUTPUT, bad).error))
  {
    hide NextFrame;
  }

  lemma OneRead(buffer: bytes, chunk: bytes, later: seq<bytes>)
    ensures LinesOfReads(buffer, [chunk] + later) == LinesOfRead(buffer, chunk) +
                                                    LinesOfReads(Parse(P.OUTPUT, buffer + chunk).rest, later)
  {
    assert ([chunk] + later)[1..] == later;
  }

  lemma LastRead(buffer: bytes, chunk: bytes)
    ensures LinesOfReads(buffer, [chunk]) == LinesOfRead(buffer, chunk)
  {
    hide LinesOfRead;
    assert [chunk][1..] == [];
  }

  /** So the lines returned before an error depend on the cut: one, or none. */
  lemma CutDecidesLines(good: bytes, bad: bytes, line: P.PipeOut)
    requires NextFrame(P.OUTPUT, good) == Frame(|good|, line) && NextFrame(P.OUTPUT, bad).Bad?
    ensures LinesOfReads([], [good, bad]) == [line]
    ensures LinesOfReads([], [good + bad]) == []
  {
    hide LinesOfReads, Parse, NextFrame;
    OneFrame(good, line);
    NoFrame(bad);
    ParseAppend(P.OUTPUT, good, bad);
    assert [] + good == good && [] + bad == bad && [] + (good + bad) == good + bad;
    assert [good, bad] == [good] + [bad] && [] + [line] + [] == [line];
    OneRead([], good, [bad]);
    LastRead([], bad);
    LastRead([], good + bad);
  }

  /** A printed line followed by a frame of type 3. */
  lemma LostLineExample(line: P.PipeOut, bad: bytes)
    requires |line.line| < U32_MODULUS && bad == [3, 0, 0, 0, 0]
    ensures LinesOfReads([], [EncodeLine(line), bad]) == [line]
    ensures LinesOfReads([], [EncodeLine(line) + bad]) == []
  {
    assert NextFrame(P.OUTPUT, bad).Bad?;
    hide LinesOfReads, NextFrame;
    P.OutputFrameBound(line);
    CutDecidesLines(EncodeLine(line), bad, line);
  }

  class ClientOutputStream {
    var buffer: bytes

    constructor ()
      ensures buffer == []
    {
      buffer := [];
    }

    method Read(r: ReadOutcome) returns (lines: seq<P.PipeOut>, status: Status<P.Error>)
      modifies this
      ensures r.ReadFailed? ==> status == IoError && lines == [] && buffer == old(buffer)
      ensures r == ReadBytes([]) ==> status == Closed && lines == [] && buffer == old(buffer)
      ensures r.ReadBytes? && r.chunk != [] ==>
                && lines == LinesOfRead(old(buffer), r.chunk)
                && var p := Parse(P.OUTPUT, old(buffer) + r.chunk);
                   && buffer == p.rest
                   && status == (if p.error.Some? then Status.Protocol(p.error.value) else Done)
    {
      lines := [];
      if r.ReadFailed? {
        return lines, IoError;
      }
      if r.chunk == [] {
        return lines, Closed;
      }
      buffer := buffer + r.chunk;
      assert forall c: Codec<P.PipeOut, P.Error> :: Resume(c, [], buffer).msgs == Parse(c, buffer).msgs;
      hide Parse, Resume;
      ghost var whole := Resume(P.OUTPUT, [], buffer);

      while |buffer| >= P.OUTPUT_HEADER_SIZE
        invariant Resume(P.OUTPUT, lines, buffer) == whole
        decreases |buffer|
      {
        LoopTurn(P.OUTPUT, lines, buffer);
        var raw := CopyHeader(buffer, P.OUTPUT_HEADER_SIZE);
        var header := P.OutputHeader.FromRaw(raw);
        if header.Err? {
          return [], Status.Protocol(header.error);
        }
        var bodyEnd := P.OUTPUT_HEADER_SIZE + header.value.msgLen;
        if |buffer| < bodyEnd {
          return lines, Done;
        }
        lines := lines + [P.PipeOut(buffer[P.OUTPUT_HEADER_SIZE..bodyEnd], header.value.msgType)];
        buffer := DropFront(buffer, bodyEnd);
      }
      LoopTurn(P.OUTPUT, lines, buffer);
      status := Done;
    }
  }

  // The master: the hello of an output stream.

  datatype HelloStep = Keep | Reject(error: P.Error) | Open(token: Bincode.Utf8)

  /** A hello is looked at only when the buffer holds exactly one frame. */
  function HelloOf(buffer: bytes): HelloStep {
    if |buffer| < P.REQUEST_HEADER_SIZE then Keep else
    match P.RequestHeader.FromBuf(buffer[..P.REQUEST_HEADER_SIZE])
    case Err(e) => Reject(e)
    case Ok(h) =>
      if h.MsgLen() + P.REQUEST_HEADER_SIZE != |buffer| then Keep else
      match Bincode.TakeClientHello(buffer[P.REQUEST_HEADER_SIZE..])
      case None => Reject(P.Deserialize)
      case Some(hello) => Open(hello.streamToken)
  }

  /** What the master makes of a buffer, in its bytes alone; the type may be any of the three. */
  lemma HelloFormat(b: bytes)
    ensures HelloOf(b) ==
            if |b| < 8 then Keep
            else if b[1] != 0 then Reject(P.WrongVersion(b[1]))
            else if b[2] == 0 || b[2] > 3 then Reject(P.UnrecognisedMessageType(b[2]))
            else if |b| != 8 + P.LengthAt(b, 4) then Keep
            else
              match Bincode.TakeClientHello(b[8..])
              case Some(hello) => Open(hello.streamToken)
              case None => Reject(P.Deserialize)
  {
    hide FromBE32, Bincode.TakeClientHello;
    if |b| >= 8 {
      P.LengthIs(b, 8, 4);
    }
  }

  /** The buffer of a stream, and the tokens that the master has taken from it. */
  datatype HelloState = HelloState(buffer: bytes, tokens: seq<Bincode.Utf8>)

  function HelloReads(chunks: seq<bytes>): HelloState {
    if chunks == [] then HelloState([], []) else
    var s := HelloReads(chunks[..|chunks| - 1]);
    var buffer := s.buffer + chunks[|chunks| - 1];
    match HelloOf(buffer)
    case Open(token) => HelloState([], s.tokens + [token])
    case _ => HelloState(buffer, s.tokens)
  }

  /** The hello that a connecting client writes (client/client/mod.rs). */
  function HelloFrame(token: Bincode.Utf8): bytes {
    P.NewReq(P.MessageType.Hello, 0, Bincode.PutClientHello(Bincode.ClientHello(token)))
  }

  lemma HelloFrameLayout(token: Bincode.Utf8)
    ensures HelloFrame(token)[..4] == [0, 0, 1, 0] && HelloFrame(token)[8..] == Bincode.Put(token)
  {
  }

  lemma HelloBody(buf: P.RequestBuf, header: P.RequestHeader, hello: Bincode.ClientHello, payload: bytes)
    requires P.RequestHeader.FromBuf(buf) == Ok(header) && header.MsgLen() == |payload|
    requires Bincode.TakeClientHello(payload) == Some(hello)
    ensures HelloOf(buf + payload) == Open(hello.streamToken)
  {
    assert (buf + payload)[..8] == buf && (buf + payload)[8..] == payload;
  }

  lemma HelloFrameOpens(token: Bincode.Utf8)
    requires |HelloFrame(token)| < U32_MODULUS
    ensures HelloOf(HelloFrame(token)) == Open(token)
  {
    hide ToBE32, FromBE32, Bincode.PutClientHello, Bincode.TakeClientHello, HelloOf;
    var hello := Bincode.ClientHello(token);
    var payload := Bincode.PutClientHello(hello);
    var header := P.RequestHeader.New(P.MessageType.Hello, 0, |payload|);
    P.RequestHeaderRoundTrip(P.MessageType.Hello, 0, |payload|, header.IntoBuf());
    Bincode.ClientHelloAlone(hello);
    HelloBody(header.IntoBuf(), header, hello, payload);
  }

  /** Some read ended exactly where `frame` ends. */
  ghost predicate CutAtEnd(chunks: seq<bytes>, frame: bytes) {
    exists k :: 0 <= k <= |chunks| && Flatten(chunks[..k]) == frame
  }

  /** A buffer that starts or extends a hello but is not exactly it is kept as it is. */
  lemma HelloNeedsExactBuffer(buffer: bytes, frame: bytes)
    requires HelloOf(frame).Open?
    requires buffer <= frame || frame <= buffer
    requires buffer != frame
    ensures HelloOf(buffer) == Keep
  {
    if |buffer| >= P.REQUEST_HEADER_SIZE {
      assert buffer[..8] == frame[..8];
    }
  }

  lemma NotCutYet(most: seq<bytes>, last: bytes, frame: bytes)
    requires !CutAtEnd(most, frame)
    requires Flatten(most + [last]) != frame
    ensures !CutAtEnd(most + [last], frame)
  {
    var chunks := most + [last];
    forall k | 0 <= k <= |chunks| ensures Flatten(chunks[..k]) != frame {
      if k <= |most| {
        assert chunks[..k] == most[..k];
      } else {
        assert chunks[..k] == chunks;
      }
    }
  }

  /** A stream that begins with a hello opens its session exactly when some read ends at the end of the
      hello; when bytes that follow it arrive in the same read, no later read consumes anything. */
  lemma {:induction false} HelloOpensIff(chunks: seq<bytes>, frame: bytes)
    requires HelloOf(frame).Open?
    requires Flatten(chunks) <= frame || frame <= Flatten(chunks)
    ensures HelloReads(chunks).tokens != [] <==> CutAtEnd(chunks, frame)
    ensures CutAtEnd(chunks, frame) ==> HelloReads(chunks).tokens[0] == HelloOf(frame).token
    ensures !CutAtEnd(chunks, frame) ==> HelloReads(chunks).buffer == Flatten(chunks)
  {
    if chunks == [] {
      assert Flatten(chunks[..0]) == [] && HelloOf([]) == Keep;
    } else {
      var most, last := chunks[..|chunks| - 1], chunks[|chunks| - 1];
      assert chunks == most + [last];
      FlattenOne(most, last);
      HelloOpensIff(most, frame);
      if CutAtEnd(most, frame) {
        var k :| 0 <= k <= |most| && Flatten(most[..k]) == frame;
        assert chunks[..k] == most[..k];
      } else {
        assert chunks[..|chunks|] == chunks;
        if Flatten(chunks) == frame {
          assert Flatten(chunks[..|chunks|]) == frame;
        } else {
          NotCutYet(most, last, frame);
          HelloNeedsExactBuffer(Flatten(chunks), frame);
        }
      }
    }
  }

  predicate Overfull(buffer: bytes) {
    |buffer| >= P.REQUEST_HEADER_SIZE &&
    match P.RequestHeader.FromBuf(buffer[..P.REQUEST_HEADER_SIZE])
    case Err(_) => false
    case Ok(header) => |buffer| > P.REQUEST_HEADER_SIZE + header.MsgLen()
  }

  lemma OverfullIsKept(buffer: bytes, more: bytes)
    requires Overfull(buffer)
    ensures Overfull(buffer + more) && HelloOf(buffer) == Keep
  {
    assert (buffer + more)[..8] == buffer[..8];
  }

  /** Once the buffer holds more than its first frame, whatever it is, no later read consumes anything. */
  lemma {:induction false} OverfullStays(chunks: seq<bytes>, later: seq<bytes>)
    requires Overfull(HelloReads(chunks).buffer)
    ensures var s := HelloReads(chunks);
            HelloReads(chunks + later) == HelloState(s.buffer + Flatten(later), s.tokens)
    decreases |later|
  {
    hide Overfull, HelloOf;
    if later == [] {
      assert chunks + later == chunks;
    } else {
      var b, most, last := HelloReads(chunks).buffer, later[..|later| - 1], later[|later| - 1];
      OverfullStays(chunks, most);
      assert (chunks + later)[..|chunks + later| - 1] == chunks + most;
      FlattenLast(later);
      Associates(b, Flatten(most), last);
      OverfullIsKept(b, Flatten(later));
      OverfullIsKept(b + Flatten(later), []);
    }
  }

  lemma FlattenShorter(chunks: seq<bytes>, k: nat)
    requires k <= |chunks|
    ensures |Flatten(chunks[..k])| <= |Flatten(chunks)|
  {
    assert chunks == chunks[..k] + chunks[k..];
    FlattenAppend(chunks[..k], chunks[k..]);
  }

  /** A stream of exactly one hello: nothing is opened before its last byte, and with it the session. */
  lemma HelloOpensOnLastByte(chunks: seq<bytes>, frame: bytes)
    requires HelloOf(frame).Open?
    requires chunks != [] && chunks[|chunks| - 1] != []
    requires Flatten(chunks) == frame
    ensures HelloReads(chunks[..|chunks| - 1]).tokens == []
    ensures HelloReads(chunks) == HelloState([], [HelloOf(frame).token])
  {
    var most := chunks[..|chunks| - 1];
    FlattenLast(chunks);
    hide HelloOf, Flatten;
    forall k | 0 <= k <= |most| ensures Flatten(most[..k]) != frame {
      FlattenShorter(most, k);
    }
    HelloOpensIff(most, frame);
  }

  class OutputStream {
    var inbuffer: bytes
    var outbuffer: bytes
    var sessionId: Option<Bincode.Utf8>
    var interest: Interest

    constructor (interest: Interest)
      ensures inbuffer == [] && outbuffer == [] && sessionId == None && this.interest == interest
    {
      inbuffer, outbuffer, sessionId, this.interest := [], [], None, interest;
    }

    method SetInterest(interest: Interest)
      modifies `interest
      ensures this.interest == interest
    {
      this.interest := interest;
    }

    function HasOutData(): bool
      reads this
    {
      outbuffer != []
    }

    /** An empty read is not an error here: the loop runs on the buffer as it is. */
    method Read(r: ReadOutcome) returns (status: Status<P.Error>)
      modifies `inbuffer, `sessionId
      ensures r.ReadFailed? ==> status == IoError && inbuffer == old(inbuffer) && sessionId == old(sessionId)
      ensures r.ReadBytes? ==>
                var buffer := old(inbuffer) + r.chunk;
                match HelloOf(buffer)
                case Keep => status == Done && inbuffer == buffer && sessionId == old(sessionId)
                case Reject(e) => status == Status.Protocol(e) && inbuffer == buffer && sessionId == old(sessionId)
                case Open(token) => status == Done && inbuffer == [] && sessionId == Some(token)
    {
      if r.ReadFailed? {
        return IoError;
      }
      inbuffer := inbuffer + r.chunk;
      while |inbuffer| >= P.REQUEST_HEADER_SIZE
        invariant if inbuffer == old(inbuffer) + r.chunk then sessionId == old(sessionId)
                  else inbuffer == [] && HelloOf(old(inbuffer) + r.chunk).Open?
                       && sessionId == Some(HelloOf(old(inbuffer) + r.chunk).token)
        decreases |inbuffer|
      {
        var raw := CopyHeader(inbuffer, P.REQUEST_HEADER_SIZE);
        var header := P.RequestHeader.FromBuf(raw);
        if header.Err? {
          return Status.Protocol(header.error);
        }
        if header.value.MsgLen() + P.REQUEST_HEADER_SIZE < |inbuffer| {
          break;
        }
        var msgEnd := header.value.MsgLen() + P.REQUEST_HEADER_SIZE;
        if |inbuffer| < msgEnd {
          break;
        }
        assert inbuffer[P.REQUEST_HEADER_SIZE..msgEnd] == inbuffer[P.REQUEST_HEADER_SIZE..];
        var hello := Bincode.TakeClientHello(inbuffer[P.REQUEST_HEADER_SIZE..msgEnd]);
        if hello.None? {
          return Status.Protocol(P.Deserialize);
        }
        sessionId := Some(hello.value.streamToken);
        inbuffer := DropFront(inbuffer, msgEnd);
      }
      status := Done;
    }

    method TakeSessionId() returns (id: Option<Bincode.Utf8>)
      modifies `sessionId
      ensures id == old(sessionId) && sessionId == None
    {
      id, sessionId := sessionId, None;
    }

    method Write(w: WriteOutcome) returns (status: Status<P.Error>)
      requires w.Wrote? ==> w.count <= |outbuffer|
      modifies `outbuffer
      ensures status == if w.Wrote? then Done else IoError
      ensures outbuffer == if w.Wrote? then old(outbuffer)[w.count..] else old(outbuffer)
    {
      if w.WriteFailed? {
        return IoError;
      }
      outbuffer := DropFront(outbuffer, w.count);
      status := Done;
    }

    method SendStdout(line: bytes)
      modifies `outbuffer
      ensures outbuffer == old(outbuffer) + EncodeLine(P.PipeOut(line, P.Stdout))
    {
      outbuffer := outbuffer + P.NewOutputMsg(P.OutputHeader(P.Stdout, |line|), line);
    }

    method SendStderr(line: bytes)
      modifies `outbuffer
      ensures outbuffer == old(outbuffer) + EncodeLine(P.PipeOut(line, P.Stderr))
    {
      outbuffer := outbuffer + P.NewOutputMsg(P.OutputHeader(P.Stderr, |line|), line);
    }
  }
}
