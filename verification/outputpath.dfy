/** The whole path of a printed line: from the two pipes of a worker, cut and routed by the master, over the
    output stream of a session, to the client. The master reads the pipes, it writes the stream and the client
    reads it, in any order and any amount at a time; the pipes carry any number of sessions. */
module OutputPath {
  import opened Bytes
  import opened OutputStreams
  import opened PipeFrames
  import opened PipeRouting
  import C = Channels
  import F = Framing
  import P = Protocol

  datatype Move =
    | PipeRead(fd: P.OutputType, chunk: bytes)
    | StreamWrite(count: nat)
    | ClientRead(count: nat)

  /** What the master has read from one of the pipes. */
  function Chunks(moves: seq<Move>, fd: P.OutputType): seq<bytes> {
    if moves == [] then [] else
    var last := moves[|moves| - 1];
    Chunks(moves[..|moves| - 1], fd) + if last.PipeRead? && last.fd == fd then [last.chunk] else []
  }

  /** What one more read of a pipe delivers to a session. */
  function NewLines(p: Pipe, chunk: bytes, id: bytes): seq<bytes> {
    var after := Readable(p, chunk).deliveries;
    if |after| > |p.deliveries| && after[|after| - 1].sessionId == id then after[|after| - 1].lines else []
  }

  function Sends(lines: seq<bytes>, fd: P.OutputType): seq<C.Event<P.PipeOut>> {
    seq(|lines|, i requires 0 <= i < |lines| => C.Send(P.PipeOut(lines[i], fd)))
  }

  /** What a move does to the output stream of session `id`, after some moves: the event loop sends all the
      lines of a delivery before it does anything else. */
  function MoveEvents(most: seq<Move>, move: Move, id: bytes): seq<C.Event<P.PipeOut>> {
    match move
    case PipeRead(fd, chunk) => Sends(NewLines(RunPipe(Chunks(most, fd)), chunk, id), fd)
    case StreamWrite(n) => [C.Write(n)]
    case ClientRead(n) => [C.Read(n)]
  }

  function StreamEvents(moves: seq<Move>, id: bytes): seq<C.Event<P.PipeOut>> {
    if moves == [] then [] else
    StreamEvents(moves[..|moves| - 1], id) + MoveEvents(moves[..|moves| - 1], moves[|moves| - 1], id)
  }

  function Stream(moves: seq<Move>, id: bytes): C.Channel<P.PipeOut, P.Error> {
    C.Run(P.OUTPUT, EncodeLine, StreamEvents(moves, id))
  }

  // What is sent.

  function SentIn(events: seq<C.Event<P.PipeOut>>): seq<P.PipeOut> {
    if events == [] then [] else
    SentIn(events[..|events| - 1]) + if events[|events| - 1].Send? then [events[|events| - 1].msg] else []
  }

  lemma {:induction false} SentIsSent(events: seq<C.Event<P.PipeOut>>)
    ensures C.Run(P.OUTPUT, EncodeLine, events).sent == SentIn(events)
    ensures forall e :: e in events && e.Send? ==> e.msg in SentIn(events)
  {
    if events == [] {
    } else {
      SentIsSent(events[..|events| - 1]);
      assert events == events[..|events| - 1] + [events[|events| - 1]];
    }
  }

  lemma {:induction false} SentAppend(a: seq<C.Event<P.PipeOut>>, b: seq<C.Event<P.PipeOut>>)
    ensures SentIn(a + b) == SentIn(a) + SentIn(b)
  {
    if b == [] {
      assert a + b == a;
    } else {
      SentAppend(a, b[..|b| - 1]);
      assert (a + b)[..|a + b| - 1] == a + b[..|b| - 1];
    }
  }

  lemma {:induction false} SendsSend(lines: seq<bytes>, fd: P.OutputType)
    ensures SentIn(Sends(lines, fd)) == Tagged(lines, fd)
  {
    if lines == [] {
    } else {
      SendsSend(lines[..|lines| - 1], fd);
      assert Sends(lines, fd)[..|lines| - 1] == Sends(lines[..|lines| - 1], fd);
    }
  }

  lemma NothingSent(e: C.Event<P.PipeOut>)
    requires !e.Send?
    ensures SentIn([e]) == []
  {
    assert [e][..0] == [];
  }

  // Which of it is kept.

  function NoneMarked(count: nat): (marks: seq<bool>)
    ensures |marks| == count && forall i :: 0 <= i < count ==> !marks[i]
  {
    seq(count, _ => false)
  }

  function Front(count: nat, first: bool): (marks: seq<bool>)
    ensures |marks| == count
  {
    if count == 0 then [] else [first] + NoneMarked(count - 1)
  }

  /** For each line sent, whether it is the empty one in front of a delivery whose read began in a session. */
  function MoveMarks(most: seq<Move>, move: Move, id: bytes): seq<bool> {
    if !move.PipeRead? then [] else
    var p := RunPipe(Chunks(most, move.fd));
    Front(|NewLines(p, move.chunk, id)|, p.session.Some?)
  }

  function Marks(moves: seq<Move>, id: bytes): seq<bool> {
    if moves == [] then [] else
    Marks(moves[..|moves| - 1], id) + MoveMarks(moves[..|moves| - 1], moves[|moves| - 1], id)
  }

  /** The lines of one tag, without those that are marked. */
  function Kept(msgs: seq<P.PipeOut>, marks: seq<bool>, fd: P.OutputType): seq<bytes>
    requires |msgs| <= |marks|
  {
    if msgs == [] then [] else
    var k := |msgs| - 1;
    Kept(msgs[..k], marks[..k], fd) + if msgs[k].fd == fd && !marks[k] then [msgs[k].line] else []
  }

  lemma {:induction false} KeptAppend(a: seq<P.PipeOut>, ma: seq<bool>, b: seq<P.PipeOut>, mb: seq<bool>,
                                      fd: P.OutputType)
    requires |a| == |ma| && |b| == |mb|
    ensures Kept(a + b, ma + mb, fd) == Kept(a, ma, fd) + Kept(b, mb, fd)
    decreases |b|
  {
    if b == [] {
      assert a + b == a && ma + mb == ma;
    } else {
      KeptAppend(a, ma, b[..|b| - 1], mb[..|b| - 1], fd);
      assert (a + b)[..|a + b| - 1] == a + b[..|b| - 1] && (ma + mb)[..|a + b| - 1] == ma + mb[..|b| - 1];
    }
  }

  lemma KeptPrefix(a: seq<P.PipeOut>, b: seq<P.PipeOut>, marks: seq<bool>, fd: P.OutputType)
    requires a <= b && |b| == |marks|
    ensures Kept(a, marks[..|a|], fd) <= Kept(b, marks, fd)
  {
    assert b == a + b[|a|..] && marks == marks[..|a|] + marks[|a|..];
    KeptAppend(a, marks[..|a|], b[|a|..], marks[|a|..], fd);
  }

  lemma {:induction false} KeptUnmarked(lines: seq<bytes>, marks: seq<bool>, tag: P.OutputType, fd: P.OutputType)
    requires |lines| == |marks| && forall i :: 0 <= i < |marks| ==> !marks[i]
    ensures Kept(Tagged(lines, tag), marks, fd) == if tag == fd then lines else []
  {
    if lines == [] {
    } else {
      var k := |lines| - 1;
      KeptUnmarked(lines[..k], marks[..k], tag, fd);
      assert Tagged(lines, tag)[..k] == Tagged(lines[..k], tag);
    }
  }

  lemma KeptOne(msg: P.PipeOut, mark: bool, fd: P.OutputType)
    ensures Kept([msg], [mark], fd) == if msg.fd == fd && !mark then [msg.line] else []
  {
    assert [msg][..0] == [] && [mark][..0] == [];
  }

  lemma TaggedFirst(lines: seq<bytes>, tag: P.OutputType)
    requires lines != []
    ensures Tagged(lines, tag) == [P.PipeOut(lines[0], tag)] + Tagged(lines[1..], tag)
    ensures |Tagged(lines[1..], tag)| == |lines| - 1
  {
  }

  /** Of a delivery, its own tag keeps all but a marked first line, and the other tag nothing. */
  lemma KeptFront(lines: seq<bytes>, first: bool, tag: P.OutputType, fd: P.OutputType)
    ensures Kept(Tagged(lines, tag), Front(|lines|, first), fd) ==
            if tag != fd then [] else if first && lines != [] then lines[1..] else lines
  {
    if lines == [] {
    } else {
      hide Kept, NoneMarked, Tagged;
      var later, marks := lines[1..], NoneMarked(|lines| - 1);
      TaggedFirst(lines, tag);
      KeptAppend([P.PipeOut(lines[0], tag)], [first], Tagged(later, tag), marks, fd);
      KeptOne(P.PipeOut(lines[0], tag), first, fd);
      KeptUnmarked(later, marks, tag, fd);
    }
  }

  // What is sent and kept is what the session was given.

  lemma ReceivedOne(chunks: seq<bytes>, chunk: bytes, id: bytes)
    ensures var p := RunPipe(chunks); var lines := NewLines(p, chunk, id);
            Received(chunks + [chunk], id) ==
            Received(chunks, id) + if p.session.Some? && lines != [] then lines[1..] else lines
  {
    hide Readable;
    assert (chunks + [chunk])[..|chunks|] == chunks;
    RunOneMore(chunks + [chunk]);
  }

  lemma NothingKept(fd: P.OutputType)
    ensures Kept([], [], fd) == []
  {
  }

  /** One more move, seen from one of the pipes. */
  lemma OneMoreMove(most: seq<Move>, move: Move, id: bytes, fd: P.OutputType)
    ensures var msgs, marks := SentIn(MoveEvents(most, move, id)), MoveMarks(most, move, id);
            && |msgs| == |marks|
            && Received(Chunks(most + [move], fd), id) == Received(Chunks(most, fd), id) + Kept(msgs, marks, fd)
  {
    hide Readable, NewLines, SentIn, Received, Kept, Sends, Front, RunPipe;
    assert (most + [move])[..|most|] == most;
    match move
    case PipeRead(tag, chunk) =>
      var p := RunPipe(Chunks(most, tag));
      SendsSend(NewLines(p, chunk, id), tag);
      KeptFront(NewLines(p, chunk, id), p.session.Some?, tag, fd);
      if tag == fd {
        ReceivedOne(Chunks(most, fd), chunk, id);
      } else {
        assert Chunks(most + [move], fd) == Chunks(most, fd);
        assert Received(Chunks(most, fd), id) + [] == Received(Chunks(most, fd), id);
      }
    case StreamWrite(n) =>
      NothingSent(C.Write(n));
      assert Chunks(most + [move], fd) == Chunks(most, fd) && Kept([], [], fd) == [] by { NothingKept(fd); }
      assert Received(Chunks(most, fd), id) + [] == Received(Chunks(most, fd), id);
    case ClientRead(n) =>
      NothingSent(C.Read(n));
      assert Chunks(most + [move], fd) == Chunks(most, fd) && Kept([], [], fd) == [] by { NothingKept(fd); }
      assert Received(Chunks(most, fd), id) + [] == Received(Chunks(most, fd), id);
  }

  /** Of everything sent on the stream of a session, each tag keeps what the session was given from that pipe. */
  lemma {:induction false} DeliveredIsSent(moves: seq<Move>, id: bytes, fd: P.OutputType)
    ensures |SentIn(StreamEvents(moves, id))| == |Marks(moves, id)|
    ensures Kept(SentIn(StreamEvents(moves, id)), Marks(moves, id), fd) == Received(Chunks(moves, fd), id)
  {
    if moves == [] {
    } else {
      hide SentIn, Received, Kept, MoveEvents, MoveMarks, Chunks;
      var most, last := moves[..|moves| - 1], moves[|moves| - 1];
      assert moves == most + [last];
      DeliveredIsSent(most, id, fd);
      OneMoreMove(most, last, id, fd);
      SentAppend(StreamEvents(most, id), MoveEvents(most, last, id));
      KeptAppend(SentIn(StreamEvents(most, id)), Marks(most, id), SentIn(MoveEvents(most, last, id)),
                 MoveMarks(most, last, id), fd);
    }
  }

  // Nothing is sent but lines of the pipes.

  lemma {:induction false} SavedAreLines(session: Option<bytes>, lines: seq<bytes>)
    ensures forall l :: l in RouteLines(session, lines).saved ==> l in lines
  {
    hide Kind;
    if lines == [] {
    } else {
      SavedAreLines(session, lines[..|lines| - 1]);
      assert lines == lines[..|lines| - 1] + [lines[|lines| - 1]];
    }
  }

  /** Every line of the output fits the header of a frame. */
  ghost predicate Fits(chunks: seq<bytes>) {
    forall l :: l in Lines(Flatten(chunks)) ==> |l| < U32_MODULUS
  }

  lemma {:induction false} SinceOpenFits(chunks: seq<bytes>)
    requires Fits(chunks)
    ensures forall l :: l in SinceOpen(chunks) ==> |l| < U32_MODULUS
  {
    hide Lines, Flatten, SessionAfter, Completed;
    if chunks == [] {
    } else {
      OneMoreRead(chunks);
      SinceOpenFits(chunks[..|chunks| - 1]);
    }
  }

  lemma NewLinesFit(chunks: seq<bytes>, chunk: bytes, id: bytes)
    requires Fits(chunks + [chunk])
    ensures forall l :: l in NewLines(RunPipe(chunks), chunk, id) ==> |l| < U32_MODULUS
  {
    hide Fits, Readable, RunPipe, RouteLines, SinceOpen, SessionAfter;
    var more := chunks + [chunk];
    assert more[..|more| - 1] == chunks;
    PipeState(more);
    RunOneMore(more);
    SinceOpenFits(more);
    SavedAreLines(SessionAfter(chunks), SinceOpen(more));
  }

  lemma FitsBefore(chunks: seq<bytes>, chunk: bytes)
    requires Fits(chunks + [chunk])
    ensures Fits(chunks)
  {
    hide Lines, Flatten, Completed, SessionAfter;
    assert (chunks + [chunk])[..|chunks|] == chunks;
    OneMoreRead(chunks + [chunk]);
  }

  lemma {:induction false} SendsFit(moves: seq<Move>, id: bytes)
    requires forall fd :: Fits(Chunks(moves, fd))
    ensures forall e :: e in StreamEvents(moves, id) && e.Send? ==> |e.msg.line| < U32_MODULUS
  {
    hide NewLines, Fits, RunPipe;
    if moves == [] {
    } else {
      var most, last := moves[..|moves| - 1], moves[|moves| - 1];
      forall fd ensures Fits(Chunks(most, fd)) {
        assert Fits(Chunks(moves, fd));
        if Chunks(moves, fd) != Chunks(most, fd) {
          FitsBefore(Chunks(most, fd), last.chunk);
        }
      }
      SendsFit(most, id);
      if last.PipeRead? {
        assert Fits(Chunks(moves, last.fd));
        NewLinesFit(Chunks(most, last.fd), last.chunk, id);
      }
    }
  }

  // What the client gets.

  /** The lines of one tag that the client has got so far, without the empty ones in front. */
  function ClientLines(moves: seq<Move>, id: bytes, fd: P.OutputType): seq<bytes> {
    var got, marks := Stream(moves, id).reader.msgs, Marks(moves, id);
    if |got| <= |marks| then Kept(got, marks[..|got|], fd) else []
  }

  lemma ReadsReturnAll(events: seq<C.Event<P.PipeOut>>, cuts: seq<bytes>)
    requires forall e :: e in events && e.Send? ==> |e.msg.line| < U32_MODULUS
    requires Flatten(cuts) == C.Run(P.OUTPUT, EncodeLine, events).got
    ensures LinesOfReads([], cuts) == C.Run(P.OUTPUT, EncodeLine, events).reader.msgs
  {
    hide C.Run, Flatten, LinesOfReads;
    PrintedLinesArrive(events);
    forall e | e in events && e.Send? ensures C.Faithful(P.OUTPUT, EncodeLine, e.msg) {
      P.OutputFrameBound(e.msg);
    }
    C.RunKeepsInv(P.OUTPUT, EncodeLine, events);
    EmptyBuffer();
    assert [] + Flatten(cuts) == Flatten(cuts);
    ReturnedLines([], cuts);
  }

  /** Over any order of pipe reads, partial writes and client reads: of each tag, the client of a session has got,
      without error, a prefix of what the session was given from that pipe, and all of it when nothing is left in
      the stream. However its reads were cut, they returned what it has got. */
  lemma ClientGetsReceived(moves: seq<Move>, id: bytes, fd: P.OutputType)
    requires forall tag :: Fits(Chunks(moves, tag))
    ensures var ch := Stream(moves, id);
            && ch.reader.error == None
            && ClientLines(moves, id, fd) <= Received(Chunks(moves, fd), id)
            && (ch.wire == [] && ch.out == [] ==> ClientLines(moves, id, fd) == Received(Chunks(moves, fd), id))
            && (forall cuts :: Flatten(cuts) == ch.got ==> LinesOfReads([], cuts) == ch.reader.msgs)
  {
    hide Fits, Chunks, StreamEvents, C.Run, Flatten, LinesOfReads, SentIn, Received, Kept, Marks;
    var ch, events := Stream(moves, id), StreamEvents(moves, id);
    SendsFit(moves, id);
    PrintedLinesArrive(events);
    SentIsSent(events);
    DeliveredIsSent(moves, id, fd);
    KeptPrefix(ch.reader.msgs, SentIn(events), Marks(moves, id), fd);
    assert Marks(moves, id)[..|Marks(moves, id)|] == Marks(moves, id);
    forall cuts | Flatten(cuts) == ch.got ensures LinesOfReads([], cuts) == ch.reader.msgs {
      ReadsReturnAll(events, cuts);
    }
  }

  lemma RightForIs(chunks: seq<bytes>, id: bytes)
    requires RightFor(chunks, id)
    ensures Received(chunks, id) == Own(chunks, id)
  {
  }

  lemma WriteAndReadEvents(moves: seq<Move>, id: bytes, n: nat, m: nat)
    ensures var more := moves + [StreamWrite(n), ClientRead(m)];
            && StreamEvents(more, id) == StreamEvents(moves, id) + [C.Write(n), C.Read(m)]
            && Chunks(more, P.Stdout) == Chunks(moves, P.Stdout) && Chunks(more, P.Stderr) == Chunks(moves, P.Stderr)
  {
    var w := moves + [StreamWrite(n)];
    var more := moves + [StreamWrite(n), ClientRead(m)];
    assert more[..|more| - 1] == w && w[..|w| - 1] == moves;
    assert StreamEvents(w, id) == StreamEvents(moves, id) + [C.Write(n)];
    assert StreamEvents(more, id) == StreamEvents(w, id) + [C.Read(m)];
  }

  /** And from every state, one write and one read, if they are let through whole, bring the client all that the
      session was given. */
  lemma ClientCanGetAll(moves: seq<Move>, id: bytes, fd: P.OutputType)
    requires forall tag :: Fits(Chunks(moves, tag))
    ensures var ch := Stream(moves, id);
            ClientLines(moves + [StreamWrite(|ch.out|), ClientRead(|ch.wire| + |ch.out|)], id, fd)
            == Received(Chunks(moves, fd), id)
  {
    hide Fits, Chunks, StreamEvents, C.Run, C.Next, Received, ClientLines;
    var ch := Stream(moves, id);
    var more := moves + [StreamWrite(|ch.out|), ClientRead(|ch.wire| + |ch.out|)];
    WriteAndReadEvents(moves, id, |ch.out|, |ch.wire| + |ch.out|);
    forall tag ensures Chunks(more, tag) == Chunks(moves, tag) {
      match tag case Stdout => case Stderr =>
    }
    SendsFit(moves, id);
    forall e | e in StreamEvents(moves, id) && e.Send? ensures C.Faithful(P.OUTPUT, EncodeLine, e.msg) {
      P.OutputFrameBound(e.msg);
    }
    C.RunCanDeliver(P.OUTPUT, EncodeLine, StreamEvents(moves, id));
    SendsFit(more, id);
    PrintedLinesArrive(StreamEvents(more, id));
    ClientGetsReceived(more, id, fd);
  }

  /** From output that is clean at every open point, no session is ever given anything but its own lines, in
      order. */
  lemma ReceivedIsOwn(chunks: seq<bytes>, id: bytes)
    requires CleanThroughout(chunks)
    ensures Received(chunks, id) <= Own(chunks, id)
    ensures Clean(chunks) ==> Received(chunks, id) == Own(chunks, id)
  {
    hide Clean, SessionAfter, Received, Own, RightFor, LastOpen, SinceOpen, RouteLines, LinesIn;
    var j := LastOpen(chunks);
    if j == 0 {
      assert chunks[..0] == [];
      NothingYet();
    } else {
      CleanIsRight(chunks, j);
    }
    RightIffClean(chunks);
    SinceOpenGoesOn(chunks, id);
    ReceivedGoesOn(chunks, id);
    assert chunks[..|chunks|] == chunks;
    assert RightFor(chunks[..j], id);
    RightForIs(chunks[..j], id);
    if Clean(chunks) {
      assert RightFor(chunks, id);
      RightForIs(chunks, id);
    }
  }

  /** If the output of a pipe is clean at every open point, then over any order of moves, and whatever the other
      pipe carries, the client of every session has got a prefix of the session's own lines on that pipe; and
      all of them when the stream is drained and the pipe is clean, as it is whenever a session is open. */
  lemma SessionsReachClients(moves: seq<Move>, id: bytes, fd: P.OutputType)
    requires forall tag :: Fits(Chunks(moves, tag))
    requires CleanThroughout(Chunks(moves, fd))
    ensures var chunks, ch := Chunks(moves, fd), Stream(moves, id);
            && ClientLines(moves, id, fd) <= Own(chunks, id)
            && (ch.wire == [] && ch.out == [] && Clean(chunks) ==> ClientLines(moves, id, fd) == Own(chunks, id))
  {
    hide Fits, CleanThroughout, Chunks, Stream, ClientLines, Received, Own, Clean;
    ClientGetsReceived(moves, id, fd);
    ReceivedIsOwn(Chunks(moves, fd), id);
  }

  /** A pipe with one start marker and neither marker after it is such a pipe: the client has got a prefix of the
      complete lines after the marker, and all of them when the stream is drained. */
  lemma SessionReachesClient(moves: seq<Move>, fd: P.OutputType, pre: seq<bytes>, marker: bytes, post: seq<bytes>)
    requires forall tag :: Fits(Chunks(moves, tag))
    requires NoStart(pre) && Kind(marker).StartOf? && AllPlain(post)
    requires Lines(Flatten(Chunks(moves, fd))) == pre + [marker] + post
    ensures var id := Kind(marker).sessionId; var ch := Stream(moves, id);
            && ClientLines(moves, id, fd) <= post
            && (ch.wire == [] && ch.out == [] ==> ClientLines(moves, id, fd) == post)
  {
    hide Kind, Lines, Flatten, Fits, CleanThroughout, Chunks, Stream, ClientLines, Own, Clean, NoStart, AllPlain;
    OneSessionIsClean(Chunks(moves, fd), pre, marker, post);
    SessionsReachClients(moves, Kind(marker).sessionId, fd);
  }
}
