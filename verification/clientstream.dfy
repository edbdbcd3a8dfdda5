/** server/runworker/clientstream.rs: a worker's end of a main stream it has taken over. */
module WorkerClientStream {
  import opened Bytes
  import opened Io
  import opened Framing
  import Bincode
  import P = Protocol

  /** The eight bytes that a client sends before anything else. */
  function HelloHeader(): P.RequestBuf {
    P.RequestHeader.New(P.MessageType.Hello, 0, 0).IntoBuf()
  }

  /** Whether a handed-over header opens a stream: it must be a well-formed hello, of any length. */
  function CheckHello(header: P.RequestBuf): Result<P.RequestHeader, P.Error> {
    match P.RequestHeader.FromBuf(header)
    case Err(e) => Err(e)
    case Ok(h) => if h.msgType.Hello? then Ok(h) else Err(P.UnexpectedMessageType(h.msgType))
  }

  /** Which headers are turned away, and how. */
  lemma CheckHelloFormat(b: P.RequestBuf)
    ensures CheckHello(b).Ok? <==> b[1] == 0 && b[2] == 1
    ensures b[1] != 0 ==> CheckHello(b) == Err(P.WrongVersion(b[1]))
    ensures b[1] == 0 && (b[2] == 0 || b[2] > 3) ==> CheckHello(b) == Err(P.UnrecognisedMessageType(b[2]))
    ensures b[1] == 0 && b[2] == 2 ==> CheckHello(b) == Err(P.UnexpectedMessageType(P.MessageType.CodeString))
    ensures b[1] == 0 && b[2] == 3 ==> CheckHello(b) == Err(P.UnexpectedMessageType(P.MessageType.CodePickle))
  {
  }

  function ServerHello(sessionId: Bincode.Utf8, outputAddr: Bincode.Utf8): bytes {
    var payload := Bincode.PutResponseHello(Bincode.ResponseClientHello(sessionId, sessionId, outputAddr));
    P.ResponseHeader.New(P.MessageType.Hello, 0, |payload|, 1).IntoBuf() + payload
  }

  /** The head of the server's hello, which is numbered 1. */
  lemma ServerHelloLayout(sessionId: Bincode.Utf8, outputAddr: Bincode.Utf8)
    ensures ServerHello(sessionId, outputAddr)[..4] == [0, 0, 1, 0]
    ensures ServerHello(sessionId, outputAddr)[8..12] == [0, 0, 0, 1]
  {
    assert ToBE32(1) == [0, 0, 0, 1];
  }

  /** What the connecting client makes of the first bytes it receives: a header, then a body of the
      announced length (client/connection.rs). */
  function ReadServerHello(stream: bytes): Option<Bincode.ResponseClientHello> {
    if |stream| < P.RESPONSE_HEADER_SIZE then None else
    match P.ResponseHeader.FromBuf(stream[..P.RESPONSE_HEADER_SIZE])
    case Err(_) => None
    case Ok(h) =>
      var end := P.RESPONSE_HEADER_SIZE + h.MsgLen();
      if !h.msgType.Hello? || |stream| < end then None
      else Bincode.TakeResponseHello(stream[P.RESPONSE_HEADER_SIZE..end])
  }

  lemma HelloIsAccepted()
    ensures CheckHello(HelloHeader()) == Ok(P.RequestHeader.New(P.MessageType.Hello, 0, 0))
  {
    P.RequestHeaderRoundTrip(P.MessageType.Hello, 0, 0, HelloHeader());
  }

  lemma ServerHelloBody(buf: P.ResponseBuf, header: P.ResponseHeader, payload: bytes, later: bytes)
    requires P.ResponseHeader.FromBuf(buf) == Ok(header)
    requires header.msgType.Hello? && header.MsgLen() == |payload|
    ensures ReadServerHello(buf + payload + later) == Bincode.TakeResponseHello(payload)
  {
    var stream := buf + payload + later;
    assert stream[..12] == buf && stream[12..12 + |payload|] == payload;
  }

  /** The length of the hello fits its header. */
  predicate HelloFits(sessionId: Bincode.Utf8, outputAddr: Bincode.Utf8) {
    24 + 2 * |sessionId| + |outputAddr| < U32_MODULUS
  }

  /** The session that the worker opens is the session that the client learns. */
  lemma HandshakeAgrees(sessionId: Bincode.Utf8, outputAddr: Bincode.Utf8, later: bytes)
    requires HelloFits(sessionId, outputAddr)
    ensures ReadServerHello(ServerHello(sessionId, outputAddr) + later)
         == Some(Bincode.ResponseClientHello(sessionId, sessionId, outputAddr))
  {
    hide ToBE32, FromBE32;
    var hello := Bincode.ResponseClientHello(sessionId, sessionId, outputAddr);
    var payload := Bincode.PutResponseHello(hello);
    var header := P.ResponseHeader.New(P.MessageType.Hello, 0, |payload|, 1);
    P.ResponseHeaderRoundTrip(P.MessageType.Hello, 0, |payload|, 1, header.IntoBuf());
    ServerHelloBody(header.IntoBuf(), header, payload, later);
    Bincode.ResponseHelloRoundTrip(hello, []);
    assert payload + [] == payload;
  }

  /** The head of the loop: header, length check and body of the first message in the buffer. */
  method DecodeFront(buffer: bytes) returns (front: Step<P.RequestMessage, P.Error>)
    requires |buffer| >= P.REQUEST_HEADER_SIZE
    ensures front == NextFrame(P.REQUEST, buffer)
  {
    var raw := CopyHeader(buffer, P.REQUEST_HEADER_SIZE);
    var header := P.RequestHeader.FromBuf(raw);
    if header.Err? {
      return Bad(header.error);
    }
    if header.value.MsgLen() + P.REQUEST_HEADER_SIZE > |buffer| {
      return NeedMore;
    }
    var msgEnd := header.value.MsgLen() + P.REQUEST_HEADER_SIZE;
    var msg := P.ReadReq(header.value, buffer[P.REQUEST_HEADER_SIZE..msgEnd]);
    front := match msg case Ok(m) => Frame(msgEnd, m) case Err(e) => Bad(e);
  }

  /** The fields of a stream, as a value. */
  datatype State = State(outbuffer: bytes, inbuffer: bytes, interest: Interest, reqMsgs: seq<P.RequestMessage>,
                         sessionId: Bincode.Utf8)

  function NewState(sessionId: Bincode.Utf8, outputAddr: Bincode.Utf8, interest: Interest): State {
    State(ServerHello(sessionId, outputAddr), [], interest, [], sessionId)
  }

  /** What a new stream has to say, and nothing else: the client that reads it learns the session. */
  lemma NewStreamGreets(sessionId: Bincode.Utf8, outputAddr: Bincode.Utf8, interest: Interest)
    ensures var s := NewState(sessionId, outputAddr, interest);
            && (HelloFits(sessionId, outputAddr) ==>
                  ReadServerHello(s.outbuffer) == Some(Bincode.ResponseClientHello(sessionId, sessionId, outputAddr)))
            && |s.outbuffer| == P.RESPONSE_HEADER_SIZE + 24 + 2 * |sessionId| + |outputAddr|
            && s.inbuffer == [] && s.reqMsgs == [] && s.interest == interest && s.sessionId == sessionId
  {
    hide ReadServerHello;
    if HelloFits(sessionId, outputAddr) {
      HandshakeAgrees(sessionId, outputAddr, []);
      assert ServerHello(sessionId, outputAddr) + [] == ServerHello(sessionId, outputAddr);
    }
  }

  datatype Outcome = Outcome(state: State, status: Status<P.Error>)

  /** A non-empty read is one `Feed` of the request codec; any other leaves the stream as it was. */
  function Reading(s: State, r: ReadOutcome): (o: Outcome)
    ensures o.state.interest == s.interest && o.state.outbuffer == s.outbuffer
  {
    if r.ReadFailed? then Outcome(s, IoError)
    else if r.chunk == [] then Outcome(s, Closed)
    else
      var p := Feed(P.REQUEST, Parsed(s.reqMsgs, s.inbuffer, None), r.chunk);
      Outcome(s.(reqMsgs := p.msgs, inbuffer := p.rest),
              if p.error.Some? then Status.Protocol(p.error.value) else Done)
  }

  /** The bytes leave the buffer only when the flush succeeds too. */
  function Writing(s: State, w: WriteOutcome): (o: Outcome)
    requires w.Wrote? ==> w.count <= |s.outbuffer|
    ensures o.state.interest == s.interest
  {
    if w.Wrote? && w.flushed then Outcome(s.(outbuffer := s.outbuffer[w.count..]), Done) else Outcome(s, IoError)
  }

  /** A call that fails leaves the stream as it was, and the end of the stream is told from an error. */
  lemma CallsFail(s: State)
    ensures Reading(s, ReadFailed) == Outcome(s, IoError) && Reading(s, ReadBytes([])) == Outcome(s, Closed)
    ensures Writing(s, WriteFailed) == Outcome(s, IoError)
    ensures forall n :: 0 <= n <= |s.outbuffer| ==> Writing(s, Wrote(n, false)) == Outcome(s, IoError)
  {
  }

  /** A write moves exactly the bytes that the socket took. */
  lemma WritingMoves(s: State, n: nat)
    requires n <= |s.outbuffer|
    ensures var o := Writing(s, Wrote(n, true));
            && o.status == Done && |o.state.outbuffer| == |s.outbuffer| - n
            && s.outbuffer[..n] + o.state.outbuffer == s.outbuffer
            && o.state.inbuffer == s.inbuffer && o.state.reqMsgs == s.reqMsgs && o.state.sessionId == s.sessionId
  {
  }

  function ReadAll(s: State, chunks: seq<bytes>): Outcome {
    if chunks == [] then Outcome(s, Done)
    else Reading(ReadAll(s, chunks[..|chunks| - 1]).state, ReadBytes(chunks[|chunks| - 1]))
  }

  lemma NothingParsed()
    ensures Parse(P.REQUEST, []) == Parsed([], [], None)
  {
  }

  /** However its bytes are cut into reads, a new stream has the requests that they parse to, the rest of the bytes,
      and the error. */
  lemma {:induction false} ReadsParse(s: State, chunks: seq<bytes>)
    requires s.inbuffer == [] && s.reqMsgs == [] && forall c :: c in chunks ==> c != []
    ensures var o, p := ReadAll(s, chunks), Parse(P.REQUEST, Flatten(chunks));
            && o.state == s.(reqMsgs := p.msgs, inbuffer := p.rest)
            && o.status == if p.error.Some? then Status.Protocol(p.error.value) else Done
  {
    hide Parse;
    if chunks == [] {
      assert Parse(P.REQUEST, []) == Parsed([], [], None) by { NothingParsed(); }
    } else {
      var most, last := chunks[..|chunks| - 1], chunks[|chunks| - 1];
      assert last in chunks && forall c :: c in most ==> c in chunks;
      ReadsParse(s, most);
      FlattenLast(chunks);
      ParseAppend(P.REQUEST, Flatten(most), last);
    }
  }

  class ClientStream {
    var outbuffer: bytes
    var inbuffer: bytes
    var interest: Interest
    var reqMsgs: seq<P.RequestMessage>
    const sessionId: Bincode.Utf8

    ghost function View(): State
      reads this
    {
      State(outbuffer, inbuffer, interest, reqMsgs, sessionId)
    }

    constructor (sessionId: Bincode.Utf8, outputAddr: Bincode.Utf8, interest: Interest)
      ensures View() == NewState(sessionId, outputAddr, interest) && this.sessionId == sessionId
    {
      this.sessionId, this.interest := sessionId, interest;
      outbuffer, inbuffer, reqMsgs := ServerHello(sessionId, outputAddr), [], [];
    }

    static method New(header: P.RequestBuf, sessionId: Bincode.Utf8, outputAddr: Bincode.Utf8, interest: Interest)
      returns (r: Result<ClientStream, P.Error>)
      ensures r.Ok? <==> header[1] == P.VERSION && header[2] == P.MessageType.Hello.AsU8()
      ensures r.Err? ==> CheckHello(header) == Err(r.error)
      ensures r.Ok? ==> fresh(r.value) && r.value.sessionId == sessionId
      ensures r.Ok? ==> r.value.View() == NewState(sessionId, outputAddr, interest)
      ensures r.Ok? ==> r.value.inbuffer == [] && r.value.reqMsgs == [] && r.value.interest == interest
      ensures r.Ok? && HelloFits(sessionId, outputAddr) ==>
                ReadServerHello(r.value.outbuffer) ==
                Some(Bincode.ResponseClientHello(sessionId, sessionId, outputAddr))
    {
      NewStreamGreets(sessionId, outputAddr, interest);
      var hello := CheckHello(header);
      if hello.Err? {
        return Err(hello.error);
      }
      var stream := new ClientStream(sessionId, outputAddr, interest);
      r := Ok(stream);
    }

    method SetInterest(interest: Interest)
      modifies `interest
      ensures this.interest == interest
    {
      this.interest := interest;
    }

    function HasOutData(): bool
      reads this
    {
      outbuffer != []
    }

    method NextReqMsg() returns (msg: Option<P.RequestMessage>)
      modifies `reqMsgs
      ensures old(reqMsgs) == [] ==> msg == None && reqMsgs == []
      ensures old(reqMsgs) != [] ==> msg.Some? && old(reqMsgs) == [msg.value] + reqMsgs
    {
      if reqMsgs == [] {
        return None;
      }
      msg, reqMsgs := Some(reqMsgs[0]), reqMsgs[1..];
    }

    method Write(w: WriteOutcome) returns (status: Status<P.Error>)
      requires w.Wrote? ==> w.count <= |outbuffer|
      modifies `outbuffer
      ensures Outcome(View(), status) == Writing(old(View()), w)
    {
      if w.WriteFailed? || !w.flushed {
        return IoError;
      }
      outbuffer := DropFront(outbuffer, w.count);
      status := Done;
    }

    method Read(r: ReadOutcome) returns (status: Status<P.Error>)
      modifies `inbuffer, `reqMsgs
      ensures Outcome(View(), status) == Reading(old(View()), r)
    {
      if r.ReadFailed? {
        return IoError;
      }
      if r.chunk == [] {
        return Closed;
      }
      inbuffer := inbuffer + r.chunk;
      hide Parse, Resume;
      ghost var whole := Resume(P.REQUEST, reqMsgs, inbuffer);

      while |inbuffer| >= P.REQUEST_HEADER_SIZE
        invariant Resume(P.REQUEST, reqMsgs, inbuffer) == whole
        decreases |inbuffer|
      {
        var front := DecodeFront(inbuffer);
        LoopTurn(P.REQUEST, reqMsgs, inbuffer);
        if front.Bad? {
          return Status.Protocol(front.error);
        }
        if front.NeedMore? {
          break;
        }
        reqMsgs := reqMsgs + [front.msg];
        inbuffer := DropFront(inbuffer, front.size);
      }
      LoopTurn(P.REQUEST, reqMsgs, inbuffer);
      status := Done;
    }
  }
}
