/** client/client/mainstream.rs: the client's end of the main stream. */
module ClientMainStream {
  import opened Bytes
  import opened Io
  import opened Framing
  import Bincode
  import P = Protocol

  /** The head of the loop: header, length check, body and hello check of the first message in the buffer. */
  method DecodeFront(buffer: bytes) returns (front: Step<P.ResponseMessage, P.Error>)
    requires |buffer| >= P.RESPONSE_HEADER_SIZE
    ensures front == NextFrame(P.RESPONSE, buffer)
    ensures front.Frame? ==> !front.msg.HelloResponse?
  {
    var raw := CopyHeader(buffer, P.RESPONSE_HEADER_SIZE);
    var header := P.ResponseHeader.FromBuf(raw);
    if header.Err? {
      return Bad(header.error);
    }
    var msgEnd := P.RESPONSE_HEADER_SIZE + header.value.MsgLen();
    if |buffer| < msgEnd {
      return NeedMore;
    }
    var msg := P.ReadResponse(header.value, buffer[P.RESPONSE_HEADER_SIZE..msgEnd]);
    if msg.Err? {
      return Bad(msg.error);
    }
    if msg.value.HelloResponse? {
      return Bad(P.UnexpectedMessageType(P.Hello));
    }
    front := Frame(msgEnd, msg.value);
  }

  function CodeFrame(m: Bincode.CodeString): bytes {
    P.NewReq(P.MessageType.CodeString, 0, Bincode.PutCodeString(m))
  }

  /** The head of a submission, and what follows its length. */
  lemma CodeFrameLayout(m: Bincode.CodeString)
    ensures CodeFrame(m)[..4] == [0, 0, 2, 0] && CodeFrame(m)[8..] == Bincode.PutCodeString(m)
  {
  }

  class MainStream {
    var outbuffer: bytes
    var inbuffer: bytes
    var interest: Interest
    var respMsgs: seq<P.ResponseMessage>

    /** A hello never reaches the queue: `Read` rejects it. */
    ghost predicate Valid()
      reads this
    {
      forall m :: m in respMsgs ==> !m.HelloResponse?
    }

    constructor (interest: Interest)
      ensures Valid()
      ensures outbuffer == [] && inbuffer == [] && respMsgs == [] && this.interest == interest
    {
      outbuffer, inbuffer, respMsgs, this.interest := [], [], [], interest;
    }

    method SetInterest(interest: Interest)
      modifies `interest
      ensures this.interest == interest
    {
      this.interest := interest;
    }

    function HasOutData(): bool
      reads this
    {
      outbuffer != []
    }

    method NextRespMsg() returns (msg: Option<P.ResponseMessage>)
      requires Valid()
      modifies `respMsgs
      ensures Valid()
      ensures old(respMsgs) == [] ==> msg == None && respMsgs == []
      ensures old(respMsgs) != [] ==> msg.Some? && old(respMsgs) == [msg.value] + respMsgs && !msg.value.HelloResponse?
    {
      if respMsgs == [] {
        return None;
      }
      assert respMsgs[0] in respMsgs;
      msg, respMsgs := Some(respMsgs[0]), respMsgs[1..];
    }

    method QueueSourceCode(id: Bincode.Utf8, code: Bincode.Utf8, locals: bytes, globals: bytes)
      modifies `outbuffer
      ensures outbuffer == old(outbuffer) + CodeFrame(Bincode.CodeString(id, code, locals, globals))
    {
      var msg := Bincode.CodeString(id, code, locals, globals);
      outbuffer := outbuffer + P.NewReq(P.MessageType.CodeString, 0, Bincode.PutCodeString(msg));
    }

    /** The bytes leave the buffer only when the flush succeeds too. */
    method Write(w: WriteOutcome) returns (status: Status<P.Error>)
      requires w.Wrote? ==> w.count <= |outbuffer|
      modifies `outbuffer
      ensures status == if w.Wrote? && w.flushed then Done else IoError
      ensures outbuffer == if w.Wrote? && w.flushed then old(outbuffer)[w.count..] else old(outbuffer)
    {
      if w.WriteFailed? || !w.flushed {
        return IoError;
      }
      outbuffer := DropFront(outbuffer, w.count);
      status := Done;
    }

    /** A non-empty read is one `Feed` of the response codec; any other leaves the stream as it was. */
    method Read(r: ReadOutcome) returns (status: Status<P.Error>)
      requires Valid()
      modifies `inbuffer, `respMsgs
      ensures Valid()
      ensures r.ReadFailed? ==> status == IoError && inbuffer == old(inbuffer) && respMsgs == old(respMsgs)
      ensures r == ReadBytes([]) ==> status == Closed && inbuffer == old(inbuffer) && respMsgs == old(respMsgs)
      ensures r.ReadBytes? && r.chunk != [] ==>
                var p := Feed(P.RESPONSE, Parsed(old(respMsgs), old(inbuffer), None), r.chunk);
                && respMsgs == p.msgs && inbuffer == p.rest
                && status == (if p.error.Some? then Status.Protocol(p.error.value) else Done)
    {
      if r.ReadFailed? {
        return IoError;
      }
      if r.chunk == [] {
        return Closed;
      }
      inbuffer := inbuffer + r.chunk;
      hide Parse, Resume;
      ghost var whole := Resume(P.RESPONSE, respMsgs, inbuffer);

      while |inbuffer| >= P.RESPONSE_HEADER_SIZE
        invariant Valid()
        invariant Resume(P.RESPONSE, respMsgs, inbuffer) == whole
        decreases |inbuffer|
      {
        var front := DecodeFront(inbuffer);
        LoopTurn(P.RESPONSE, respMsgs, inbuffer);
        if front.Bad? {
          return Status.Protocol(front.error);
        }
        if front.NeedMore? {
          break;
        }
        respMsgs := respMsgs + [front.msg];
        inbuffer := DropFront(inbuffer, front.size);
      }
      LoopTurn(P.RESPONSE, respMsgs, inbuffer);
      status := Done;
    }
  }
}
