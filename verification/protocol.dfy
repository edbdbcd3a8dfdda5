/** The frame layouts: the 8-byte request header, the 12-byte response header, the 5-byte header of the
    output stream and the 5-byte header of the worker log. */
module Protocol {
  import opened Bytes
  import opened Bincode
  import opened Framing

  const VERSION: byte := 0
  const REQUEST_HEADER_SIZE := 8
  const RESPONSE_HEADER_SIZE := 12
  const OUTPUT_HEADER_SIZE := 5
  const LOG_HEADER_SIZE := 5

  datatype MessageType = Hello | CodeString | CodePickle {
    function AsU8(): byte {
      match this case Hello => 1 case CodeString => 2 case CodePickle => 3
    }

    static function FromU8(b: byte): Result<MessageType, Error> {
      if b == 1 then Ok(Hello)
      else if b == 2 then Ok(MessageType.CodeString)
      else if b == 3 then Ok(MessageType.CodePickle)
      else Err(UnrecognisedMessageType(b))
    }
  }

  datatype Error =
    | WrongVersion(version: byte)
    | UnrecognisedMessageType(code: byte)
    | UnexpectedMessageType(msgType: MessageType)
    | Deserialize
    | FailedDeserialize

  type Quad = s: bytes | |s| == 4 witness [0, 0, 0, 0]

  type RequestBuf = s: bytes | |s| == REQUEST_HEADER_SIZE witness [0, 0, 0, 0, 0, 0, 0, 0]

  type ResponseBuf = s: bytes | |s| == RESPONSE_HEADER_SIZE witness [0, 0, 0, 0, 0, 0, 0, 0, 0, 0, 0, 0]

  type OutputBuf = s: bytes | |s| == OUTPUT_HEADER_SIZE witness [0, 0, 0, 0, 0]

  // Request headers.

  datatype RequestHeader = RequestHeader(zero: byte, version: byte, msgType: MessageType, msgSubType: byte,
                                         msgLen: Quad) {
    static function New(msgType: MessageType, msgSubType: byte, len: nat): RequestHeader {
      RequestHeader(0, VERSION, msgType, msgSubType, ToBE32(len))
    }

    function IntoBuf(): RequestBuf {
      [zero, version, msgType.AsU8(), msgSubType] + msgLen
    }

    function MsgLen(): nat {
      FromBE32(msgLen)
    }

    static function FromBuf(buf: RequestBuf): Result<RequestHeader, Error> {
      if buf[1] != VERSION then Err(WrongVersion(buf[1])) else
      match MessageType.FromU8(buf[2])
      case Err(e) => Err(e)
      case Ok(t) => Ok(RequestHeader(0, buf[1], t, buf[3], buf[4..8]))
    }
  }

  // Response headers: the type is looked at before the version.

  datatype ResponseHeader = ResponseHeader(zero: byte, version: byte, msgType: MessageType, msgSubType: byte,
                                           msgLen: Quad, seqNum: Quad) {
    static function New(msgType: MessageType, msgSubType: byte, len: nat, seqNum: nat): ResponseHeader {
      ResponseHeader(0, VERSION, msgType, msgSubType, ToBE32(len), ToBE32(seqNum))
    }

    function IntoBuf(): ResponseBuf {
      [zero, version, msgType.AsU8(), msgSubType] + msgLen + seqNum
    }

    function MsgLen(): nat {
      FromBE32(msgLen)
    }

    static function FromBuf(buf: ResponseBuf): Result<ResponseHeader, Error> {
      match MessageType.FromU8(buf[2])
      case Err(e) => Err(e)
      case Ok(t) =>
        if buf[1] != VERSION then Err(WrongVersion(buf[1]))
        else Ok(ResponseHeader(0, buf[1], t, buf[3], buf[4..8], buf[8..12]))
    }
  }

  /** Decoding inverts encoding, and encoding inverts decoding except that the unused first byte comes
      back as zero. */
  lemma RequestHeaderRoundTrip(msgType: MessageType, msgSubType: byte, len: nat, buf: RequestBuf)
    ensures var h := RequestHeader.New(msgType, msgSubType, len);
            RequestHeader.FromBuf(h.IntoBuf()) == Ok(h) && h.MsgLen() == len % U32_MODULUS
    ensures var r := RequestHeader.FromBuf(buf); r.Ok? ==> r.value.IntoBuf() == buf[0 := 0]
    ensures RequestHeader.FromBuf(buf).Ok? <==> buf[1] == VERSION && 1 <= buf[2] <= 3
  {
    DecodeEncode32(len);
    var h := RequestHeader.New(msgType, msgSubType, len);
    assert h.IntoBuf()[4..8] == h.msgLen;
  }

  lemma ResponseHeaderRoundTrip(msgType: MessageType, msgSubType: byte, len: nat, seqNum: nat, buf: ResponseBuf)
    ensures var h := ResponseHeader.New(msgType, msgSubType, len, seqNum);
            ResponseHeader.FromBuf(h.IntoBuf()) == Ok(h) && h.MsgLen() == len % U32_MODULUS
    ensures var r := ResponseHeader.FromBuf(buf); r.Ok? ==> r.value.IntoBuf() == buf[0 := 0]
    ensures ResponseHeader.FromBuf(buf).Ok? <==> buf[1] == VERSION && 1 <= buf[2] <= 3
  {
    DecodeEncode32(len);
    var h := ResponseHeader.New(msgType, msgSubType, len, seqNum);
    assert h.IntoBuf()[4..8] == h.msgLen;
    assert h.IntoBuf()[8..12] == h.seqNum;
  }

  // Messages of the main stream.

  datatype RequestMessage =
    | HelloRequest
    | CodeStringRequest(codeString: Bincode.CodeString)
    | CodePickleRequest(codePickle: Bincode.CodePickle)

  datatype ResponseMessage =
    | HelloResponse(hello: ResponseClientHello)
    | CodeStringResponse(code: ResponseCode)
    | CodePickleResponse(code: ResponseCode)

  function NewReq(msgType: MessageType, msgSubType: byte, payload: bytes): bytes {
    RequestHeader.New(msgType, msgSubType, |payload|).IntoBuf() + payload
  }

  function Deserialized<T>(decoded: Option<T>, error: Error): Result<T, Error> {
    match decoded case Some(v) => Ok(v) case None => Err(error)
  }

  function ReadReq(header: RequestHeader, body: bytes): Result<RequestMessage, Error> {
    match header.msgType
    case Hello => Ok(HelloRequest)
    case CodeString =>
      (match Deserialized(TakeCodeString(body), Deserialize)
       case Ok(m) => Ok(CodeStringRequest(m))
       case Err(e) => Err(e))
    case CodePickle =>
      (match Deserialized(TakeCodePickle(body), Deserialize)
       case Ok(m) => Ok(CodePickleRequest(m))
       case Err(e) => Err(e))
  }

  function ReadResponse(header: ResponseHeader, body: bytes): Result<ResponseMessage, Error> {
    match header.msgType
    case Hello =>
      (match Deserialized(TakeResponseHello(body), FailedDeserialize)
       case Ok(m) => Ok(HelloResponse(m))
       case Err(e) => Err(e))
    case CodeString =>
      (match Deserialized(TakeResponseCode(body), FailedDeserialize)
       case Ok(m) => Ok(CodeStringResponse(m))
       case Err(e) => Err(e))
    case CodePickle =>
      (match Deserialized(TakeResponseCode(body), FailedDeserialize)
       case Ok(m) => Ok(CodePickleResponse(m))
       case Err(e) => Err(e))
  }

  // Codecs. A codec is only ever given a header of its own size.

  function RequestBodyLength(h: bytes): Result<nat, Error> {
    if |h| != REQUEST_HEADER_SIZE then Err(Deserialize) else
    match RequestHeader.FromBuf(h) case Ok(header) => Ok(header.MsgLen()) case Err(e) => Err(e)
  }

  function DecodeRequest(h: bytes, body: bytes): Result<RequestMessage, Error> {
    if |h| != REQUEST_HEADER_SIZE then Err(Deserialize) else
    match RequestHeader.FromBuf(h) case Ok(header) => ReadReq(header, body) case Err(e) => Err(e)
  }

  const REQUEST: Codec<RequestMessage, Error> := Codec(REQUEST_HEADER_SIZE, RequestBodyLength, DecodeRequest)

  function ResponseBodyLength(h: bytes): Result<nat, Error> {
    if |h| != RESPONSE_HEADER_SIZE then Err(Deserialize) else
    match ResponseHeader.FromBuf(h) case Ok(header) => Ok(header.MsgLen()) case Err(e) => Err(e)
  }

  /** What the client accepts on its main stream once it is open: anything but a second hello. */
  function DecodeResponse(h: bytes, body: bytes): Result<ResponseMessage, Error> {
    if |h| != RESPONSE_HEADER_SIZE then Err(Deserialize) else
    match ResponseHeader.FromBuf(h)
    case Err(e) => Err(e)
    case Ok(header) =>
      match ReadResponse(header, body)
      case Err(e) => Err(e)
      case Ok(m) => if m.HelloResponse? then Err(UnexpectedMessageType(Hello)) else Ok(m)
  }

  const RESPONSE: Codec<ResponseMessage, Error> := Codec(RESPONSE_HEADER_SIZE, ResponseBodyLength, DecodeResponse)

  // The output stream.

  datatype OutputType = Stdout | Stderr {
    function AsU8(): byte {
      match this case Stdout => 1 case Stderr => 2
    }

    static function FromU8(b: byte): Result<OutputType, Error> {
      if b == 1 then Ok(Stdout) else if b == 2 then Ok(Stderr) else Err(UnrecognisedMessageType(b))
    }
  }

  datatype PipeOut = PipeOut(line: bytes, fd: OutputType)

  datatype OutputHeader = OutputHeader(msgType: OutputType, msgLen: nat) {
    function IntoBuf(): OutputBuf {
      [msgType.AsU8()] + ToBE32(msgLen)
    }

    static function FromRaw(raw: OutputBuf): Result<OutputHeader, Error> {
      match OutputType.FromU8(raw[0])
      case Ok(t) => Ok(OutputHeader(t, FromBE32(raw[1..5])))
      case Err(e) => Err(e)
    }
  }

  lemma OutputHeaderRoundTrip(h: OutputHeader, raw: OutputBuf)
    ensures OutputHeader.FromRaw(h.IntoBuf()) == Ok(h.(msgLen := h.msgLen % U32_MODULUS))
    ensures var r := OutputHeader.FromRaw(raw); r.Ok? ==> r.value.IntoBuf() == raw
    ensures OutputHeader.FromRaw(raw).Ok? <==> 1 <= raw[0] <= 2
  {
    DecodeEncode32(h.msgLen);
    assert h.IntoBuf()[1..5] == ToBE32(h.msgLen);
    EncodeDecode32(raw[1..5]);
  }

  function NewOutputMsg(header: OutputHeader, data: bytes): bytes {
    header.IntoBuf() + data
  }

  function OutputBodyLength(h: bytes): Result<nat, Error> {
    if |h| != OUTPUT_HEADER_SIZE then Err(Deserialize) else
    match OutputHeader.FromRaw(h) case Ok(header) => Ok(header.msgLen) case Err(e) => Err(e)
  }

  function DecodeOutput(h: bytes, body: bytes): Result<PipeOut, Error> {
    if |h| != OUTPUT_HEADER_SIZE then Err(Deserialize) else
    match OutputHeader.FromRaw(h) case Ok(header) => Ok(PipeOut(body, header.msgType)) case Err(e) => Err(e)
  }

  const OUTPUT: Codec<PipeOut, Error> := Codec(OUTPUT_HEADER_SIZE, OutputBodyLength, DecodeOutput)

  // The log channel from a worker to the master: every type byte is accepted and skipped over.

  const LOG_MESSAGE: byte := 1
  const PRINT_MESSAGE: byte := 2

  datatype LogFrame = LogFrame(msgType: byte, body: bytes)

  function NewLogMsg(m: LogFrame): bytes {
    [m.msgType] + ToBE32(|m.body|) + m.body
  }

  function LogBodyLength(h: bytes): Result<nat, Error> {
    if |h| != LOG_HEADER_SIZE then Err(Deserialize) else Ok(FromBE32(h[1..5]))
  }

  function DecodeLog(h: bytes, body: bytes): Result<LogFrame, Error> {
    if |h| != LOG_HEADER_SIZE then Err(Deserialize) else Ok(LogFrame(h[0], body))
  }

  const LOG: Codec<LogFrame, Error> := Codec(LOG_HEADER_SIZE, LogBodyLength, DecodeLog)

  // The exact bound of the 32-bit length.

  /** The length field holds the body length modulo 2^32, so a frame is read back whole exactly when its
      body is shorter than that. */
  lemma ExactFramingBound<M>(c: Codec<M, Error>, header: bytes, body: bytes, m: M)
    requires |header| == c.headerSize
    requires c.bodyLength(header) == Ok(|body| % U32_MODULUS)
    requires c.decode(header, body) == Ok(m)
    ensures NextFrame(c, header + body) == Frame(|header + body|, m) <==> |body| < U32_MODULUS
  {
    var h := c.headerSize;
    assert (header + body)[..h] == header;
    assert (header + body)[h..h + |body|] == body;
  }

  lemma RequestFrameBound(m: Bincode.CodeString, msgSubType: byte)
    ensures var payload := PutCodeString(m); var frame := NewReq(MessageType.CodeString, msgSubType, payload);
            NextFrame(REQUEST, frame) == Frame(|frame|, CodeStringRequest(m)) <==> |payload| < U32_MODULUS
  {
    var payload := PutCodeString(m);
    var header := RequestHeader.New(MessageType.CodeString, msgSubType, |payload|);
    RequestHeaderRoundTrip(MessageType.CodeString, msgSubType, |payload|, header.IntoBuf());
    var frame := NewReq(MessageType.CodeString, msgSubType, payload);
    if |payload| < U32_MODULUS {
      CodeStringRoundTrip(m, []);
      assert payload + [] == payload;
      ExactFramingBound(REQUEST, header.IntoBuf(), payload, CodeStringRequest(m));
    } else {
      assert frame[..8] == header.IntoBuf();
    }
  }

  lemma ResponseFrameBound(m: ResponseCode, msgSubType: byte, seqNum: nat)
    ensures var payload := PutResponseCode(m);
            var frame := ResponseHeader.New(MessageType.CodeString, msgSubType, |payload|, seqNum).IntoBuf() + payload;
            NextFrame(RESPONSE, frame) == Frame(|frame|, CodeStringResponse(m)) <==> |payload| < U32_MODULUS
  {
    var payload := PutResponseCode(m);
    var header := ResponseHeader.New(MessageType.CodeString, msgSubType, |payload|, seqNum);
    ResponseHeaderRoundTrip(MessageType.CodeString, msgSubType, |payload|, seqNum, header.IntoBuf());
    var frame := header.IntoBuf() + payload;
    if |payload| < U32_MODULUS {
      ResponseCodeRoundTrip(m, []);
      assert payload + [] == payload;
      ExactFramingBound(RESPONSE, header.IntoBuf(), payload, CodeStringResponse(m));
    } else {
      assert frame[..12] == header.IntoBuf();
    }
  }

  lemma OutputFrameBound(m: PipeOut)
    ensures var frame := NewOutputMsg(OutputHeader(m.fd, |m.line|), m.line);
            NextFrame(OUTPUT, frame) == Frame(|frame|, m) <==> |m.line| < U32_MODULUS
  {
    var header := OutputHeader(m.fd, |m.line|);
    OutputHeaderRoundTrip(header, header.IntoBuf());
    ExactFramingBound(OUTPUT, header.IntoBuf(), m.line, m);
  }

  lemma LogFrameBound(m: LogFrame)
    ensures NextFrame(LOG, NewLogMsg(m)) == Frame(|NewLogMsg(m)|, m) <==> |m.body| < U32_MODULUS
  {
    var header := [m.msgType] + ToBE32(|m.body|);
    assert header[1..5] == ToBE32(|m.body|);
    DecodeEncode32(|m.body|);
    ExactFramingBound(LOG, header, m.body, m);
  }

  // The wire formats, in the bytes alone.

  /** A big-endian length of four bytes. */
  function LengthAt(b: bytes, i: nat): nat
    requires i + 4 <= |b|
  {
    b[i] as nat * 0x100_0000 + b[i + 1] as nat * 0x1_0000 + b[i + 2] as nat * 0x100 + b[i + 3] as nat
  }

  lemma LengthIs(b: bytes, size: nat, i: nat)
    requires i + 4 <= size <= |b|
    ensures FromBE32(b[..size][i..i + 4]) == LengthAt(b, i)
  {
    BigEndian(b[..size][i..i + 4]);
  }

  /** What a worker makes of the front of its buffer: version, then type, then length, then body. */
  lemma RequestFormat(b: bytes)
    ensures NextFrame(REQUEST, b) ==
            if |b| < 8 then NeedMore
            else if b[1] != 0 then Bad(WrongVersion(b[1]))
            else if b[2] == 0 || b[2] > 3 then Bad(UnrecognisedMessageType(b[2]))
            else
              var end := 8 + LengthAt(b, 4);
              if |b| < end then NeedMore
              else if b[2] == 1 then Frame(end, HelloRequest)
              else if b[2] == 2 then
                (match TakeCodeString(b[8..end])
                 case Some(m) => Frame(end, CodeStringRequest(m))
                 case None => Bad(Deserialize))
              else
                (match TakeCodePickle(b[8..end])
                 case Some(m) => Frame(end, CodePickleRequest(m))
                 case None => Bad(Deserialize))
  {
    hide FromBE32, TakeCodeString, TakeCodePickle;
    if |b| >= 8 {
      LengthIs(b, 8, 4);
    }
  }

  /** What a client makes of the front of its buffer: type, then version, then length, then body, and a hello is
      refused when its body is read. */
  lemma ResponseFormat(b: bytes)
    ensures NextFrame(RESPONSE, b) ==
            if |b| < 12 then NeedMore
            else if b[2] == 0 || b[2] > 3 then Bad(UnrecognisedMessageType(b[2]))
            else if b[1] != 0 then Bad(WrongVersion(b[1]))
            else
              var end := 12 + LengthAt(b, 4);
              if |b| < end then NeedMore
              else if b[2] == 1 then
                Bad(if TakeResponseHello(b[12..end]).Some? then UnexpectedMessageType(Hello) else FailedDeserialize)
              else
                match TakeResponseCode(b[12..end])
                case Some(m) => Frame(end, if b[2] == 2 then CodeStringResponse(m) else CodePickleResponse(m))
                case None => Bad(FailedDeserialize)
  {
    hide FromBE32, TakeResponseHello, TakeResponseCode;
    if |b| >= 12 {
      LengthIs(b, 12, 4);
    }
  }

  lemma OutputFormat(b: bytes)
    ensures NextFrame(OUTPUT, b) ==
            if |b| < 5 then NeedMore
            else if b[0] == 0 || b[0] > 2 then Bad(UnrecognisedMessageType(b[0]))
            else if |b| < 5 + LengthAt(b, 1) then NeedMore
            else Frame(5 + LengthAt(b, 1), PipeOut(b[5..5 + LengthAt(b, 1)], if b[0] == 1 then Stdout else Stderr))
  {
    hide FromBE32;
    if |b| >= 5 {
      LengthIs(b, 5, 1);
    }
  }

  lemma LogFormat(b: bytes)
    ensures NextFrame(LOG, b) ==
            if |b| < 5 || |b| < 5 + LengthAt(b, 1) then NeedMore
            else Frame(5 + LengthAt(b, 1), LogFrame(b[0], b[5..5 + LengthAt(b, 1)]))
  {
    hide FromBE32;
    if |b| >= 5 {
      LengthIs(b, 5, 1);
    }
  }
}
