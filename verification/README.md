# PyProxy: the channels and the event loops

PyProxy runs Python code on a remote server. Four kinds of process take part: the client library, the master, the
workers, and the Python thread inside each worker. Almost every boundary between them is the same construction. A
producer appends whole frames to a buffer; `write` removes an arbitrary prefix of it; the wire is FIFO; a reader
appends arbitrary chunks to a buffer of its own and runs a loop that cuts complete frames off the front, shifting the
rest down in place. This project models those channels and the event loops around them, and proves what the
construction is for: what arrives is what was sent, in order, however the bytes are cut, everything has arrived
exactly when nothing is in flight, and from every reachable state everything can be made to arrive.

## How it is built

| file | what it models |
|---|---|
| `bytes.dfy` | byte strings, big-endian and little-endian integers, the in-place compaction loop |
| `framing.dfy` | the deframing loop as a recursive parser over a codec; its composition, chunking, error and conservation laws |
| `channel.dfy` | one channel, end to end, as a state machine over sends, partial writes and partial reads |
| `bincode.dfy`, `protocol.dfy` | message bodies; the 8-, 12- and 5-byte headers; the four codecs |
| `io.dfy` | what a socket can answer |
| `mainstream.dfy`, `clientloop.dfy` | the client's main stream, its pending futures and its event loop |
| `outputstream.dfy` | printed lines from the master to the client, and the hello that opens an output stream |
| `masterclient.dfy`, `masterloop.dfy` | the master's eight-byte read of a connection; its table of streams by token |
| `workerlink.dfy`, `logchannel.dfy` | both ends of the socket between master and worker: headers and descriptors one way, log frames written by two threads the other way; the rotation over the pool |
| `clientstream.dfy`, `workerloop.dfy` | the worker's end of an adopted main stream, and the worker's event loop |
| `workerstall.dfy` | the turns of a worker's event loop against its Python thread: when log bytes wait unwatched |
| `requestpath.dfy`, `requeststeps.dfy` | the path of a request over three processes, any number of clients and workers; what each step of it moves, which worker a dispatch chooses over a run, and that requests can always arrive |
| `pipeframe.dfy`, `piperouting.dfy` | worker output cut into lines and routed to one session, and to any number of them |
| `pipeechoes.dfy` | the lines of a worker that the master writes to its own output, and how often |
| `outputpath.dfy` | a printed line from the two pipes of a worker to the client of its session |

Objects whose methods update fields are classes, and their loops are loops. Each method is proved against a
specification on values (`Feed`, `DispatchAll`, `PairOne`, `Apply`, `RouteLines`, ...), and the laws and the whole-run
theorems are lemmas about those. Beside the invariants, lemmas say of each step how much it moves and where (`...Moves`),
and of each format which bytes stand for what (`...Format`, `...Iff`). In the state machines every choice that the environment makes (how many bytes a
write or read moves, which process is next, when descriptors arrive) is an argument of the step, so a theorem about
every list of steps is a theorem about every run. What a system call answers is a parameter of the method that makes
the call.

## What the code does where one might expect otherwise

The model follows the code. These are the places where that matters, each with the exact condition.

- A frame is read back whole if and only if its body is shorter than 2^32 bytes: the length is stored modulo 2^32
  (`Protocol.ExactFramingBound` and its four instances).
- The client's output stream returns the lines of a read only when the whole read succeeds, although it has already
  removed them from its buffer. Over every cut, what it returns is what parses before the first read that fails; lines
  of the stream are lost if and only if that read has a whole frame in front of the faulty one
  (`OutputStreams.LinesLostIff`, `LostLineExample`).
- An output stream opens its session if and only if some read ends exactly where the hello ends; a buffer that holds
  more than one frame is never consumed again (server/runmaster/outputstream.rs:100; `OutputStreams.HelloOpensIff`,
  `OverfullStays`).
- A worker makes at most one header-descriptor pair per read, and looks for one only when bytes come. Everything
  accepted is paired if and only if there are at least as many reads as requests and, at every read, the requests that
  still miss a half are no more than the reads that follow (`WorkerLinks.AllPairedIff`). A burst in the last read leaves
  requests behind (`BurstExample`). So would a descriptor that came after the last byte (`LateDescriptorExample`), if
  the descriptor queue, of which only the order is assumed here, ever hands one over that late. What is paired is
  paired correctly all the same.
- The rotation over the workers advances once per dispatch call, not once per request, so a batch goes to one worker.
- A full descriptor queue drops the request silently (`WorkerLinks.BatchSplit`), and for good: however the run goes on,
  no worker takes the connection over or reads a byte of it (`RequestPath.RefusedIsForever`).
- The worker checks the interest of its stream to the master before it serves the client streams, serving one writes a
  log frame, and its Python thread logs at any moment. Blocked in poll, it has log bytes to write and no interest in
  writing them if and only if there were none at the check and either thread has appended since; none of them then
  leaves before the next check (`WorkerStall.StallsIff`, `StalledUntilCheck`). The first request of a new stream is
  such a case (`EventLoopStallExample`), and so is the end of a request that the Python thread logs while the loop is
  blocked with nothing to do (`PythonStallExample`). The loop's own half of the condition is that a request was waiting
  when it began to serve (`WorkerLoop.Loop.BeforePoll`).
- A read of a worker pipe that ends with no session open is not cleared, and the next read scans its lines again as if
  no session had been open in front of them. A line whose session was opened in an earlier, cleared read is then lost;
  one whose session was opened in the same stretch goes to the session that is open when the next delivery comes. At
  every point where a session is open, every session has been given exactly its own lines if and only if, at every
  such point, all session lines since the point before it stand in the one session that is open, and, if a read has
  ended in no session meanwhile, not one more line of the session before came first (`PipeRouting.RoutedRightIff`;
  `PipeRouting.RightIffClean` also for a point where none is open; `MisroutedExample`, `LostLineExample`). A delivery
  begins with an empty line when its read began in a session, because the last newline is kept.
- While no session holds a pipe open, the master writes its lines to its own output again on every read. A line
  outside any session is written by every read from the one that completes it to the first that ends in a session; a
  line of a session that follows the last open point without a mark between is written by every such read but the
  first; other session lines never are (`PipeEchoes.TimesWritten`).
- The start marker is sent over the log channel (server/runworker/pythread.rs:44), not on the worker's standard
  output, and nothing sends the end marker, so the markers that `PipeFrame` looks for are a hypothesis on its input.
- The client reads its main stream after every event of it, also one that only says it is writable
  (client/client/mod.rs:261-270). A read that finds nothing on the non-blocking socket fails, and the failure ends the
  client's thread (`ClientLoop.Loop.OnMainStream`).
- A future receives at most one value, through a channel; the documented repeatable `wait` (pyproxy/future.py:30-32)
  is not what the channel gives.

## Model

| member | source | states |
|---|---|---|
| Bytes.DropFront | client/client/mainstream.rs:112-116 | the overlapping forward copy and the truncate drop exactly the used-up prefix, for every length |
| Bytes.CopyHeader | client/client/mainstream.rs:90-93 | the header array gets the first bytes of the buffer |
| Bytes.DecodeEncode32 | protocol/lib.rs:114-133 | a length that is cast to 32 bits, stored big-endian and read back is the length modulo 2^32 |
| Bytes.EncodeDecode32 | protocol/outputstream.rs:48-60 | storing a length that was read gives the same four bytes |
| Bytes.BigEndian | protocol/lib.rs:131-133 | the first of the four length bytes weighs most, 2^24, and the last 1 |
| Bytes.LastWeighsMost | protocol/mainstream.rs:1-7 | in the integers of a serialized body the last byte weighs most, 256 to its position, whatever the width |
| Framing.NextFrameStable | client/client/mainstream.rs:89-110 | once the loop can decide about the front of the buffer, further bytes do not change the decision |
| Framing.ParseIsMaximal | client/client/mainstream.rs:89-117 | the loop stops only at an incomplete frame or at an error, never with a complete frame left |
| Framing.ParseAppend | client/client/mainstream.rs:87-119 | reading a and then b leaves the queue, the buffer and the error of reading a followed by b, errors included |
| Framing.ChunkingIndependence | client/client/mainstream.rs:79-120 | for every cut of a byte stream into reads, the queued messages, the residual buffer and the error are those of one parse of the whole stream |
| Framing.ErrorIsSticky | server/runworker/clientstream.rs:93-132 | after a failed read every later read fails with the same error and queues nothing, and its bytes pile up unread |
| Framing.ParseConserves | client/client/mainstream.rs:89-117 | the bytes of the frames consumed followed by the residual buffer are the bytes read |
| Framing.ParseEncodes | client/client/mainstream.rs:89-117 | the frames consumed are, one by one, the encodings of the messages queued |
| Framing.ReaderOfFrames | client/client/mainstream.rs:79-120 | a reader that got any prefix of some frames has queued a prefix of their messages without error, and all of them once it has everything |
| Framing.ReaderHoldsRest | client/client/mainstream.rs:79-120 | such a reader's buffer is exactly what it got beyond the frames of the messages it queued |
| Channels.NextKeepsInv | client/client/mainstream.rs:45-120 | every send, partial write and partial read keeps: bytes read, wire and outbuffer together are the encoding of what was sent, and the reader is the parse of what it read |
| Channels.Delivery | client/client/mainstream.rs:45-120 | the messages delivered are a prefix of those sent; no byte is lost or duplicated; all have arrived if and only if outbuffer and wire are empty |
| Channels.RunDelivers | client/client/mainstream.rs:45-120 | the same over every run of a channel from its start |
| Channels.SendMoves | client/client/mainstream.rs:45-64 | a send puts exactly the frame of its message behind what waits in the outbuffer, and nothing else changes |
| Channels.WriteMoves | client/client/mainstream.rs:66-77 | a write moves as many bytes as it may from the outbuffer to the wire, in order, and nothing else changes |
| Channels.ReadMoves | client/client/mainstream.rs:79-119 | a read moves as many bytes as it may from the wire to the reader, which has then parsed all it got |
| Channels.WriteAndReadDeliver | client/client/mainstream.rs:66-120 | from every state of the invariant one whole write and one whole read deliver every message sent, with nothing left over |
| Channels.RunCanDeliver | client/client/mainstream.rs:66-120 | so from the state of any run everything that was sent can be delivered |
| Bincode.CodeStringRoundTrip | protocol/mainstream.rs:1-7 | a serialized code request deserializes to itself, whatever bytes follow |
| Bincode.ResponseCodeRoundTrip | protocol/mainstream.rs:17-33 | so does a response with a result or an error |
| Bincode.ResponseHelloRoundTrip | protocol/lib.rs:243-253 | so does the server's hello |
| Bincode.ClientHelloRoundTrip | protocol/outputstream.rs:5-13 | so does the hello of an output stream |
| Bincode.ValidUtf8Iff | protocol/mainstream.rs:1-7 | a byte string is taken for a string if and only if it is the encoding of a sequence of Unicode code points (RFC 3629, section 3) |
| Bincode.PutLayout | protocol/lib.rs:71-73 | a string or vector is its length in eight bytes, lowest first, and then its bytes |
| Bincode.CodeStringIff | protocol/mainstream.rs:1-7 | a body is read as a code request if and only if it begins with the four fields of that request, each with its length, in the order of the declaration |
| Bincode.CodePickleIff | protocol/mainstream.rs:9-15 | the same for a pickled request |
| Bincode.ResponseCodeIff | protocol/mainstream.rs:17-33 | the same for a response, whose variant is stored in four bytes as 0 for an error and 1 for a returned value |
| Bincode.ResponseHelloIff | protocol/lib.rs:243-253 | the same for the three strings of the server's hello |
| Bincode.ClientHelloIff | protocol/outputstream.rs:5-13 | the same for the token of an output stream |
| Protocol.RequestHeaderRoundTrip | protocol/lib.rs:107-148 | decoding a request header inverts encoding it; encoding what was decoded gives the input with byte 0 zeroed; a header decodes if and only if its version and type are known |
| Protocol.ResponseHeaderRoundTrip | protocol/lib.rs:171-220 | the same for the 12-byte response header |
| Protocol.OutputHeaderRoundTrip | protocol/outputstream.rs:21-61 | the same for the 5-byte output header, which comes back unchanged |
| Protocol.ExactFramingBound | protocol/lib.rs:107-133 | for any header that stores its length modulo 2^32, the frame is read back whole if and only if the body is shorter than 2^32 bytes |
| Protocol.RequestFrameBound | protocol/lib.rs:71-86 | a framed code request is read back as itself if and only if its body is shorter than 2^32 bytes |
| Protocol.ResponseFrameBound | protocol/lib.rs:150-220 | the same for a framed response |
| Protocol.OutputFrameBound | protocol/outputstream.rs:43-68 | the same for a printed line with its tag |
| Protocol.LogFrameBound | server/runworker/workerstream.rs:77-105 | the same for a log frame of any type |
| Protocol.RequestFormat | protocol/lib.rs:80-148 | which bytes a worker takes for which request or error, in the bytes alone: version before type before length before body |
| Protocol.ResponseFormat | protocol/lib.rs:150-220 | which bytes a client takes for which response or error: type before version before length before body; a hello is refused, with one error if its body can be read and another if not |
| Protocol.OutputFormat | protocol/outputstream.rs:21-61 | which bytes a client takes for which printed line: 1 is standard output and 2 standard error |
| Protocol.LogFormat | server/runmaster/workerstream.rs:152-192 | which bytes the master takes for which log frame; no type is an error |
| ClientMainStream.DecodeFront | client/client/mainstream.rs:90-108 | header, length check, body and the rejection of a hello decide as the response codec does; a hello is never passed on |
| ClientMainStream.CodeFrameLayout | client/client/mainstream.rs:52-63 | the head of a submission and what follows its length |
| ClientMainStream.MainStream.constructor | client/client/mainstream.rs:17-27 | both buffers and the queue start empty |
| ClientMainStream.MainStream.SetInterest | client/client/mainstream.rs:29-31 | only the stored interest changes |
| ClientMainStream.MainStream.NextRespMsg | client/client/mainstream.rs:41-43 | the first queued response, removed from the queue, and never a hello |
| ClientMainStream.MainStream.QueueSourceCode | client/client/mainstream.rs:45-64 | the outbuffer grows by one whole frame of the request |
| ClientMainStream.MainStream.Write | client/client/mainstream.rs:66-77 | the written prefix leaves the buffer if and only if write and flush both succeed; otherwise nothing changes |
| ClientMainStream.MainStream.Read | client/client/mainstream.rs:79-120 | a non-empty read is one feed of the response parser, error included; a failed or empty one changes nothing |
| ClientLoop.FirstResponseSettles | client/client/mod.rs:206-233 | for every order of submissions and responses, a future receives exactly the result of the first later response with its id, or nothing if none came or the id was submitted again first |
| ClientLoop.PendingOrSettled | client/client/mod.rs:196-233 | with distinct ids, an id is pending if and only if its future has received nothing, and nothing else is pending |
| ClientLoop.CodesDecode | client/client/mainstream.rs:45-64 | what a client frames for codes that fit is parsed into one request for each, with the id, code, locals and globals of its own code, without error and with nothing left over |
| ClientLoop.ResponseIsReceived | client/client/mod.rs:221-233 | in the messages of the bytes received alone: what a future has received is the result of the first of them with its id that is looked up after its submission, and it has received that unless the id was submitted again |
| ClientLoop.Loop.constructor | client/client/mod.rs:182-196 | nothing is pending, and poll knows the stored interest |
| ClientLoop.Loop.TakeCode | client/client/mod.rs:206-219 | the received codes are framed onto the outbuffer, all and in order, so that a worker parses the added bytes into just these requests, field by field; afterwards the ids pending are those of before and those of the codes, each with its own future |
| ClientLoop.Loop.Settle | client/client/mod.rs:221-233 | every queued response is looked up in order; the arm that would forget a future without settling it is not reached |
| ClientLoop.Loop.Send | client/client/mod.rs:224-229 | the value is the last one on its own channel, and no other channel changes |
| ClientLoop.Loop.SyncInterest | client/client/mod.rs:235-254 | the registered interest is the stored one, and writable if and only if there are bytes to write |
| ClientLoop.Loop.BeforePoll | client/client/mod.rs:205-259 | whenever the loop blocks in poll it waits for writability if and only if there are bytes to write, the added bytes are parsed into just the codes taken, and the responses of its log are exactly the messages of all bytes received |
| ClientLoop.Loop.OnMainStream | client/client/mod.rs:261-270 | a failed write ends the event before the read; otherwise the bytes written leave the buffer and the read is one feed of the parser; settled and queued responses stay the messages of the bytes received |
| WorkerClientStream.HelloIsAccepted | client/connection.rs:52-62 | the eight bytes that a connecting client sends open a stream at the worker |
| WorkerClientStream.HandshakeAgrees | client/connection.rs:64-96 | the session, token and address that the client reads are those that the worker sent, whatever bytes follow |
| WorkerClientStream.ServerHelloLayout | server/runworker/clientstream.rs:49-59 | the head of the server's hello, which carries the sequence number 1 |
| WorkerClientStream.CheckHelloFormat | server/runworker/clientstream.rs:30-36 | a header opens a stream if and only if it has version 0 and type 1; otherwise the error names the version, the unknown type or the type that was not expected |
| WorkerClientStream.NewStreamGreets | server/runworker/clientstream.rs:42-69 | a new stream has its hello to write and nothing else, and the client that reads it learns the session; nothing has been read |
| WorkerClientStream.CallsFail | server/runworker/clientstream.rs:80-104 | a call that fails leaves the stream as it was; the end of the stream is told from an error |
| WorkerClientStream.WritingMoves | server/runworker/clientstream.rs:80-91 | a write takes exactly the bytes that the socket took off the front of the outbuffer |
| WorkerClientStream.ReadsParse | server/runworker/clientstream.rs:93-132 | for every cut of its bytes into reads, a new stream has the requests, the rest and the error of one parse of all of them |
| WorkerClientStream.DecodeFront | server/runworker/clientstream.rs:106-121 | header, length check and body decide as the request codec does |
| WorkerClientStream.ClientStream.New | server/runworker/clientstream.rs:24-70 | a stream is opened if and only if the header is a hello of this version; what it has to write tells the client its session, nothing has been read and the interest is the one given; otherwise the error says why |
| WorkerClientStream.ClientStream.NextReqMsg | server/runworker/clientstream.rs:138-140 | the first queued request, removed from the queue |
| WorkerClientStream.ClientStream.Write | server/runworker/clientstream.rs:80-91 | the written prefix leaves the buffer if and only if write and flush both succeed |
| WorkerClientStream.ClientStream.Read | server/runworker/clientstream.rs:93-132 | a non-empty read is one feed of the request parser, error included; a failed or empty one changes nothing |
| OutputStreams.PrintedLinesArrive | server/runmaster/outputstream.rs:123-147 | over every run, the lines delivered are a prefix of those printed, tags and bytes kept, and all of them if and only if nothing is in flight |
| OutputStreams.ReturnedLines | client/client/outputstream.rs:29-69 | while the bytes parse, the lines that the reads return, joined, are those of the whole stream, for every cut |
| OutputStreams.LinesBeforeFailure | client/client/outputstream.rs:29-69 | for every cut, what the reads return, joined, are the lines that parse before the first read that fails |
| OutputStreams.LinesLostIff | client/client/outputstream.rs:41-68 | for every cut, the reads return the lines of the whole stream if and only if no read fails or the first one that does has no whole frame in front of the faulty one |
| OutputStreams.CutDecidesLines | client/client/outputstream.rs:41-68 | a good frame and a faulty one give the line when they come in two reads, and nothing in one |
| OutputStreams.LostLineExample | client/client/outputstream.rs:41-68 | a printed line followed by a frame of type 3 is such a case |
| OutputStreams.ClientOutputStream.Read | client/client/outputstream.rs:29-69 | a read returns the lines it completes if it does not fail, and keeps the rest; on an error it returns none and has still dropped the complete frames |
| OutputStreams.HelloFrameOpens | client/client/mod.rs:282-297 | the hello that a client writes to its output stream opens the session of its token |
| OutputStreams.HelloFrameLayout | client/client/mod.rs:282-287 | the head of the hello of an output stream, and its token |
| OutputStreams.HelloFormat | server/runmaster/outputstream.rs:88-121 | which buffers the master keeps, rejects or opens, in the bytes alone; a bad version or type is rejected before the length is looked at, and any known type will do |
| OutputStreams.HelloNeedsExactBuffer | server/runmaster/outputstream.rs:93-107 | a buffer that starts or extends a hello without being it is left alone |
| OutputStreams.HelloOpensIff | server/runmaster/outputstream.rs:88-121 | for every cut of a stream that begins with a hello, the session opens if and only if some read ends where the hello ends, and with its token; otherwise nothing is consumed |
| OutputStreams.HelloOpensOnLastByte | server/runmaster/outputstream.rs:88-121 | for every cut of exactly one hello, nothing opens before the last byte; with it the session opens and the buffer is empty |
| OutputStreams.OverfullStays | server/runmaster/outputstream.rs:99-102 | once the buffer holds more than its first frame, no later read consumes anything or opens a session |
| OutputStreams.OutputStream.Read | server/runmaster/outputstream.rs:88-121 | one read either keeps the bytes, or rejects them, or opens the session of the token and empties the buffer |
| OutputStreams.OutputStream.TakeSessionId | server/runmaster/outputstream.rs:135-137 | the token is given out once |
| OutputStreams.OutputStream.Write | server/runmaster/outputstream.rs:123-133 | the written prefix leaves the buffer, and a failed write changes nothing |
| OutputStreams.OutputStream.SendStdout | server/runmaster/outputstream.rs:139-142 | the outbuffer grows by one whole frame of the line, tagged as standard output |
| OutputStreams.OutputStream.SendStderr | server/runmaster/outputstream.rs:144-147 | the outbuffer grows by one whole frame of the line, tagged as standard error |
| MasterClientStream.ClientStream.constructor | server/runmaster/clientstream.rs:24-30 | nothing has been read |
| MasterClientStream.ClientStream.Read | server/runmaster/clientstream.rs:32-50 | the chunk is appended to the header; the read is done exactly at the eighth byte, and one after that takes nothing |
| MasterClientStream.ClientStream.Header | server/runmaster/clientstream.rs:52-54 | the bytes read so far stand at the front of the header |
| WorkerLinks.BatchSplit | server/runmaster/workerstream.rs:52-59 | of a batch the first requests are accepted, as many as the descriptor queue has room for, in order, and all others are dropped with header and descriptor |
| WorkerLinks.WorkerStream.SendFd | server/runmaster/workerstream.rs:119-121 | the descriptor is queued if and only if the queue has room |
| WorkerLinks.WorkerStream.Dispatch | server/runmaster/workerstream.rs:52-59 | header and descriptor are queued both or neither |
| WorkerLinks.WorkerStream.Write | server/runmaster/workerstream.rs:127-139 | the written prefix leaves the buffer, and a failed write changes nothing |
| WorkerLinks.WorkerStream.Read | server/runmaster/workerstream.rs:141-195 | a non-empty read cuts off the log frames that the log parser finds, of every type, and never fails on them |
| WorkerLinks.WorkerStreams.Add | server/runmaster/workerstream.rs:90-92 | the pool grows by one stream at its end |
| WorkerLinks.WorkerStreams.Dispatch | server/runmaster/workerstream.rs:94-111 | without workers the queue and the rotation are untouched; otherwise the whole queue goes to the next worker, in order, and no other worker changes |
| WorkerLinks.SelectedWraps | server/runmaster/workerstream.rs:105-106 | the worker selected by the n-th next dispatch |
| WorkerLinks.RotationIsFair | server/runmaster/workerstream.rs:94-111 | any n consecutive dispatches over n workers select each worker exactly once |
| WorkerLinks.WorkerEnd.Read | server/runworker/workerstream.rs:107-136 | a non-empty read appends its bytes and makes at most one pair, of the first header and the first descriptor, if both are there |
| WorkerLinks.WorkerEnd.NextMsg | server/runworker/workerstream.rs:53-55 | the first pair, removed from the queue |
| WorkerLinks.WorkerEnd.NewMsg | server/runworker/workerstream.rs:101-105 | the three appends add one whole log frame |
| WorkerLinks.WorkerEnd.Write | server/runworker/workerstream.rs:138-147 | the written prefix leaves the buffer, and a failed write changes nothing |
| WorkerLinks.PairOneKeeps | server/runworker/workerstream.rs:117-133 | a header and a descriptor that meet at the worker belong to the same accepted request |
| WorkerLinks.NextLinkKeeps | server/runworker/workerstream.rs:107-136 | every dispatch, partial write, arrival of descriptors, read and take keeps the headers in the three buffers and the descriptors in the two queues those of the unpaired requests |
| WorkerLinks.SenderMoves | server/runmaster/workerstream.rs:127-139 | a write moves as many bytes, and a transfer as many descriptors, as it may, in order, and nothing else changes |
| WorkerLinks.ReaderMoves | server/runworker/workerstream.rs:107-136 | a read moves as many bytes as it may and makes one pair if it brought bytes and both halves are there, else none |
| WorkerLinks.TakeMoves | server/runworker/workerstream.rs:53-55 | a take gives out the first pair |
| WorkerLinks.PairsStayTogether | server/runworker/workerstream.rs:107-136 | over every run the pairs taken are a prefix of those accepted; all are made if and only if no byte, equally no descriptor, is in flight; the bytes in flight are a whole number of headers |
| WorkerLinks.PairsMade | server/runworker/workerstream.rs:107-136 | over every run, a number of requests is paired if and only if the reads keep up with that number |
| WorkerLinks.AllPairedIff | server/runworker/workerstream.rs:107-136 | over every run, everything accepted is paired if and only if there are at least as many reads as requests and, at every read, the requests that still miss their header or descriptor are no more than the reads that follow |
| WorkerLinks.LateDescriptorExample | server/runworker/workerstream.rs:117-133 | a request whose descriptor were to arrive after its last byte is left unpaired, because descriptors are looked for only when bytes come |
| WorkerLinks.BurstExample | server/runworker/workerstream.rs:117-133 | of two requests that arrive in one read the second is left unpaired |
| LogChannel.NextKeeps | server/runworker/workerstream.rs:67-105 | every lock, single append, write and read keeps the outbuffer a sequence of whole frames plus the part of a frame that the mutex holder has written |
| LogChannel.StepMoves | server/runworker/workerstream.rs:67-105 | what each step moves: a free mutex is taken, each append of its holder is one part of the frame, the third gives it back, a write and a read move as many bytes as they may |
| LogChannel.HolderFinishes | server/runworker/workerstream.rs:77-105 | the holder of the mutex can always finish its frame and give the mutex back |
| LogChannel.LogFramesInLockOrder | server/runworker/workerstream.rs:67-147 | for every interleaving of two threads, writes and reads, the master recovers a prefix of the frames in lock order, none torn, and all of them if and only if nobody holds the mutex and nothing is in flight |
| LogChannel.LogCanBeRead | server/runmaster/workerstream.rs:141-195 | from every state of a run in which nobody holds the mutex, one whole write and one whole read bring the master every frame logged |
| LogChannel.KnownIff | server/runmaster/workerstream.rs:169-185 | the master acts on the frames of type 1 and 2 and on no other |
| LogChannel.UnknownTypesAreSkipped | server/runmaster/workerstream.rs:169-185 | the frames of known types that the master acts on are a prefix of those logged, whatever unknown ones lie between |
| RequestPath.StepKeeps | server/runmaster/mod.rs:164-302 | every step of a client, the master or a worker keeps the invariant of the whole system: bytes conserved on every connection, and every complete header tracked to its place |
| RequestPath.TakeFirstKeeps | server/runworker/mod.rs:59-70 | a pair that a worker takes is an accepted request whose header is a hello, so it is adopted |
| RequestPath.RequestsArrive | server/runmaster/clientstream.rs:32-50 | over every run of three processes, what the master took of a connection followed by what the worker read is a prefix of what the client put out; the master takes the hello and nothing else; the worker's requests are a prefix of the client's and, once the master has the whole hello, all of them if and only if nothing is in flight |
| RequestPath.RefusedIsForever | server/runmaster/workerstream.rs:52-56 | however a run goes on, a request that a full queue has dropped stays dropped, and no worker reads a byte of its connection |
| RequestPath.EveryRequestHasOnePlace | server/runmaster/workerstream.rs:94-111 | at every point of every run a completed header is in exactly one of the queue, one worker's accepted log and one worker's drop log |
| RequestPath.DispatchDrainsQueue | server/runmaster/workerstream.rs:98-110 | a dispatch empties the queue, or without workers changes nothing |
| RequestPath.DispatchIsBatch | server/runmaster/workerstream.rs:108-110 | what a dispatch does in the system is what the batch does to one worker and to no other |
| RequestPath.RequestsStayInOrder | server/runmaster/mod.rs:288-295 | over every run the queue is the tail of the completed headers, and each worker accepts in the order of completion |
| RequestSteps.DispatchGoesToNext | server/runmaster/workerstream.rs:94-111 | a dispatch of the system gives the whole queue to the worker after the one before it, as a batch, and every other worker stays as it is |
| RequestSteps.DispatchMovesConns | server/runmaster/workerstream.rs:52-59 | of the queue, the first connections are assigned to that worker, as many as it has descriptor slots, the others are refused by it, and connections outside the queue stay |
| RequestSteps.LastSendRuns | server/runmaster/workerstream.rs:105-106 | over every run without new workers, the worker chosen last is where the number of dispatches puts the rotation |
| RequestSteps.DispatchesDiffer | server/runmaster/workerstream.rs:94-111 | over every run without new workers, two dispatches with fewer dispatches between them than there are workers choose different workers |
| RequestSteps.DispatchesReachAll | server/runmaster/workerstream.rs:94-111 | over every run without new workers, as many dispatches as there are workers choose each of them |
| RequestSteps.LogsChangeWhenChosen | server/runmaster/workerstream.rs:94-111 | what a worker has accepted and dropped changes only in a dispatch that chooses it |
| RequestSteps.ConnectOpens | client/connection.rs:52-62 | a client that connects has the eight bytes of its hello to write, and nothing else has happened to its connection |
| RequestSteps.QueueAppends | client/client/mainstream.rs:45-64 | a queued request joins those sent, and exactly its frame waits behind what waited before |
| RequestSteps.ClientWriteMoves | client/client/mainstream.rs:66-77 | a client's write moves as many bytes as it may |
| RequestSteps.MasterReadMoves | server/runmaster/clientstream.rs:32-50 | the master's read moves as many bytes as it may but none behind the header, and queues the connection exactly when it has the last one |
| RequestSteps.WorkerReadMoves | server/runworker/clientstream.rs:93-104 | a worker's read of a connection that it has adopted moves as many bytes as it may |
| RequestSteps.WorkerAdopts | server/runworker/mod.rs:59-70 | a worker that takes the pair of a connection adopts it, and nothing else about the connection changes |
| RequestSteps.WorkerJoins | server/runmaster/mod.rs:330-352 | a worker that joins is the last of the pool, idle, and nothing else changes |
| RequestSteps.TransferMoves | server/runworker/workerstream.rs:107-136 | a write, a transfer of descriptors and a read on the way to a worker move as much as they may and make one pair if they can, and touch no other worker and no connection |
| RequestSteps.RequestsCanArrive | server/runmaster/mod.rs:164-302 | from every reachable state with an empty queue, a free slot and an idle worker next, a connection that is still at the master can be brought to that worker with every request the client has queued |
| RequestSteps.LaterRequestsCanArrive | server/runworker/clientstream.rs:93-132 | from every reachable state, one whole write and one whole read bring an adopted connection's requests to the worker, all of them |
| MasterLoop.InsertAllAdds | server/runmaster/mod.rs:169-171 | inserting pending streams under unused distinct tokens adds exactly them and replaces none |
| MasterLoop.StartTable | server/runmaster/mod.rs:86-153 | the table at the start: three listeners, then a pipe for output and one for errors of each worker, all watched |
| MasterLoop.TurnHandsOut | server/runmaster/mod.rs:165-173 | a turn hands out the whole queue if there are workers and nothing if there are none, and leaves nothing pending or due |
| MasterLoop.LostAreDropped | server/runmaster/mod.rs:196-221 | exactly the output streams whose interest could not be changed are no longer watched and due for removal |
| MasterLoop.TurnPolls | server/runmaster/mod.rs:223-228 | the events of a turn are those of the streams that poll reports and watches |
| MasterLoop.ClientIsAccepted | server/runmaster/mod.rs:233-256 | an accepted client is pending under the next token, watched, with nothing read; one that cannot be registered leaves only the token used up |
| MasterLoop.StreamIsAccepted | server/runmaster/mod.rs:257-352 | an accepted output stream or worker is in the table under the next token and watched; only a worker joins the pool |
| MasterLoop.ClientReads | server/runmaster/mod.rs:278-296 | a read adds its bytes to the header; with the eighth the connection is queued behind the others, with its descriptor, and no longer watched, and before it neither |
| MasterLoop.ClientReadFails | server/runmaster/mod.rs:283-301 | a failed read, or the end of the connection, leaves it unwatched and due for removal, and queues nothing |
| MasterLoop.OthersAreServed | server/runmaster/mod.rs:303-418 | a failed call of an output, worker or pipe stream leaves it unwatched and due for removal, and an output stream that opens its session is known from then on |
| MasterLoop.CompletedAreQueued | server/runmaster/mod.rs:287-295 | in every reachable state the requests handed out followed by those queued are those of all completed headers, each once and in the order of completion |
| MasterLoop.TurnKeeps | server/runmaster/mod.rs:164-226 | the removals, insertions, dispatch, failing re-registrations and poll of a turn keep the invariant of the table |
| MasterLoop.ServeKeeps | server/runmaster/mod.rs:228-418 | so does the handler of every kind of event, failed registrations, reads and writes included |
| MasterLoop.HandedOffStaysOwned | server/runmaster/mod.rs:278-302 | in every reachable state each queued request belongs to a connection that is in the table with its whole header, not due for removal and not watched, and no other connection has its descriptor |
| MasterLoop.TokensAreFresh | server/runmaster/mod.rs:86-171 | in every reachable state the next token is unused and the pending ones are distinct and unused, so that the next turn inserts every pending stream and replaces none |
| MasterLoop.Loop.constructor | server/runmaster/mod.rs:86-162 | three listeners and two pipes per worker, on consecutive tokens |
| MasterLoop.Loop.BeginTurn | server/runmaster/mod.rs:165-173 | the removal and insertion loops do what the turn of the state machine does; what is handed out and what stays queued are together the queue |
| MasterLoop.Loop.DropStream | server/runmaster/mod.rs:285-286 | the stream is no longer watched and its removal is put off |
| MasterLoop.Loop.ReadHeader | server/runmaster/mod.rs:278-302 | the handler of a client stream does what the state machine does with its read |
| MasterLoop.Loop.ServeEvent | server/runmaster/mod.rs:229-418 | the handler does what the event of the state machine does |
| MasterLoop.Loop.LoseOutputs | server/runmaster/mod.rs:196-221 | the output streams that cannot be registered anew are no longer watched and due for removal |
| MasterLoop.Loop.TakeTurn | server/runmaster/mod.rs:164-226 | a turn up to poll is the turn of the state machine and keeps its invariant |
| MasterLoop.Loop.TakeEvent | server/runmaster/mod.rs:228-418 | serving an event is the event of the state machine and keeps its invariant |
| MasterLoop.Loop.Round | server/runmaster/mod.rs:164-420 | one round of the loop, its whole batch of events included, is a run of the state machine and keeps its invariant |
| WorkerStall.NextKeeps | server/runworker/mod.rs:89-163 | every step of either thread keeps: from the check until it wakes, the loop waits for what the buffer asked for at the check, and the buffer has only grown |
| WorkerStall.LoopMoves | server/runworker/mod.rs:89-143 | each step of the loop that it can take: the check settles the interest by the buffer, the loop blocks, wakes and begins anew, and nothing else changes |
| WorkerStall.BytesMove | server/runworker/workerstream.rs:138-147 | a write of a loop that waits for writability, and a read of the master, move as many bytes as they may |
| WorkerStall.LogMoves | server/runworker/workerstream.rs:67-105 | the Python thread can take the mutex at any moment and the loop before it polls, and an append is noted under its thread |
| WorkerStall.StallsIff | server/runworker/mod.rs:89-143 | over every run of both threads, blocked in poll with bytes to write and no interest in writing if and only if the buffer was empty at the last check and either thread has appended since |
| WorkerStall.StalledUntilCheck | server/runworker/mod.rs:145-163 | until the next check no byte of the log leaves the worker, whatever both threads and the master do |
| WorkerStall.EventLoopStallExample | server/runworker/mod.rs:89-143 | a stream is taken, logged and written out; its first request is logged after the next check, and the loop blocks without waiting to write it |
| WorkerStall.PythonStallExample | server/runworker/pythread.rs:42-62 | a request is queued and started, all frames are written out and the loop blocks idle; the worker stalls when the Python thread logs its end |
| WorkerLoop.Loop.constructor | server/runworker/mod.rs:37-55 | no streams, no work, nothing to write |
| WorkerLoop.Loop.TakeNewStream | server/runworker/mod.rs:59-87 | a bad hello is dropped and uses no token; a good one is inserted under a fresh token and logged, unless it cannot be registered, with read-only interest, nothing read, and a hello to write that tells its client the session |
| WorkerLoop.Loop.SyncWorkerStream | server/runworker/mod.rs:89-104 | at the check the interest of the stream to the master is what its buffer asks for |
| WorkerLoop.Loop.DrainClient | server/runworker/mod.rs:108-123 | all requests of a stream go to the Python thread in order, and the outbuffer grows by the log frame of each |
| WorkerLoop.LogsParse | server/runworker/mod.rs:108-123 | the log bytes of requests handed over are read by the master as one log message for each, in their order |
| WorkerLoop.Loop.SyncClient | server/runworker/mod.rs:125-137 | the stored interest of a stream is what its buffer asks for, and so is the registered one while it is registered |
| WorkerLoop.Loop.ServeClients | server/runworker/mod.rs:106-138 | after one pass each registered client stream waits for writability if and only if it has bytes to write, each stream's requests have gone on in order and under its session id, whatever the order of the streams, and the log has one frame for each in the order in which they went |
| WorkerLoop.Loop.BeforePoll | server/runworker/mod.rs:89-143 | the same when the loop blocks in poll; the stream to the master is then left with bytes and no interest in writing if and only if it was idle at the check and a request was waiting or the Python thread logged after it |
| WorkerLoop.Loop.OnClient | server/runworker/mod.rs:165-180 | a readable stream is read and a writable one written, in that order; one failure leaves it unregistered |
| PipeFrames.PrintedLines | server/runmaster/pipeframe.rs:44-51 | the lines cut out of a buffer, each with its newline, and the tail are the buffer, and no line holds a newline |
| PipeFrames.LinesPrinted | server/runmaster/pipeframe.rs:44-51 | lines printed each with its newline are cut into the same lines |
| PipeFrames.LinesAppend | server/runmaster/pipeframe.rs:44-98 | cutting off the complete lines as they come and keeping the unfinished one gives the lines of the whole output |
| PipeFrames.KindIff | server/runmaster/pipeframe.rs:53-69 | a line starts a session if and only if it is the start tag followed by 32 bytes of text, which are its id; it ends one if and only if it is the end tag |
| PipeFrames.PipeFrame.constructor | server/runmaster/pipeframe.rs:20-27 | an empty buffer and no session |
| PipeFrames.PipeFrame.Read | server/runmaster/pipeframe.rs:29-85 | the whole buffer is scanned from the session that was open; lines in a session are returned under the last one, others are written out; a failed read changes nothing |
| PipeFrames.PipeFrame.Scan | server/runmaster/pipeframe.rs:37-78 | the scanning loop routes exactly the complete lines of the buffer, in order |
| PipeFrames.PipeFrame.TakeLine | server/runmaster/pipeframe.rs:53-77 | a start marker opens its session, an end marker closes it, any other line is saved or written out |
| PipeFrames.PipeFrame.Clear | server/runmaster/pipeframe.rs:87-98 | what is kept is the last newline and the unfinished line, or everything when there was no newline |
| PipeFrames.BeforeMarker | server/runmaster/mod.rs:379-392 | before a start marker comes nothing is delivered and nothing is cleared, for every cut |
| PipeFrames.FirstDelivery | server/runmaster/mod.rs:383-391 | the read that brings the marker delivers the lines after it, without an empty one before them |
| PipeFrames.NextDelivery | server/runmaster/mod.rs:383-391 | each later read delivers its own complete lines after one empty line |
| PipeFrames.SessionLines | server/runmaster/pipeframe.rs:29-98 | for output with one start marker and neither marker after it, over every cut, the deliveries without the leading empty lines of the later ones are the complete lines after the marker, in order, and all carry its session id |
| PipeFrames.OnPipe | server/runmaster/mod.rs:370-418 | a readable pipe sends exactly the delivered lines, framed and tagged, to the output stream of their session and to no other, and clears the pipe unless no session is open |
| PipeRouting.SavedFromNone | server/runmaster/pipeframe.rs:69-84 | a scan that starts with no session instead of an open one saves the same lines if and only if the first line is a mark |
| PipeRouting.PipeState | server/runmaster/mod.rs:379-391 | over every cut, the pipe knows the session that the output is in, and it holds and, in the end, delivers the lines since the last open point, scanned from the session of that point or from none |
| PipeRouting.RightIffClean | server/runmaster/mod.rs:379-391 | if every session had its own lines at the last open point, every session has exactly its own lines now if and only if the output since then is clean, with any number of sessions |
| PipeRouting.RoutedRightIff | server/runmaster/pipeframe.rs:29-98 | over every cut, every session has exactly its own lines at every open point if and only if the output is clean at every open point |
| PipeRouting.OneSessionIsClean | server/runmaster/pipeframe.rs:29-98 | output with one start marker and neither marker after it is clean over every cut, and what follows the marker is what its session has |
| PipeRouting.MisroutedExample | server/runmaster/mod.rs:379-391 | a session that starts, prints and ends in one read is not delivered, and the session that starts in the next read gets its line |
| PipeRouting.LostLineExample | server/runmaster/mod.rs:379-391 | a line that comes in the read that ends its session is delivered to nobody, although the same session is opened again in the next read |
| PipeEchoes.EchoIs | server/runmaster/pipeframe.rs:69-77 | over every cut, a read writes, of the lines since the last open point, those outside any session for a scan that starts as the previous read ended, after an empty line when the pipe was cleared before |
| PipeEchoes.EchoedAreLines | server/runmaster/pipeframe.rs:44-78 | a scan writes each line that stands outside once, in order, and nothing else |
| PipeEchoes.TimesWritten | server/runmaster/mod.rs:379-391 | over every cut and for every plain line, how often the master has written it: by every read of its stretch when it is outside, by every one but the first when it belongs to the session before without a mark between, else never |
| OutputPath.DeliveredIsSent | server/runmaster/mod.rs:370-418 | over every order of moves on both pipes, what is sent on a session's stream under one tag is what the session was given from that pipe, in order |
| OutputPath.ClientGetsReceived | client/client/outputstream.rs:29-69 | over every order of moves, the client has got, of each tag, a prefix of what the session was given from that pipe, and all of it when the stream is drained, however its reads were cut |
| OutputPath.ClientCanGetAll | server/runmaster/mod.rs:370-418 | from every state, one whole write and one whole read bring the client everything that its session was given |
| OutputPath.SessionsReachClients | server/runmaster/mod.rs:370-418 | with any number of sessions, when the output of a pipe is clean at every open point, the client of every session has got a prefix of the session's own lines on that pipe, and all of them when drained and clean |
| OutputPath.SessionReachesClient | client/client/outputstream.rs:29-69 | for a pipe with one session, whatever the other pipe carries, the client has got a prefix of the complete lines after the marker, and all of them when the stream is drained |

## Left out

- Sockets, polling, registration, descriptor passing and process start: bytes and descriptors are FIFO queues, and what
  a call answers is a parameter. Re-registration is taken to succeed where the code treats its failure as fatal.
- The descriptor queue of the fd-queue crate: a bounded FIFO of any capacity whose descriptors arrive in order at any time, before or after their headers.
- Serialization other than the bodies listed: log records and print messages are opaque bodies, so the `expect` on them
  at the master (server/runmaster/workerstream.rs:169-179) is not part of this model; bincode's size limits are those of 64 bits.
- Running Python code, pickling and sending results (server/runworker/pythread.rs): no result is sent back in this
  version, so responses are arbitrary input to the client.
- The Python wrapper, `Future::wait`, closing, and the exits of the client loop (client/client/mod.rs:199-204, 217, 273-275).
- Configuration, log text, random session ids (parameters), error wrapping, buffer capacities and the 4096-byte read size.
- The interests of the master's own streams (server/runmaster/mod.rs:175-221): only the failures of re-registration are kept.
- The list `to_remove` of a worker, which is filled and never read (server/runworker/mod.rs:55), so streams stay in its table.
- Errors of writing to the master's own standard output in `PipeFrame::read`.
- MasterLoop.Loop.ServeEvent: of output, worker and pipe streams only the outcome of their calls is a parameter, because their
  own behaviour is modelled in OutputStreams, WorkerLinks and PipeFrames.
- MasterLoop.HandedOffStaysOwned: takes at most one event per token and poll, and none for a stream that is no longer registered.
- RequestPath.RequestsArrive: closed connections, failing calls and failing registrations are not steps of the system, so nothing is
  said of a connection after one; requests are code strings shorter than 2^32 bytes, the only ones a client sends.
- RequestSteps.RequestsCanArrive: asks for an empty queue and an idle worker next, because a worker that still has unpaired requests
  makes one pair per read, of the oldest (WorkerLinks.AllPairedIff says when it catches up).
- WorkerLoop.Loop.BeforePoll: appends the Python thread's frames after those of the loop, where they can fall between them; every order is in WorkerStall and LogChannel.
- PipeFrames.SessionLines: assumes a single open session; PipeRouting has any number of them.
- OutputPath.ClientGetsReceived: the two pipes of one worker, with the output stream open before the first delivery, since lines for a session without one are gone.
- WorkerLinks.WorkerStream.Read: returns the frames; the panic on a body that does not deserialize (server/runmaster/workerstream.rs:169-179) is not modelled.
- ClientStream values: the worker's table owns its streams, so WorkerLoop keeps them as values of WorkerClientStream.State, with the
  functions Reading and Writing that the methods of the class are proved equal to.
