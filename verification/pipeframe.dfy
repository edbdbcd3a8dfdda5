/** server/runmaster/pipeframe.rs: the standard output of a worker, cut into lines and routed to the session
    that a start marker opened. */
module PipeFrames {
  import opened Bytes
  import opened Io
  import Bincode
  import C = Channels
  import O = OutputStreams
  import P = Protocol

  const NEWLINE: byte := 10
  const SESSION_ID_LENGTH := 16

  function HexDigit(n: byte): (d: byte)
    requires n < 16
    ensures 48 <= d <= 57 || 97 <= d <= 102
  {
    if n < 10 then 48 + n else 87 + n
  }

  /** Two lower-case digits for each byte. */
  function Hex(b: bytes): (h: bytes)
    ensures |h| == 2 * |b|
    ensures forall i :: 0 <= i < |h| ==> 48 <= h[i] <= 57 || 97 <= h[i] <= 102
  {
    seq(2 * |b|, i requires 0 <= i < 2 * |b| => HexDigit(if i % 2 == 0 then b[i / 2] / 16 else b[i / 2] % 16))
  }

  function DigitValue(d: byte): int {
    if d <= 57 then d as int - 48 else d as int - 87
  }

  lemma HexReadsBack(b: bytes, i: nat)
    requires i < |b|
    ensures DigitValue(Hex(b)[2 * i]) * 16 + DigitValue(Hex(b)[2 * i + 1]) == b[i] as int
  {
    assert (2 * i) / 2 == i && (2 * i + 1) / 2 == i && (2 * i + 1) % 2 == 1;
  }

  const NEW_REQUEST_START := Hex([
    0x8b, 0x58, 0x8b, 0x6f, 0xbb, 0x7e, 0xaa, 0x6a, 0x66, 0xda, 0x43, 0x8c, 0x0d, 0xc1, 0xcc, 0xed,
    0x45, 0xc9, 0xc5, 0x5c, 0xdf, 0x1e, 0xb1, 0x37, 0xba, 0x13, 0x3b, 0xa1, 0xd7, 0xd9, 0x5b, 0x5b])

  const NEW_REQUEST_END := Hex([
    0x96, 0x23, 0x75, 0xa5, 0xe9, 0xff, 0xb9, 0x4b, 0x82, 0x2a, 0x69, 0x90, 0x2f, 0x46, 0x2e, 0x33,
    0x94, 0xb3, 0x3a, 0x51, 0xfb, 0xd1, 0x7d, 0x96, 0x39, 0xcd, 0x0f, 0x6a, 0x96, 0x40, 0x26, 0x8d])

  // Lines.

  function Tail(b: bytes): (t: bytes)
    ensures |t| <= |b| && t == b[|b| - |t|..]
  {
    if b == [] || b[|b| - 1] == NEWLINE then [] else Tail(b[..|b| - 1]) + [b[|b| - 1]]
  }

  /** The complete lines of a byte string, and what follows the last newline. */
  function Lines(b: bytes): seq<bytes> {
    if b == [] then []
    else if b[|b| - 1] == NEWLINE then Lines(b[..|b| - 1]) + [Tail(b[..|b| - 1])]
    else Lines(b[..|b| - 1])
  }

  lemma OneMoreByte(b: bytes, c: byte)
    ensures Lines(b + [c]) == if c == NEWLINE then Lines(b) + [Tail(b)] else Lines(b)
    ensures Tail(b + [c]) == if c == NEWLINE then [] else Tail(b) + [c]
  {
    assert (b + [c])[..|b|] == b;
  }

  lemma {:induction false} TailIsUnfinished(b: bytes)
    ensures Lines(Tail(b)) == [] && Tail(Tail(b)) == Tail(b)
  {
    if b == [] || b[|b| - 1] == NEWLINE {
    } else {
      TailIsUnfinished(b[..|b| - 1]);
      OneMoreByte(Tail(b[..|b| - 1]), b[|b| - 1]);
    }
  }

  /** Lines may be cut off as they come: the unfinished one is all that has to be kept. */
  lemma {:induction false} LinesAppend(a: bytes, b: bytes)
    ensures Lines(a + b) == Lines(a) + Lines(Tail(a) + b)
    ensures Tail(a + b) == Tail(Tail(a) + b)
  {
    hide Lines, Tail;
    if b == [] {
      assert a + b == a && Tail(a) + b == Tail(a);
      TailIsUnfinished(a);
    } else {
      var most, last := b[..|b| - 1], b[|b| - 1];
      LinesAppend(a, most);
      assert b == most + [last];
      Associates(a, most, [last]);
      Associates(Tail(a), most, [last]);
      OneMoreByte(a + most, last);
      OneMoreByte(Tail(a) + most, last);
      if last == NEWLINE {
        var x := Tail(a + most);
        assert Lines(a) + Lines(Tail(a) + most) + [x] == Lines(a) + (Lines(Tail(a) + most) + [x]);
      }
    }
  }

  lemma NoBytes()
    ensures Lines([]) == [] && Tail([]) == []
  {
  }

  /** Lines as a process prints them. */
  function Printed(lines: seq<bytes>): bytes {
    if lines == [] then [] else Printed(lines[..|lines| - 1]) + lines[|lines| - 1] + [NEWLINE]
  }

  /** Cutting and printing are inverse: the lines with their newlines, and the tail, are the bytes. */
  lemma {:induction false} PrintedLines(b: bytes)
    ensures Printed(Lines(b)) + Tail(b) == b
    ensures NEWLINE !in Tail(b) && forall l :: l in Lines(b) ==> NEWLINE !in l
  {
    if b == [] {
    } else {
      var most, last := b[..|b| - 1], b[|b| - 1];
      PrintedLines(most);
      assert b == most + [last];
      if last == NEWLINE {
        assert Lines(b)[..|Lines(most)|] == Lines(most);
      } else {
        Associates(Printed(Lines(most)), Tail(most), [last]);
      }
    }
  }

  lemma PrintedOne(lines: seq<bytes>, line: bytes)
    ensures Printed(lines + [line]) == Printed(lines) + line + [NEWLINE]
  {
    assert (lines + [line])[..|lines|] == lines;
  }

  lemma NothingPrinted()
    ensures Printed([]) == []
  {
  }

  lemma {:induction false} LinesPrinted(lines: seq<bytes>, tail: bytes)
    requires NEWLINE !in tail && forall l :: l in lines ==> NEWLINE !in l
    ensures Lines(Printed(lines) + tail) == lines && Tail(Printed(lines) + tail) == tail
    decreases |lines|, |tail|
  {
    hide Lines, Tail, Printed;
    if tail != [] {
      var most, last := tail[..|tail| - 1], tail[|tail| - 1];
      assert tail == most + [last] && last in tail;
      LinesPrinted(lines, most);
      OneMoreByte(Printed(lines) + most, last);
      Associates(Printed(lines), most, [last]);
    } else if lines != [] {
      var most, last := lines[..|lines| - 1], lines[|lines| - 1];
      assert lines == most + [last] && last in lines;
      LinesPrinted(most, last);
      PrintedOne(most, last);
      OneMoreByte(Printed(most) + last, NEWLINE);
      assert Printed(lines) + [] == Printed(lines);
    } else {
      NoBytes();
      assert Printed(lines) + tail == [] by { NothingPrinted(); }
    }
  }

  lemma NewlineFirst(b: bytes)
    ensures Lines([NEWLINE] + b) == [[]] + Lines(b)
    ensures Tail([NEWLINE] + b) == Tail(b)
  {
    hide Lines, Tail;
    NoBytes();
    OneMoreByte([], NEWLINE);
    assert [] + [NEWLINE] == [NEWLINE] && [] + b == b;
    assert Lines([NEWLINE]) == [[]];
    LinesAppend([NEWLINE], b);
  }

  lemma NextByte(data: bytes, n: nat)
    requires n < |data|
    ensures var before, c := data[..n], data[n];
            && Lines(data[..n + 1]) == (if c == NEWLINE then Lines(before) + [Tail(before)] else Lines(before))
            && Tail(data[..n + 1]) == (if c == NEWLINE then [] else Tail(before) + [c])
            && Tail(before) == data[n - |Tail(before)|..n]
  {
    assert data[..n + 1] == data[..n] + [data[n]];
    OneMoreByte(data[..n], data[n]);
  }

  lemma TailIsLast(data: bytes, start: nat)
    requires start == |data| - |Tail(data)|
    ensures start > 0 ==> data[start - 1..] == [data[start - 1]] + Tail(data)
  {
  }

  // Routing.

  datatype LineKind = StartOf(sessionId: bytes) | EndOf | Plain

  function Kind(line: bytes): LineKind {
    var n := |NEW_REQUEST_START|;
    if |line| == n + SESSION_ID_LENGTH * 2 && line[..n] == NEW_REQUEST_START && Bincode.ValidUtf8(line[n..])
    then StartOf(line[n..])
    else if line == NEW_REQUEST_END then EndOf
    else Plain
  }

  /** Which lines are marks: the two tags are 64 digits each, and a start is followed by 32 bytes of text. */
  lemma KindIff(line: bytes, id: bytes)
    ensures Kind(line) == StartOf(id) <==>
              && line == NEW_REQUEST_START + id && |id| == 32
              && exists cs: seq<Bincode.Scalar> :: Bincode.EncodeChars(cs) == id
    ensures Kind(line) == EndOf <==> line == NEW_REQUEST_END
    ensures |NEW_REQUEST_START| == 64 == |NEW_REQUEST_END|
  {
    hide Bincode.ValidUtf8;
    Bincode.ValidUtf8Iff(id);
  }

  /** The open session, the lines saved for it, and the lines written to the master's own output. */
  datatype Route = Route(session: Option<bytes>, saved: seq<bytes>, echoed: seq<bytes>)

  function RouteLine(r: Route, line: bytes): Route {
    match Kind(line)
    case StartOf(id) => r.(session := Some(id))
    case EndOf => r.(session := None)
    case Plain => if r.session.Some? then r.(saved := r.saved + [line]) else r.(echoed := r.echoed + [line])
  }

  function RouteLines(session: Option<bytes>, lines: seq<bytes>): Route {
    if lines == [] then Route(session, [], [])
    else RouteLine(RouteLines(session, lines[..|lines| - 1]), lines[|lines| - 1])
  }

  lemma NoLines(session: Option<bytes>)
    ensures RouteLines(session, []) == Route(session, [], [])
  {
  }

  lemma RouteOneMore(session: Option<bytes>, lines: seq<bytes>, line: bytes)
    ensures RouteLines(session, lines + [line]) == RouteLine(RouteLines(session, lines), line)
  {
    assert (lines + [line])[..|lines|] == lines;
  }

  /** A turn of the scan, at byte `n` of a line that began at `start`. */
  lemma ScanTurn(session: Option<bytes>, data: bytes, start: nat, n: nat)
    requires n < |data| && start + |Tail(data[..n])| == n
    ensures data[n] == NEWLINE ==>
              && RouteLines(session, Lines(data[..n + 1])) ==
                 RouteLine(RouteLines(session, Lines(data[..n])), data[start..n])
              && Tail(data[..n + 1]) == [] && Lines(data[..n + 1]) != []
    ensures data[n] != NEWLINE ==>
              Lines(data[..n + 1]) == Lines(data[..n]) && |Tail(data[..n + 1])| == |Tail(data[..n])| + 1
  {
    hide Lines, Tail, RouteLines, RouteLine;
    NextByte(data, n);
    RouteOneMore(session, Lines(data[..n]), data[start..n]);
  }

  datatype Delivery = Delivery(sessionId: bytes, lines: seq<bytes>)

  class PipeFrame {
    var buffer: bytes
    var currentSessionId: Option<bytes>
    var lastNewline: Option<nat>

    ghost predicate Valid()
      reads this
    {
      lastNewline.Some? ==> lastNewline.value < |buffer| && buffer[lastNewline.value..] == [NEWLINE] + Tail(buffer)
    }

    constructor ()
      ensures Valid() && buffer == [] && currentSessionId == None && lastNewline == None
    {
      buffer, currentSessionId, lastNewline := [], None, None;
    }

    /** The whole buffer is scanned on every read, from the session that the last scan ended in. */
    method Read(r: ReadOutcome) returns (ok: bool, delivery: Option<Delivery>, echoed: seq<bytes>)
      requires Valid()
      modifies this
      ensures Valid() && (ok <==> r.ReadBytes?)
      ensures !ok ==> delivery == None && echoed == []
      ensures !ok ==> buffer == old(buffer) && lastNewline == old(lastNewline)
      ensures !ok ==> currentSessionId == old(currentSessionId)
      ensures ok ==>
                && buffer == old(buffer) + r.chunk
                && (lastNewline == None <==> Lines(buffer) == [])
                && var route := RouteLines(old(currentSessionId), Lines(buffer));
                   && currentSessionId == route.session && echoed == route.echoed
                   && delivery == if route.session.None? then None else Some(Delivery(route.session.value, route.saved))
    {
      echoed := [];
      if r.ReadFailed? {
        return false, None, echoed;
      }
      buffer := buffer + r.chunk;
      var lines: seq<bytes>;
      hide Kind, Lines, Tail, RouteLines;
      lines, echoed := Scan();
      ok := true;
      delivery := if currentSessionId.None? then None else Some(Delivery(currentSessionId.value, lines));
    }

    method Scan() returns (lines: seq<bytes>, echoed: seq<bytes>)
      modifies `currentSessionId, `lastNewline
      ensures Valid()
      ensures Route(currentSessionId, lines, echoed) == RouteLines(old(currentSessionId), Lines(buffer))
      ensures lastNewline == None <==> Lines(buffer) == []
    {
      hide Kind, Lines, Tail, RouteLines, RouteLine;
      NoBytes();
      NoLines(currentSessionId);
      assert buffer[..0] == [];
      var start := 0;
      lastNewline, lines, echoed := None, [], [];
      for n := 0 to |buffer|
        invariant 0 <= start <= n && start == n - |Tail(buffer[..n])|
        invariant Route(currentSessionId, lines, echoed) == RouteLines(old(currentSessionId), Lines(buffer[..n]))
        invariant lastNewline.None? <==> Lines(buffer[..n]) == []
        invariant lastNewline.Some? ==> start == lastNewline.value + 1 && buffer[lastNewline.value] == NEWLINE
      {
        ScanTurn(old(currentSessionId), buffer, start, n);
        if buffer[n] == NEWLINE {
          var line := buffer[start..n];
          lastNewline := Some(n);
          start := n + 1;
          lines, echoed := TakeLine(line, lines, echoed);
        }
      }
      assert buffer[..|buffer|] == buffer;
      TailIsLast(buffer, start);
    }

    method TakeLine(line: bytes, lines: seq<bytes>, echoed: seq<bytes>) returns (saved: seq<bytes>, written: seq<bytes>)
      modifies `currentSessionId
      ensures Route(currentSessionId, saved, written) == RouteLine(Route(old(currentSessionId), lines, echoed), line)
    {
      hide Kind;
      saved, written := lines, echoed;
      match Kind(line)
      case StartOf(id) => currentSessionId := Some(id);
      case EndOf => currentSessionId := None;
      case Plain =>
        if currentSessionId.Some? {
          saved := saved + [line];
        } else {
          written := written + [line];
        }
    }

    /** What is kept starts with the last newline itself. */
    method Clear()
      requires Valid()
      modifies this
      ensures Valid() && lastNewline == None && currentSessionId == old(currentSessionId)
      ensures buffer == if old(lastNewline).Some? then [NEWLINE] + Tail(old(buffer)) else old(buffer)
    {
      if lastNewline.Some? {
        buffer := DropFront(buffer, lastNewline.value);
      }
      lastNewline := None;
    }
  }

  // What the master does with a readable pipe (server/runmaster/mod.rs): it delivers and clears, unless no
  // session is open.

  datatype Pipe = Pipe(buffer: bytes, session: Option<bytes>, deliveries: seq<Delivery>)

  function Readable(p: Pipe, chunk: bytes): Pipe {
    var buffer := p.buffer + chunk;
    var route := RouteLines(p.session, Lines(buffer));
    if route.session.None? then Pipe(buffer, None, p.deliveries)
    else Pipe(if Lines(buffer) == [] then buffer else [NEWLINE] + Tail(buffer), route.session,
              p.deliveries + [Delivery(route.session.value, route.saved)])
  }

  function Tagged(lines: seq<bytes>, fd: P.OutputType): seq<P.PipeOut> {
    seq(|lines|, i requires 0 <= i < |lines| => P.PipeOut(lines[i], fd))
  }

  lemma TaggedOne(lines: seq<bytes>, n: nat, fd: P.OutputType)
    requires n < |lines|
    ensures C.Encoded(O.EncodeLine, Tagged(lines[..n + 1], fd))
         == C.Encoded(O.EncodeLine, Tagged(lines[..n], fd)) + O.EncodeLine(P.PipeOut(lines[n], fd))
  {
    assert Tagged(lines[..n + 1], fd) == Tagged(lines[..n], fd) + [P.PipeOut(lines[n], fd)];
    C.EncodedOne(O.EncodeLine, Tagged(lines[..n], fd), P.PipeOut(lines[n], fd));
  }

  lemma NothingEncoded()
    ensures C.Encoded(O.EncodeLine, []) == []
  {
  }

  method SendLines(out: O.OutputStream, lines: seq<bytes>, fd: P.OutputType)
    modifies out`outbuffer
    ensures out.outbuffer == old(out.outbuffer) + C.Encoded(O.EncodeLine, Tagged(lines, fd))
  {
    hide C.Encoded, O.EncodeLine;
    NothingEncoded();
    assert Tagged(lines[..0], fd) == [];
    for n := 0 to |lines|
      invariant out.outbuffer == old(out.outbuffer) + C.Encoded(O.EncodeLine, Tagged(lines[..n], fd))
    {
      TaggedOne(lines, n, fd);
      Associates(old(out.outbuffer), C.Encoded(O.EncodeLine, Tagged(lines[..n], fd)),
                 O.EncodeLine(P.PipeOut(lines[n], fd)));
      match fd
      case Stdout => out.SendStdout(lines[n]);
      case Stderr => out.SendStderr(lines[n]);
    }
    assert lines[..|lines|] == lines;
  }

  /** The event of a worker's standard output or error. The lines go, framed and tagged, to the output stream
      of their session; without such a stream they are gone, and without a session the pipe is not cleared.
      One stream can stand under several ids. */
  method OnPipe(pipe: PipeFrame, fd: P.OutputType, r: ReadOutcome, outputs: map<bytes, O.OutputStream>)
    returns (ok: bool, echoed: seq<bytes>)
    requires pipe.Valid()
    modifies pipe, outputs.Values`outbuffer
    ensures pipe.Valid() && (ok <==> r.ReadBytes?)
    ensures !ok ==> pipe.buffer == old(pipe.buffer) && pipe.currentSessionId == old(pipe.currentSessionId)
    ensures !ok ==> echoed == [] && forall o :: o in outputs.Values ==> o.outbuffer == old(o.outbuffer)
    ensures ok ==> echoed == RouteLines(old(pipe.currentSessionId), Lines(old(pipe.buffer) + r.chunk)).echoed
    ensures ok ==>
              var p := Readable(Pipe(old(pipe.buffer), old(pipe.currentSessionId), []), r.chunk);
              && pipe.buffer == p.buffer && pipe.currentSessionId == p.session
              && forall o :: o in outputs.Values ==>
                   o.outbuffer == old(o.outbuffer) +
                     if p.deliveries != [] && p.deliveries[0].sessionId in outputs
                        && outputs[p.deliveries[0].sessionId] == o
                     then C.Encoded(O.EncodeLine, Tagged(p.deliveries[0].lines, fd)) else []
  {
    hide Lines, Tail, RouteLines, Kind, C.Encoded, O.EncodeLine;
    var delivery: Option<Delivery>;
    ok, delivery, echoed := pipe.Read(r);
    if delivery.None? {
      return;
    }
    var d := delivery.value;
    if d.sessionId in outputs {
      SendLines(outputs[d.sessionId], d.lines, fd);
    }
    pipe.Clear();
  }

  function RunPipe(chunks: seq<bytes>): Pipe {
    if chunks == [] then Pipe([], None, []) else Readable(RunPipe(chunks[..|chunks| - 1]), chunks[|chunks| - 1])
  }

  /** The lines of the deliveries, without the empty line that every delivery but the first begins with. */
  function Collected(deliveries: seq<Delivery>): seq<bytes> {
    if deliveries == [] then []
    else
      var most, last := Collected(deliveries[..|deliveries| - 1]), deliveries[|deliveries| - 1].lines;
      most + (if |deliveries| > 1 && last != [] then last[1..] else last)
  }

  ghost predicate NoStart(lines: seq<bytes>) {
    forall l :: l in lines ==> !Kind(l).StartOf?
  }

  ghost predicate AllPlain(lines: seq<bytes>) {
    forall l :: l in lines ==> Kind(l).Plain?
  }

  lemma {:induction false} NoStartRoutes(lines: seq<bytes>)
    requires NoStart(lines)
    ensures RouteLines(None, lines).session == None && RouteLines(None, lines).saved == []
  {
    hide Kind;
    if lines == [] {
    } else {
      NoStartRoutes(lines[..|lines| - 1]);
    }
  }

  /** In an open session plain lines are saved. */
  lemma {:induction false} PlainRoutes(session: Option<bytes>, before: seq<bytes>, lines: seq<bytes>)
    requires AllPlain(lines) && RouteLines(session, before).session.Some?
    ensures var r := RouteLines(session, before);
            RouteLines(session, before + lines) == r.(saved := r.saved + lines)
  {
    hide Kind, RouteLines;
    if lines == [] {
      assert before + lines == before;
    } else {
      var most, last := lines[..|lines| - 1], lines[|lines| - 1];
      PlainRoutes(session, before, most);
      assert before + lines == (before + most) + [last];
      RouteOneMore(session, before + most, last);
      assert most + [last] == lines;
    }
  }

  lemma OpenSessionRoutes(pre: seq<bytes>, marker: bytes, post: seq<bytes>)
    requires NoStart(pre) && Kind(marker).StartOf? && AllPlain(post)
    ensures var r := RouteLines(None, pre + [marker] + post);
            r.session == Some(Kind(marker).sessionId) && r.saved == post
  {
    hide Kind, RouteLines;
    NoStartRoutes(pre);
    RouteOneMore(None, pre, marker);
    PlainRoutes(None, pre + [marker], post);
  }

  lemma EmptyLineIsPlain()
    ensures Kind([]).Plain?
  {
  }

  lemma ContinuedSessionRoutes(id: bytes, lines: seq<bytes>)
    requires AllPlain(lines)
    ensures RouteLines(Some(id), [[]] + lines) == Route(Some(id), [[]] + lines, [])
  {
    hide Kind, RouteLines;
    EmptyLineIsPlain();
    NoLines(Some(id));
    assert forall l :: l in [[]] + lines ==> l == [] || l in lines;
    PlainRoutes(Some(id), [], [[]] + lines);
    assert [] + ([[]] + lines) == [[]] + lines;
  }

  /** The state of the pipe when the start marker has not come yet. */
  lemma {:induction false} BeforeMarker(chunks: seq<bytes>)
    requires NoStart(Lines(Flatten(chunks)))
    ensures RunPipe(chunks) == Pipe(Flatten(chunks), None, [])
  {
    hide Kind, Lines, Tail, RouteLines;
    if chunks == [] {
    } else {
      var most := chunks[..|chunks| - 1];
      FlattenLast(chunks);
      LinesAppend(Flatten(most), chunks[|chunks| - 1]);
      BeforeMarker(most);
      NoStartRoutes(Lines(Flatten(chunks)));
    }
  }

  /** The state of the pipe once it has: the deliveries so far, and an unfinished line after a newline. */
  ghost predicate InSession(p: Pipe, id: bytes, lines: seq<bytes>, tail: bytes) {
    && p.session == Some(id)
    && p.buffer == [NEWLINE] + tail
    && p.deliveries != []
    && (forall d :: d in p.deliveries ==> d.sessionId == id)
    && (forall i :: 0 < i < |p.deliveries| ==> p.deliveries[i].lines != [] && p.deliveries[i].lines[0] == [])
    && Collected(p.deliveries) == lines
  }

  lemma FirstDelivery(p: Pipe, chunk: bytes, pre: seq<bytes>, marker: bytes, post: seq<bytes>)
    requires NoStart(pre) && Kind(marker).StartOf? && AllPlain(post)
    requires p.session == None && p.deliveries == []
    requires Lines(p.buffer + chunk) == pre + [marker] + post
    ensures InSession(Readable(p, chunk), Kind(marker).sessionId, post, Tail(p.buffer + chunk))
  {
    hide Kind, Lines, Tail, RouteLines;
    OpenSessionRoutes(pre, marker, post);
    assert (pre + [marker] + post)[|pre|] == marker;
    var q := Readable(p, chunk);
    assert q.deliveries == [Delivery(Kind(marker).sessionId, post)];
    assert q.deliveries[..0] == [] && Collected([]) == [];
    assert [] + post == post;
  }

  lemma NextDelivery(p: Pipe, chunk: bytes, id: bytes, lines: seq<bytes>, tail: bytes)
    requires InSession(p, id, lines, tail)
    requires AllPlain(Lines(tail + chunk))
    ensures InSession(Readable(p, chunk), id, lines + Lines(tail + chunk), Tail(tail + chunk))
  {
    hide Kind, Lines, Tail, RouteLines;
    var more, q := Lines(tail + chunk), Readable(p, chunk);
    Associates([NEWLINE], tail, chunk);
    NewlineFirst(tail + chunk);
    ContinuedSessionRoutes(id, more);
    assert q.deliveries[..|p.deliveries|] == p.deliveries;
    assert ([[]] + more)[1..] == more;
  }

  lemma SomeChunk(chunks: seq<bytes>, lines: seq<bytes>)
    requires Lines(Flatten(chunks)) == lines && lines != []
    ensures chunks != []
  {
  }

  /** Session routing: for a pipe whose output has one start marker, and then neither marker again, the
      deliveries over any cut of it into reads, minus one leading empty line from each delivery after the
      first, are the complete lines after the marker, in order, and all carry the id of the marker. */
  lemma {:induction false} SessionLines(chunks: seq<bytes>, pre: seq<bytes>, marker: bytes, post: seq<bytes>)
    requires NoStart(pre) && Kind(marker).StartOf? && AllPlain(post)
    requires Lines(Flatten(chunks)) == pre + [marker] + post
    ensures InSession(RunPipe(chunks), Kind(marker).sessionId, post, Tail(Flatten(chunks)))
  {
    hide Kind, Lines, Tail, RouteLines, InSession, Readable, Flatten;
    SomeChunk(chunks, pre + [marker] + post);
    var most, chunk := chunks[..|chunks| - 1], chunks[|chunks| - 1];
    FlattenLast(chunks);
    var got := Flatten(most);
    LinesAppend(got, chunk);
    var n := |Lines(got)|;
    var all := pre + [marker] + post;
    assert Lines(got) == all[..n] && Lines(Tail(got) + chunk) == all[n..];
    if n <= |pre| {
      assert all[..n] == pre[..n];
      BeforeMarker(most);
      FirstDelivery(RunPipe(most), chunk, pre, marker, post);
    } else {
      var k := n - |pre| - 1;
      assert all[..n] == pre + [marker] + post[..k] && all[n..] == post[k..];
      SessionLines(most, pre, marker, post[..k]);
      NextDelivery(RunPipe(most), chunk, Kind(marker).sessionId, post[..k], Tail(got));
      assert post[..k] + post[k..] == post;
    }
  }
}
