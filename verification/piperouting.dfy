/** Output of a worker with any number of sessions: which of its lines the deliveries of the pipe give to
    which session. Where a line belongs is decided by the marks before it in the whole output, not by what
    the pipe remembers. */
module PipeRouting {
  import opened Bytes
  import opened PipeFrames
  import Bincode

  // Lines and the sessions they stand in.

  /** The plain lines that stand in a session of the given id. */
  function LinesIn(session: Option<bytes>, lines: seq<bytes>, id: bytes): seq<bytes> {
    if lines == [] then [] else
    var most, last := lines[..|lines| - 1], lines[|lines| - 1];
    LinesIn(session, most, id)
    + (if Kind(last).Plain? && RouteLines(session, most).session == Some(id) then [last] else [])
  }

  /** Every plain line stands in one of the sessions of `allowed`; `None` is no session at all. */
  predicate AllStandIn(session: Option<bytes>, lines: seq<bytes>, allowed: set<Option<bytes>>) {
    lines == [] ||
    (AllStandIn(session, lines[..|lines| - 1], allowed) &&
     (Kind(lines[|lines| - 1]).Plain? ==> RouteLines(session, lines[..|lines| - 1]).session in allowed))
  }

  /** Routing, continued after `a`. */
  lemma {:induction false} RouteAppend(session: Option<bytes>, a: seq<bytes>, b: seq<bytes>)
    ensures var r := RouteLines(session, a); var q := RouteLines(r.session, b);
            RouteLines(session, a + b) == Route(q.session, r.saved + q.saved, r.echoed + q.echoed)
  {
    hide Kind, RouteLines;
    if b == [] {
      NoLines(RouteLines(session, a).session);
      assert a + b == a;
    } else {
      var most, last := b[..|b| - 1], b[|b| - 1];
      RouteAppend(session, a, most);
      assert b == most + [last] && a + b == (a + most) + [last];
      RouteOneMore(session, a + most, last);
      RouteOneMore(RouteLines(session, a).session, most, last);
    }
  }

  lemma {:induction false} LinesInAppend(session: Option<bytes>, a: seq<bytes>, b: seq<bytes>, id: bytes)
    ensures LinesIn(session, a + b, id) == LinesIn(session, a, id) + LinesIn(RouteLines(session, a).session, b, id)
  {
    hide Kind, RouteLines;
    if b == [] {
      assert a + b == a;
    } else {
      var most, last := b[..|b| - 1], b[|b| - 1];
      LinesInAppend(session, a, most, id);
      RouteAppend(session, a, most);
      assert (a + b)[..|a + b| - 1] == a + most;
    }
  }

  lemma RouteFirst(session: Option<bytes>, line: bytes)
    ensures RouteLines(session, [line]) == RouteLine(Route(session, [], []), line)
  {
    hide Kind;
    NoLines(session);
    RouteOneMore(session, [], line);
    assert [] + [line] == [line];
  }

  /** What a scan saves, against the lines that stand in one session. */
  lemma {:induction false} OwnLinesAreSaved(session: Option<bytes>, lines: seq<bytes>, id: bytes)
    ensures |LinesIn(session, lines, id)| <= |RouteLines(session, lines).saved|
    ensures AllStandIn(session, lines, {None, Some(id)}) ==>
              LinesIn(session, lines, id) == RouteLines(session, lines).saved
  {
    hide Kind;
    if lines == [] {
    } else {
      OwnLinesAreSaved(session, lines[..|lines| - 1], id);
    }
  }

  lemma {:induction false} NothingSaved(session: Option<bytes>, lines: seq<bytes>)
    ensures AllStandIn(session, lines, {None}) <==> RouteLines(session, lines).saved == []
    ensures AllStandIn(session, lines, {None}) <==> forall id :: LinesIn(session, lines, id) == []
  {
    hide Kind;
    if lines == [] {
    } else {
      var most, last := lines[..|lines| - 1], lines[|lines| - 1];
      NothingSaved(session, most);
      if !AllStandIn(session, most, {None}) {
        var id :| LinesIn(session, most, id) != [];
        assert |LinesIn(session, lines, id)| >= |LinesIn(session, most, id)|;
      } else if !AllStandIn(session, lines, {None}) {
        var id := RouteLines(session, most).session.value;
        assert LinesIn(session, lines, id) == LinesIn(session, most, id) + [last];
      } else {
        forall id ensures LinesIn(session, lines, id) == [] {
          assert LinesIn(session, most, id) == [];
        }
      }
    }
  }

  lemma {:induction false} OthersPrinted(session: Option<bytes>, lines: seq<bytes>, id: bytes)
    ensures AllStandIn(session, lines, {None, Some(id)}) <==>
            forall other :: other != id ==> LinesIn(session, lines, other) == []
  {
    hide Kind;
    if lines == [] {
    } else {
      var most, last := lines[..|lines| - 1], lines[|lines| - 1];
      OthersPrinted(session, most, id);
      if !AllStandIn(session, most, {None, Some(id)}) {
        var other :| other != id && LinesIn(session, most, other) != [];
        assert |LinesIn(session, lines, other)| >= |LinesIn(session, most, other)|;
      } else if !AllStandIn(session, lines, {None, Some(id)}) {
        var other := RouteLines(session, most).session.value;
        assert LinesIn(session, lines, other) == LinesIn(session, most, other) + [last];
      } else {
        forall other | other != id ensures LinesIn(session, lines, other) == [] {
          assert LinesIn(session, most, other) == [];
        }
      }
    }
  }

  lemma NoneOfAnother(session: Option<bytes>, lines: seq<bytes>, id: bytes, other: bytes)
    requires AllStandIn(session, lines, {None, Some(id)}) && other != id
    ensures LinesIn(session, lines, other) == []
  {
    OthersPrinted(session, lines, id);
  }

  lemma NoneOfAny(session: Option<bytes>, lines: seq<bytes>, id: bytes)
    requires AllStandIn(session, lines, {None})
    ensures LinesIn(session, lines, id) == []
  {
    NothingSaved(session, lines);
  }

  /** A scan that starts with no session instead of the right one: it never saves more, and from the first
      mark on the two agree. */
  lemma {:induction false} ScanFromNone(session: Option<bytes>, lines: seq<bytes>)
    ensures |RouteLines(None, lines).saved| <= |RouteLines(session, lines).saved|
    ensures RouteLines(None, lines).session == RouteLines(session, lines).session
         || (RouteLines(None, lines).session == None && RouteLines(session, lines).session == session)
  {
    hide Kind;
    if lines == [] {
    } else {
      ScanFromNone(session, lines[..|lines| - 1]);
    }
  }

  /** Exactly the lines before the first mark make the difference. */
  lemma SavedFromNone(session: Option<bytes>, lines: seq<bytes>)
    requires session.Some?
    ensures RouteLines(None, lines).saved == RouteLines(session, lines).saved <==> lines == [] || !Kind(lines[0]).Plain?
  {
    hide Kind, RouteLines;
    if lines == [] {
      NoLines(None);
      NoLines(session);
    } else {
      var later := lines[1..];
      assert lines == [lines[0]] + later;
      RouteFirst(None, lines[0]);
      RouteFirst(session, lines[0]);
      RouteAppend(None, [lines[0]], later);
      RouteAppend(session, [lines[0]], later);
      ScanFromNone(session, later);
    }
  }

  // The output, read by read.

  /** The session in which the output ends that has been read. */
  function SessionAfter(chunks: seq<bytes>): Option<bytes> {
    RouteLines(None, Lines(Flatten(chunks))).session
  }

  /** The number of reads up to the last one, before the present one, at which a session was open. */
  function LastOpen(chunks: seq<bytes>): (j: nat)
    ensures j <= |chunks| && (chunks != [] ==> j < |chunks|)
    ensures j > 0 ==> SessionAfter(chunks[..j]).Some?
  {
    if chunks == [] then 0 else
    var most := chunks[..|chunks| - 1];
    var j := if SessionAfter(most).Some? then |most| else LastOpen(most);
    assert chunks[..j] == most[..j] && most[..|most|] == most;
    j
  }

  /** The lines that the last read completed. */
  function Completed(chunks: seq<bytes>): seq<bytes>
    requires chunks != []
  {
    Lines(Tail(Flatten(chunks[..|chunks| - 1])) + chunks[|chunks| - 1])
  }

  /** The lines that were completed since that read. */
  function SinceOpen(chunks: seq<bytes>): seq<bytes> {
    if chunks == [] then [] else
    var most := chunks[..|chunks| - 1];
    (if SessionAfter(most).Some? then [] else SinceOpen(most)) + Completed(chunks)
  }

  function SessionBefore(chunks: seq<bytes>): Option<bytes> {
    SessionAfter(chunks[..LastOpen(chunks)])
  }

  /** The lines of a session in the whole output. */
  function Own(chunks: seq<bytes>, id: bytes): seq<bytes> {
    LinesIn(None, Lines(Flatten(chunks)), id)
  }

  /** What the session was given: the deliveries under its id, without the empty line that stands in front
      when the read began in a session. */
  function Received(chunks: seq<bytes>, id: bytes): seq<bytes> {
    if chunks == [] then [] else
    var most := chunks[..|chunks| - 1];
    var before, after := RunPipe(most), RunPipe(chunks).deliveries;
    Received(most, id) +
    if |after| > |before.deliveries| && after[|after| - 1].sessionId == id then
      var lines := after[|after| - 1].lines;
      if before.session.Some? && lines != [] then lines[1..] else lines
    else []
  }

  lemma OneMoreRead(chunks: seq<bytes>)
    requires chunks != []
    ensures var most, all := chunks[..|chunks| - 1], Flatten(chunks);
            && all == Flatten(most) + chunks[|chunks| - 1]
            && Lines(all) == Lines(Flatten(most)) + Completed(chunks)
            && Tail(all) == Tail(Tail(Flatten(most)) + chunks[|chunks| - 1])
            && SessionAfter(chunks) == RouteLines(SessionAfter(most), Completed(chunks)).session
  {
    hide Kind, Lines, Tail, RouteLines, Flatten;
    var most := chunks[..|chunks| - 1];
    FlattenLast(chunks);
    LinesAppend(Flatten(most), chunks[|chunks| - 1]);
    RouteAppend(None, Lines(Flatten(most)), Completed(chunks));
  }

  /** Where the lines since the last open point are after one more read. */
  lemma SinceOpenOneMore(chunks: seq<bytes>)
    requires chunks != []
    ensures var most := chunks[..|chunks| - 1];
            if SessionAfter(most).Some?
            then chunks[..LastOpen(chunks)] == most && SessionBefore(chunks) == SessionAfter(most)
                 && SinceOpen(chunks) == Completed(chunks)
            else chunks[..LastOpen(chunks)] == most[..LastOpen(most)] && SessionBefore(chunks) == SessionBefore(most)
                 && SinceOpen(chunks) == SinceOpen(most) + Completed(chunks)
  {
    hide SessionAfter, Completed;
    assert chunks[..LastOpen(chunks)] == chunks[..|chunks| - 1][..LastOpen(chunks)];
  }

  lemma NoReads()
    ensures SessionAfter([]) == None && Flatten([]) == []
  {
  }

  lemma NothingIn(id: bytes)
    ensures LinesIn(None, [], id) == []
  {
  }

  lemma OwnOneMore(chunks: seq<bytes>, id: bytes)
    requires chunks != []
    ensures Own(chunks, id) == Own(chunks[..|chunks| - 1], id)
                             + LinesIn(SessionAfter(chunks[..|chunks| - 1]), Completed(chunks), id)
  {
    hide Kind, Lines, Tail, RouteLines, Flatten, LinesIn;
    OneMoreRead(chunks);
    LinesInAppend(None, Lines(Flatten(chunks[..|chunks| - 1])), Completed(chunks), id);
  }

  /** The output since the last open point goes on from the session that was open there. */
  lemma {:induction false} SinceOpenGoesOn(chunks: seq<bytes>, id: bytes)
    ensures SessionAfter(chunks) == RouteLines(SessionBefore(chunks), SinceOpen(chunks)).session
    ensures Own(chunks, id) ==
            Own(chunks[..LastOpen(chunks)], id) + LinesIn(SessionBefore(chunks), SinceOpen(chunks), id)
  {
    if chunks == [] {
      assert chunks[..0] == [];
      NoReads();
      NothingIn(id);
    } else {
      hide Kind, Lines, Tail, RouteLines, Flatten, LinesIn, SessionAfter, SinceOpen, SessionBefore, LastOpen, Own;
      var most := chunks[..|chunks| - 1];
      OneMoreRead(chunks);
      OwnOneMore(chunks, id);
      SinceOpenOneMore(chunks);
      if SessionAfter(most).None? {
        SinceOpenGoesOn(most, id);
        RouteAppend(SessionBefore(most), SinceOpen(most), Completed(chunks));
        LinesInAppend(SessionBefore(most), SinceOpen(most), Completed(chunks), id);
        Associates(Own(most[..LastOpen(most)], id), LinesIn(SessionBefore(most), SinceOpen(most), id),
                       LinesIn(SessionAfter(most), Completed(chunks), id));
      }
    }
  }

  /** The whole output is what was complete at the last open point, and the lines since. */
  lemma {:induction false} SinceOpenIsRest(chunks: seq<bytes>)
    ensures Lines(Flatten(chunks)) == Lines(Flatten(chunks[..LastOpen(chunks)])) + SinceOpen(chunks)
  {
    hide Kind, Tail, RouteLines, SessionAfter, Completed;
    if chunks == [] {
      assert chunks[..0] == [] && Lines(Flatten(chunks)) + [] == Lines(Flatten(chunks));
    } else {
      hide Lines, Flatten, SinceOpen, LastOpen, SessionBefore;
      var most := chunks[..|chunks| - 1];
      OneMoreRead(chunks);
      SinceOpenOneMore(chunks);
      if SessionAfter(most).None? {
        SinceOpenIsRest(most);
        Associates(Lines(Flatten(most[..LastOpen(most)])), SinceOpen(most), Completed(chunks));
      }
    }
  }

  lemma LinesSoFar(chunks: seq<bytes>, m: nat)
    requires m <= |chunks|
    ensures Lines(Flatten(chunks[..m])) <= Lines(Flatten(chunks))
  {
    hide Lines, Tail, Flatten;
    assert chunks == chunks[..m] + chunks[m..];
    FlattenAppend(chunks[..m], chunks[m..]);
    LinesAppend(Flatten(chunks[..m]), Flatten(chunks[m..]));
  }

  // What the pipe holds.

  /** The empty line in front of what the pipe holds, once it has been cleared. */
  function MarkOf(chunks: seq<bytes>): seq<bytes> {
    if SessionBefore(chunks).Some? then [[]] else []
  }

  /** The pipe always knows which session the output is in, although it scans from the wrong one after a
      read that ended in none; and it holds everything since the last open point. */
  ghost predicate PipeInv(chunks: seq<bytes>) {
    var p, all := RunPipe(chunks), Flatten(chunks);
    && p.session == SessionAfter(chunks)
    && (p.session.Some? ==> p.buffer == [NEWLINE] + Tail(all))
    && (p.session.None? ==>
          && Lines(p.buffer) == MarkOf(chunks) + SinceOpen(chunks)
          && Tail(p.buffer) == Tail(all))
  }

  /** What a read delivers: of the lines since the last open point, those that a scan saves that starts in
      the session of that point, or in none when a read has ended in none meanwhile. */
  function Delivers(chunks: seq<bytes>): seq<Delivery>
    requires chunks != []
  {
    var before := SessionAfter(chunks[..|chunks| - 1]);
    match SessionAfter(chunks)
    case None => []
    case Some(id) =>
      [Delivery(id, (if before.Some? then [[]] else []) + RouteLines(before, SinceOpen(chunks)).saved)]
  }

  lemma EmptyLineRoutes(session: Option<bytes>, lines: seq<bytes>)
    ensures RouteLines(session, [[]] + lines).session == RouteLines(session, lines).session
    ensures RouteLines(session, [[]] + lines).saved ==
            (if session.Some? then [[]] else []) + RouteLines(session, lines).saved
  {
    hide Kind, RouteLines;
    EmptyLineIsPlain();
    RouteFirst(session, []);
    RouteAppend(session, [[]], lines);
  }

  /** A read of a pipe, given the lines that it scans. */
  lemma ReadLines(p: Pipe, chunk: bytes, lines: seq<bytes>)
    requires Lines(p.buffer + chunk) == lines
    requires p.session.Some? ==> lines != []
    ensures var route, q := RouteLines(p.session, lines), Readable(p, chunk);
            && q.session == route.session
            && (route.session.None? ==> q.buffer == p.buffer + chunk && q.deliveries == p.deliveries)
            && (route.session.Some? ==>
                  && q.buffer == [NEWLINE] + Tail(p.buffer + chunk)
                  && q.deliveries == p.deliveries + [Delivery(route.session.value, route.saved)])
  {
    hide Kind, Lines, Tail, RouteLines;
    NoLines(p.session);
  }

  lemma RunOneMore(chunks: seq<bytes>)
    requires chunks != []
    ensures RunPipe(chunks) == Readable(RunPipe(chunks[..|chunks| - 1]), chunks[|chunks| - 1])
  {
  }

  lemma CompletedIs(chunks: seq<bytes>)
    requires chunks != []
    ensures Completed(chunks) == Lines(Tail(Flatten(chunks[..|chunks| - 1])) + chunks[|chunks| - 1])
  {
  }

  /** A read that begins in a session. */
  lemma ReadInSession(chunks: seq<bytes>)
    requires chunks != [] && PipeInv(chunks[..|chunks| - 1]) && SessionAfter(chunks[..|chunks| - 1]).Some?
    ensures PipeInv(chunks)
    ensures RunPipe(chunks).deliveries == RunPipe(chunks[..|chunks| - 1]).deliveries + Delivers(chunks)
  {
    hide Kind, Lines, Tail, RouteLines, Flatten, SessionAfter, SinceOpen, SessionBefore, Completed, RunPipe, Readable;
    var most, chunk := chunks[..|chunks| - 1], chunks[|chunks| - 1];
    var p, tail, lines := RunPipe(most), Tail(Flatten(most)), Completed(chunks);
    OneMoreRead(chunks);
    SinceOpenOneMore(chunks);
    Associates([NEWLINE], tail, chunk);
    CompletedIs(chunks);
    NewlineFirst(tail + chunk);
    EmptyLineRoutes(p.session, lines);
    RunOneMore(chunks);
    ReadLines(p, chunk, [[]] + lines);
  }

  /** A read that does not scans the lines since the last open point once more, after the empty line that
      the last clearing left. */
  lemma HeldLines(chunks: seq<bytes>)
    requires chunks != [] && PipeInv(chunks[..|chunks| - 1]) && SessionAfter(chunks[..|chunks| - 1]).None?
    ensures var b := RunPipe(chunks[..|chunks| - 1]).buffer + chunks[|chunks| - 1];
            && Lines(b) == MarkOf(chunks) + SinceOpen(chunks)
            && Tail(b) == Tail(Flatten(chunks))
  {
    hide Kind, Lines, Tail, RouteLines, Flatten, SessionAfter, SinceOpen, SessionBefore, Completed, RunPipe;
    var most := chunks[..|chunks| - 1];
    OneMoreRead(chunks);
    SinceOpenOneMore(chunks);
    CompletedIs(chunks);
    LinesAppend(RunPipe(most).buffer, chunks[|chunks| - 1]);
    Associates(MarkOf(chunks), SinceOpen(most), Completed(chunks));
  }

  lemma SameSession(session: Option<bytes>, held: seq<bytes>, more: seq<bytes>)
    requires RouteLines(session, held).session == None
    ensures RouteLines(None, held + more).session == RouteLines(None, more).session
  {
    hide Kind, RouteLines;
    ScanFromNone(session, held);
    RouteAppend(None, held, more);
  }

  /** Scanned as if no session had been open at their start, they still lead to the right one. */
  lemma ScanLeadsOn(chunks: seq<bytes>)
    requires chunks != [] && SessionAfter(chunks[..|chunks| - 1]).None?
    ensures RouteLines(None, SinceOpen(chunks)).session == SessionAfter(chunks)
  {
    hide Kind, Lines, Tail, RouteLines, Flatten, SessionAfter, LastOpen, SinceOpen, SessionBefore, Completed, Own;
    var most := chunks[..|chunks| - 1];
    OneMoreRead(chunks);
    SinceOpenOneMore(chunks);
    SinceOpenGoesOn(most, []);
    SameSession(SessionBefore(most), SinceOpen(most), Completed(chunks));
  }

  lemma ScanOutside(chunks: seq<bytes>)
    requires chunks != [] && SessionAfter(chunks[..|chunks| - 1]).None?
    ensures RouteLines(None, MarkOf(chunks) + SinceOpen(chunks)).session == SessionAfter(chunks)
    ensures RouteLines(None, MarkOf(chunks) + SinceOpen(chunks)).saved == RouteLines(None, SinceOpen(chunks)).saved
  {
    hide Kind, RouteLines, SessionAfter, LastOpen, SinceOpen, SessionBefore;
    var lines := SinceOpen(chunks);
    ScanLeadsOn(chunks);
    assert [] + lines == lines && [] + RouteLines(None, lines).saved == RouteLines(None, lines).saved;
    EmptyLineRoutes(None, lines);
  }

  lemma DeliversOutside(chunks: seq<bytes>)
    requires chunks != [] && SessionAfter(chunks[..|chunks| - 1]).None?
    ensures Delivers(chunks) == if SessionAfter(chunks).None? then []
                                else [Delivery(SessionAfter(chunks).value, RouteLines(None, SinceOpen(chunks)).saved)]
  {
    hide SessionAfter, RouteLines, SinceOpen;
    assert [] + RouteLines(None, SinceOpen(chunks)).saved == RouteLines(None, SinceOpen(chunks)).saved;
  }

  lemma ReadOutside(chunks: seq<bytes>)
    requires chunks != [] && PipeInv(chunks[..|chunks| - 1]) && SessionAfter(chunks[..|chunks| - 1]).None?
    ensures PipeInv(chunks)
    ensures RunPipe(chunks).deliveries == RunPipe(chunks[..|chunks| - 1]).deliveries + Delivers(chunks)
  {
    hide Kind, Lines, Tail, RouteLines, Flatten, SessionAfter, SinceOpen, SessionBefore, Completed;
    hide RunPipe, Readable, MarkOf, Delivers;
    var p := RunPipe(chunks[..|chunks| - 1]);
    HeldLines(chunks);
    ScanOutside(chunks);
    RunOneMore(chunks);
    ReadLines(p, chunks[|chunks| - 1], MarkOf(chunks) + SinceOpen(chunks));
    DeliversOutside(chunks);
    assert p.deliveries + [] == p.deliveries;
  }

  lemma EmptyPipe()
    ensures PipeInv([])
  {
    var none: seq<bytes> := [];
    assert none[..0] == none;
    NoBytes();
  }

  lemma {:induction false} PipeState(chunks: seq<bytes>)
    ensures PipeInv(chunks)
    ensures chunks != [] ==> RunPipe(chunks).deliveries == RunPipe(chunks[..|chunks| - 1]).deliveries + Delivers(chunks)
  {
    hide RunPipe, PipeInv, Delivers, SessionAfter;
    if chunks == [] {
      assert PipeInv(chunks) by { EmptyPipe(); }
    } else {
      PipeState(chunks[..|chunks| - 1]);
      if SessionAfter(chunks[..|chunks| - 1]).Some? {
        ReadInSession(chunks);
      } else {
        ReadOutside(chunks);
      }
    }
  }

  // When the deliveries are right.

  predicate RightFor(chunks: seq<bytes>, id: bytes) {
    Received(chunks, id) == Own(chunks, id)
  }

  /** Every session has been given its own lines, all of them, in order, and no others. */
  ghost predicate Right(chunks: seq<bytes>) {
    forall id :: RightFor(chunks, id)
  }

  /** What a caller can tell from the output and its cut. With no session open at the end of the last read,
      no line since the last open point stands in a session. With one open, every such line that stands in a
      session stands in that one; and if a read has ended in no session meanwhile, the first thing after the
      open point was a mark, and not one more line of the session that was open there. */
  predicate Clean(chunks: seq<bytes>) {
    var session, lines := SessionBefore(chunks), SinceOpen(chunks);
    match SessionAfter(chunks)
    case None => AllStandIn(session, lines, {None})
    case Some(id) =>
      && AllStandIn(session, lines, {None, Some(id)})
      && (session.Some? && LastOpen(chunks) + 1 < |chunks| ==> lines == [] || !Kind(lines[0]).Plain?)
  }

  /** The session from which the lines since the last open point were scanned in the end. */
  function ScannedFrom(chunks: seq<bytes>): Option<bytes> {
    if LastOpen(chunks) + 1 == |chunks| then SessionBefore(chunks) else None
  }

  lemma ReceivedOneMore(chunks: seq<bytes>, id: bytes)
    requires chunks != []
    ensures Received(chunks, id) == Received(chunks[..|chunks| - 1], id) +
            if SessionAfter(chunks) == Some(id)
            then RouteLines(SessionAfter(chunks[..|chunks| - 1]), SinceOpen(chunks)).saved else []
  {
    hide Kind, Lines, Tail, RouteLines, Flatten, SessionAfter, RunPipe, SinceOpen;
    PipeState(chunks);
    PipeState(chunks[..|chunks| - 1]);
    var saved := RouteLines(SessionAfter(chunks[..|chunks| - 1]), SinceOpen(chunks)).saved;
    assert ([[]] + saved)[1..] == saved && [] + saved == saved;
  }

  lemma {:induction false} ReceivedGoesOn(chunks: seq<bytes>, id: bytes)
    ensures Received(chunks, id) == Received(chunks[..LastOpen(chunks)], id) +
            if SessionAfter(chunks) == Some(id) then RouteLines(ScannedFrom(chunks), SinceOpen(chunks)).saved else []
  {
    hide Kind, Lines, RouteLines, Flatten, SessionAfter, RunPipe, SinceOpen, Received;
    if chunks == [] {
      assert chunks[..0] == chunks;
      NoReads();
    } else {
      var most := chunks[..|chunks| - 1];
      ReceivedOneMore(chunks, id);
      assert chunks[..LastOpen(chunks)] == most[..LastOpen(chunks)] && most[..|most|] == most;
      if SessionAfter(most).None? {
        ReceivedGoesOn(most, id);
      }
    }
  }

  /** What one session was given since the last open point is what it has printed since. */
  predicate GrowsRight(chunks: seq<bytes>, id: bytes) {
    LinesIn(SessionBefore(chunks), SinceOpen(chunks), id) ==
    if SessionAfter(chunks) == Some(id) then RouteLines(ScannedFrom(chunks), SinceOpen(chunks)).saved else []
  }

  lemma SamePrefix(a: seq<bytes>, x: seq<bytes>, y: seq<bytes>)
    ensures a + x == a + y <==> x == y
  {
    assert (a + x)[|a|..] == x && (a + y)[|a|..] == y;
  }

  lemma RightGoesOn(chunks: seq<bytes>, id: bytes)
    requires RightFor(chunks[..LastOpen(chunks)], id)
    ensures RightFor(chunks, id) <==> GrowsRight(chunks, id)
  {
    hide RouteLines, SessionAfter, SinceOpen, Received, Own, LinesIn, SessionBefore, LastOpen, ScannedFrom;
    SinceOpenGoesOn(chunks, id);
    ReceivedGoesOn(chunks, id);
    var saved := RouteLines(ScannedFrom(chunks), SinceOpen(chunks)).saved;
    SamePrefix(Received(chunks[..LastOpen(chunks)], id), LinesIn(SessionBefore(chunks), SinceOpen(chunks), id),
               if SessionAfter(chunks) == Some(id) then saved else []);
  }

  /** What `other` has printed is what it gets when a scan that starts in `start` is delivered to `id`. */
  predicate Gets(session: Option<bytes>, lines: seq<bytes>, other: bytes, id: bytes, start: Option<bytes>) {
    LinesIn(session, lines, other) == if other == id then RouteLines(start, lines).saved else []
  }

  lemma OnlyOneGets(session: Option<bytes>, lines: seq<bytes>, id: bytes, start: Option<bytes>)
    requires start == session || start == None
    ensures (forall other :: Gets(session, lines, other, id, start)) <==>
            && AllStandIn(session, lines, {None, Some(id)})
            && (session.Some? && start == None ==> lines == [] || !Kind(lines[0]).Plain?)
  {
    hide Kind, RouteLines, AllStandIn, LinesIn;
    OthersPrinted(session, lines, id);
    if AllStandIn(session, lines, {None, Some(id)}) {
      OwnLinesAreSaved(session, lines, id);
      if session.Some? {
        SavedFromNone(session, lines);
      }
      forall other | other != id ensures Gets(session, lines, other, id, start) {
        NoneOfAnother(session, lines, id, other);
      }
      assert Gets(session, lines, id, id, start) <==>
             RouteLines(session, lines).saved == RouteLines(start, lines).saved;
    } else {
      var other :| other != id && LinesIn(session, lines, other) != [];
      assert !Gets(session, lines, other, id, start);
    }
  }

  lemma OpenIsLater(chunks: seq<bytes>)
    requires SessionAfter(chunks).Some?
    ensures LastOpen(chunks) < |chunks|
  {
    NoReads();
  }

  lemma GrowsRightIff(chunks: seq<bytes>)
    ensures (forall id :: GrowsRight(chunks, id)) <==> Clean(chunks)
  {
    hide Kind, SessionAfter, SinceOpen, SessionBefore, LastOpen, RouteLines;
    var session, lines := SessionBefore(chunks), SinceOpen(chunks);
    match SessionAfter(chunks)
    case None =>
      if AllStandIn(session, lines, {None}) {
        forall id ensures GrowsRight(chunks, id) {
          NoneOfAny(session, lines, id);
        }
      } else {
        NothingSaved(session, lines);
        var id :| LinesIn(session, lines, id) != [];
        assert !GrowsRight(chunks, id);
      }
    case Some(id) =>
      OpenIsLater(chunks);
      OnlyOneGets(session, lines, id, ScannedFrom(chunks));
      forall other
        ensures GrowsRight(chunks, other) <==> Gets(session, lines, other, id, ScannedFrom(chunks))
      {
      }
  }

  /** If the deliveries were right at the last open point, they are right now if and only if the output since
      then is clean. */
  lemma RightIffClean(chunks: seq<bytes>)
    requires Right(chunks[..LastOpen(chunks)])
    ensures Right(chunks) <==> Clean(chunks)
  {
    hide RightFor, GrowsRight, Clean, LastOpen;
    forall id ensures RightFor(chunks, id) <==> GrowsRight(chunks, id) {
      RightGoesOn(chunks, id);
    }
    GrowsRightIff(chunks);
  }

  lemma NothingYet()
    ensures Right([])
  {
    assert Lines(Flatten([])) == [];
  }

  lemma {:induction false} CleanIsRight(chunks: seq<bytes>, k: nat)
    requires k <= |chunks| && SessionAfter(chunks[..k]).Some?
    requires forall i :: 0 <= i <= |chunks| && SessionAfter(chunks[..i]).Some? ==> Clean(chunks[..i])
    ensures Right(chunks[..k])
    decreases k
  {
    hide Right, Clean, SessionAfter;
    var j := LastOpen(chunks[..k]);
    assert chunks[..k][..j] == chunks[..j];
    if j == 0 {
      NothingYet();
    } else {
      OpenIsLater(chunks[..k]);
      CleanIsRight(chunks, j);
    }
    RightIffClean(chunks[..k]);
  }

  /** Routing with any number of sessions, over every cut. At every point where a session is open, every
      session has been given exactly its own lines, if and only if the output is clean at every such point. */
  lemma RoutedRightIff(chunks: seq<bytes>)
    ensures (forall k :: 0 <= k <= |chunks| && SessionAfter(chunks[..k]).Some? ==> Right(chunks[..k]))
       <==> (forall k :: 0 <= k <= |chunks| && SessionAfter(chunks[..k]).Some? ==> Clean(chunks[..k]))
  {
    hide Right, Clean, SessionAfter;
    if forall k :: 0 <= k <= |chunks| && SessionAfter(chunks[..k]).Some? ==> Right(chunks[..k]) {
      forall k | 0 <= k <= |chunks| && SessionAfter(chunks[..k]).Some? ensures Clean(chunks[..k]) {
        var j := LastOpen(chunks[..k]);
        assert chunks[..k][..j] == chunks[..j];
        if j == 0 {
          NothingYet();
        }
        RightIffClean(chunks[..k]);
      }
    }
    if forall k :: 0 <= k <= |chunks| && SessionAfter(chunks[..k]).Some? ==> Clean(chunks[..k]) {
      forall k | 0 <= k <= |chunks| && SessionAfter(chunks[..k]).Some? ensures Right(chunks[..k]) {
        CleanIsRight(chunks, k);
      }
    }
  }

  /** The output is clean at every point where a session is open. */
  ghost predicate CleanThroughout(chunks: seq<bytes>) {
    forall k :: 0 <= k <= |chunks| && SessionAfter(chunks[..k]).Some? ==> Clean(chunks[..k])
  }

  // Output with a single session is clean.

  lemma {:induction false} StandAppend(session: Option<bytes>, a: seq<bytes>, b: seq<bytes>,
                                       allowed: set<Option<bytes>>)
    ensures AllStandIn(session, a + b, allowed) <==>
            AllStandIn(session, a, allowed) && AllStandIn(RouteLines(session, a).session, b, allowed)
  {
    hide Kind, RouteLines;
    if b == [] {
      assert a + b == a;
    } else {
      var most := b[..|b| - 1];
      StandAppend(session, a, most, allowed);
      RouteAppend(session, a, most);
      assert (a + b)[..|a + b| - 1] == a + most;
    }
  }

  lemma {:induction false} NoStartStands(lines: seq<bytes>, allowed: set<Option<bytes>>)
    requires NoStart(lines) && None in allowed
    ensures AllStandIn(None, lines, allowed)
  {
    hide Kind, RouteLines;
    if lines == [] {
    } else {
      NoStartStands(lines[..|lines| - 1], allowed);
      NoStartRoutes(lines[..|lines| - 1]);
    }
  }

  lemma {:induction false} PlainStands(session: Option<bytes>, lines: seq<bytes>, allowed: set<Option<bytes>>)
    requires AllPlain(lines) && session.Some? && session in allowed
    ensures AllStandIn(session, lines, allowed)
  {
    hide Kind, RouteLines;
    if lines == [] {
    } else {
      var most := lines[..|lines| - 1];
      PlainStands(session, most, allowed);
      NoLines(session);
      PlainRoutes(session, [], most);
      assert [] + most == most;
    }
  }

  lemma OneMark(marker: bytes, allowed: set<Option<bytes>>)
    requires !Kind(marker).Plain?
    ensures AllStandIn(None, [marker], allowed)
  {
    hide Kind;
    assert [marker][..0] == [];
  }

  lemma OneSessionStands(pre: seq<bytes>, marker: bytes, post: seq<bytes>)
    requires NoStart(pre) && Kind(marker).StartOf? && AllPlain(post)
    ensures AllStandIn(None, pre + [marker] + post, {None, Some(Kind(marker).sessionId)})
  {
    hide Kind, RouteLines;
    var id := Some(Kind(marker).sessionId);
    NoStartStands(pre, {None, id});
    NoStartRoutes(pre);
    OpenSessionRoutes(pre, marker, []);
    assert pre + [marker] + [] == pre + [marker];
    StandAppend(None, pre, [marker], {None, id});
    OneMark(marker, {None, id});
    PlainStands(id, post, {None, id});
    StandAppend(None, pre + [marker], post, {None, id});
  }

  /** Every part of such output either has not reached the marker or is such output itself. */
  lemma PartOfOneSession(lines: seq<bytes>, pre: seq<bytes>, marker: bytes, post: seq<bytes>)
    requires NoStart(pre) && Kind(marker).StartOf? && AllPlain(post)
    requires lines <= pre + [marker] + post
    ensures RouteLines(None, lines).session == if |lines| <= |pre| then None else Some(Kind(marker).sessionId)
    ensures |lines| > |pre| ==>
              var k := |lines| - |pre| - 1; k <= |post| && lines == pre + [marker] + post[..k] && AllPlain(post[..k])
  {
    hide Kind, RouteLines;
    if |lines| <= |pre| {
      assert lines == pre[..|lines|];
      NoStartRoutes(lines);
    } else {
      var k := |lines| - |pre| - 1;
      assert lines == pre + [marker] + post[..k];
      OpenSessionRoutes(pre, marker, post[..k]);
    }
  }

  /** A session of such output that is open after some reads is open after more. */
  lemma OpenLater(chunks: seq<bytes>, j: nat, k: nat, pre: seq<bytes>, marker: bytes, post: seq<bytes>)
    requires NoStart(pre) && Kind(marker).StartOf? && AllPlain(post)
    requires j <= k <= |chunks| && Lines(Flatten(chunks)) == pre + [marker] + post
    requires SessionAfter(chunks[..j]).Some?
    ensures SessionAfter(chunks[..k]).Some?
  {
    hide Kind, RouteLines, Lines, Flatten;
    assert chunks[..k][..j] == chunks[..j];
    LinesSoFar(chunks[..k], j);
    LinesSoFar(chunks, j);
    LinesSoFar(chunks, k);
    PartOfOneSession(Lines(Flatten(chunks[..j])), pre, marker, post);
    PartOfOneSession(Lines(Flatten(chunks[..k])), pre, marker, post);
  }

  /** Once such output has reached its marker, every read ends in its session. */
  lemma StaysOpen(chunks: seq<bytes>, pre: seq<bytes>, marker: bytes, post: seq<bytes>)
    requires NoStart(pre) && Kind(marker).StartOf? && AllPlain(post)
    requires chunks != [] && Lines(Flatten(chunks)) == pre + [marker] + post
    requires SessionBefore(chunks).Some?
    ensures LastOpen(chunks) + 1 == |chunks|
  {
    hide Kind, Lines, Flatten, SessionAfter, NoStart, AllPlain;
    OpenLater(chunks, LastOpen(chunks), |chunks| - 1, pre, marker, post);
  }

  lemma OneSessionPoint(chunks: seq<bytes>, pre: seq<bytes>, marker: bytes, post: seq<bytes>)
    requires NoStart(pre) && Kind(marker).StartOf? && AllPlain(post)
    requires Lines(Flatten(chunks)) == pre + [marker] + post
    ensures Clean(chunks) && SessionAfter(chunks) == Some(Kind(marker).sessionId)
    ensures Own(chunks, Kind(marker).sessionId) == post
  {
    hide Kind, RouteLines, Lines, Flatten, AllStandIn, LinesIn, SinceOpen, LastOpen;
    var id := Kind(marker).sessionId;
    OpenSessionRoutes(pre, marker, post);
    OneSessionStands(pre, marker, post);
    OwnLinesAreSaved(None, Lines(Flatten(chunks)), id);
    SinceOpenIsRest(chunks);
    StandAppend(None, Lines(Flatten(chunks[..LastOpen(chunks)])), SinceOpen(chunks), {None, Some(id)});
    if SessionBefore(chunks).Some? {
      assert chunks != [] by { OpenIsLater(chunks); }
      StaysOpen(chunks, pre, marker, post);
    }
  }

  /** One start marker, and neither marker after it: clean over every cut, and what follows the marker is all that
      the session has. */
  lemma OneSessionIsClean(chunks: seq<bytes>, pre: seq<bytes>, marker: bytes, post: seq<bytes>)
    requires NoStart(pre) && Kind(marker).StartOf? && AllPlain(post)
    requires Lines(Flatten(chunks)) == pre + [marker] + post
    ensures CleanThroughout(chunks) && Clean(chunks) && Own(chunks, Kind(marker).sessionId) == post
  {
    hide Kind, RouteLines, Lines, Flatten, Clean, Own;
    OneSessionPoint(chunks, pre, marker, post);
    forall k | 0 <= k <= |chunks| && SessionAfter(chunks[..k]).Some? ensures Clean(chunks[..k]) {
      LinesSoFar(chunks, k);
      var lines := Lines(Flatten(chunks[..k]));
      PartOfOneSession(lines, pre, marker, post);
      OneSessionPoint(chunks[..k], pre, marker, post[..|lines| - |pre| - 1]);
    }
  }

  // The failing inputs.

  lemma {:induction false} AsciiIsUtf8(b: bytes)
    requires forall c :: c in b ==> c < 0x80
    ensures Bincode.ValidUtf8(b)
  {
    if b == [] {
    } else {
      assert b[0] in b && forall c :: c in b[1..] ==> c in b;
      AsciiIsUtf8(b[1..]);
    }
  }

  lemma HexIsText(b: bytes)
    ensures Bincode.ValidUtf8(Hex(b)) && NEWLINE !in Hex(b)
  {
    AsciiIsUtf8(Hex(b));
  }

  /** The line that opens a session. */
  function StartLine(id: bytes): bytes {
    NEW_REQUEST_START + Hex(id)
  }

  lemma MarkersAreOneLine()
    ensures NEWLINE !in NEW_REQUEST_START && NEWLINE !in NEW_REQUEST_END
    ensures Kind(NEW_REQUEST_END).EndOf?
  {
    hide Hex;
  }

  lemma StartLineOpens(id: bytes)
    requires |id| == SESSION_ID_LENGTH
    ensures Kind(StartLine(id)) == StartOf(Hex(id)) && NEWLINE !in StartLine(id)
  {
    MarkersAreOneLine();
    HexIsText(id);
    hide Hex, Bincode.ValidUtf8;
    assert StartLine(id)[..64] == NEW_REQUEST_START && StartLine(id)[64..] == Hex(id);
  }

  /** Three lines, all of them plain or marks, in one session that is over. */
  lemma SessionOver(a: bytes, line: bytes, end: bytes, b: bytes)
    requires Kind(a).StartOf? && Kind(line).Plain? && Kind(end).EndOf? && Kind(b).StartOf?
    ensures RouteLines(None, [a, line, end]).session == None
    ensures RouteLines(None, [a, line, end, b]) == Route(Some(Kind(b).sessionId), [line], [])
  {
    hide Kind, RouteLines;
    NoLines(None);
    assert [a] == [] + [a] && [a, line] == [a] + [line];
    assert [a, line, end] == [a, line] + [end] && [a, line, end, b] == [a, line, end] + [b];
    RouteOneMore(None, [], a);
    RouteOneMore(None, [a], line);
    RouteOneMore(None, [a, line], end);
    RouteOneMore(None, [a, line, end], b);
  }

  lemma PrintedTogether(lines: seq<bytes>, line: bytes)
    ensures Printed(lines + [line]) == Printed(lines) + Printed([line])
  {
    hide Printed;
    PrintedOne(lines, line);
    PrintedOne([], line);
    NothingPrinted();
    assert [] + [line] == [line] && [] + line + [NEWLINE] == line + [NEWLINE];
    Associates(Printed(lines), line, [NEWLINE]);
  }

  /** The failing case: a session whose marks and line come in one read is not delivered, and when another
      one starts in the next read, it gets the line. */
  lemma MisroutedExample(idA: bytes, idB: bytes, line: bytes)
    requires |idA| == |idB| == SESSION_ID_LENGTH && Kind(line).Plain? && NEWLINE !in line
    ensures var first := Printed([StartLine(idA), line, NEW_REQUEST_END]);
            && RunPipe([first]).deliveries == []
            && RunPipe([first, Printed([StartLine(idB)])]).deliveries == [Delivery(Hex(idB), [line])]
  {
    hide Kind, Lines, Tail, RouteLines, StartLine, Hex, Printed;
    var a, b := StartLine(idA), StartLine(idB);
    StartLineOpens(idA);
    StartLineOpens(idB);
    MarkersAreOneLine();
    SessionOver(a, line, NEW_REQUEST_END, b);
    var first, second := Printed([a, line, NEW_REQUEST_END]), Printed([b]);
    PrintedTogether([a, line, NEW_REQUEST_END], b);
    LinesPrinted([a, line, NEW_REQUEST_END], []);
    LinesPrinted([a, line, NEW_REQUEST_END, b], []);
    assert [a, line, NEW_REQUEST_END] + [b] == [a, line, NEW_REQUEST_END, b];
    assert first + [] == first && [] + first == first && first + second + [] == first + second;
    assert [first, second][..1] == [first] && [first][..0] == [];
    assert RunPipe([first]) == Pipe(first, None, []);
    assert [] + [Delivery(Hex(idB), [line])] == [Delivery(Hex(idB), [line])];
  }

  /** A read of whole lines, after whole lines. */
  lemma ReadOfLines(most: seq<bytes>, lines: seq<bytes>)
    requires Tail(Flatten(most)) == [] && forall l :: l in lines ==> NEWLINE !in l
    ensures var chunks := most + [Printed(lines)];
            && chunks[..|chunks| - 1] == most && Tail(Flatten(chunks)) == []
            && Lines(Flatten(chunks)) == Lines(Flatten(most)) + lines
            && SessionAfter(chunks) == RouteLines(SessionAfter(most), lines).session
            && SinceOpen(chunks) == (if SessionAfter(most).Some? then [] else SinceOpen(most)) + lines
            && RunPipe(chunks).deliveries == RunPipe(most).deliveries + Delivers(chunks)
  {
    hide Kind, Lines, Tail, RouteLines, Flatten, SessionAfter, RunPipe, Printed, Delivers, LastOpen, SessionBefore;
    var chunks := most + [Printed(lines)];
    assert chunks[..|chunks| - 1] == most;
    OneMoreRead(chunks);
    PipeState(chunks);
    LinesPrinted(lines, []);
    assert [] + Printed(lines) == Printed(lines) && Printed(lines) + [] == Printed(lines);
  }

  lemma LinesInOne(session: Option<bytes>, line: bytes, id: bytes)
    ensures LinesIn(session, [line], id) == if Kind(line).Plain? && session == Some(id) then [line] else []
  {
    hide Kind;
    NoLines(session);
    assert [line][..0] == [];
  }

  lemma LostLinesIn(a: bytes, x: bytes, end: bytes, y: bytes)
    requires Kind(a).StartOf? && Kind(x).Plain? && Kind(end).EndOf? && Kind(y).Plain?
    ensures LinesIn(None, [a, x, end, a, y], Kind(a).sessionId) == [x, y]
  {
    hide Kind, RouteLines, LinesIn;
    var id := Kind(a).sessionId;
    assert [a, x, end, a, y] == [a] + ([x] + ([end] + ([a] + [y])));
    LinesInAppend(None, [a], [x] + ([end] + ([a] + [y])), id);
    LinesInAppend(Some(id), [x], [end] + ([a] + [y]), id);
    LinesInAppend(Some(id), [end], [a] + [y], id);
    LinesInAppend(None, [a], [y], id);
    RouteFirst(None, a);
    RouteFirst(Some(id), x);
    RouteFirst(Some(id), end);
    LinesInOne(None, a, id);
    LinesInOne(Some(id), x, id);
    LinesInOne(Some(id), end, id);
    LinesInOne(Some(id), y, id);
  }

  /** The routes of the example below. */
  lemma LostRoutes(a: bytes, x: bytes, end: bytes, y: bytes)
    requires Kind(a).StartOf? && Kind(x).Plain? && Kind(end).EndOf? && Kind(y).Plain?
    ensures var id := Some(Kind(a).sessionId);
            && RouteLines(None, [a]) == Route(id, [], []) && RouteLines(id, [x, end]).session == None
            && RouteLines(None, [a, y]) == Route(id, [y], [])
            && RouteLines(None, [x, end, a, y]).saved == [y]
            && LinesIn(None, [a, x, end, a, y], Kind(a).sessionId) == [x, y]
  {
    hide Kind, RouteLines;
    var id := Some(Kind(a).sessionId);
    RouteFirst(None, a);
    RouteFirst(id, x);
    RouteFirst(id, y);
    RouteFirst(None, end);
    RouteFirst(id, end);
    RouteFirst(None, x);
    assert [a, y] == [a] + [y] && [x, end] == [x] + [end] && [x, end, a, y] == [x, end] + [a, y];
    RouteAppend(None, [a], [y]);
    RouteAppend(id, [x], [end]);
    RouteAppend(None, [x], [end]);
    RouteAppend(None, [x, end], [a, y]);
    LostLinesIn(a, x, end, y);
  }

  lemma NothingRun()
    ensures RunPipe([]) == Pipe([], None, []) && SinceOpen([]) == []
  {
  }

  lemma FirstRead(a: bytes)
    requires NEWLINE !in a
    ensures var one := [Printed([a])];
            && one[..0] == [] && Tail(Flatten(one)) == [] && Lines(Flatten(one)) == [a] && SinceOpen(one) == [a]
            && SessionAfter(one) == RouteLines(None, [a]).session && RunPipe(one).deliveries == Delivers(one)
  {
    hide Kind, Lines, Tail, RouteLines, Flatten, Printed, SessionAfter, SinceOpen, RunPipe, Delivers;
    NoReads();
    NoBytes();
    NothingRun();
    ReadOfLines([], [a]);
    var one := [Printed([a])];
    NothingInFront(one);
    NothingInFront([a]);
    NothingInFront(Delivers(one));
  }

  /** The three reads of the example. */
  lemma LostFirst(a: bytes)
    requires Kind(a).StartOf? && NEWLINE !in a
    ensures var one, id := [Printed([a])], Kind(a).sessionId;
            && Tail(Flatten(one)) == [] && Lines(Flatten(one)) == [a] && SessionAfter(one) == Some(id)
            && RunPipe(one).deliveries == [Delivery(id, [])]
  {
    hide Kind, Lines, Tail, RouteLines, Flatten, Printed, SessionAfter, SinceOpen, RunPipe, Delivers;
    NoReads();
    NoBytes();
    NothingRun();
    RouteFirst(None, a);
    FirstRead(a);
    DeliversOutside([Printed([a])]);
  }

  lemma LostSecond(a: bytes, x: bytes, end: bytes)
    requires Kind(a).StartOf? && Kind(x).Plain? && Kind(end).EndOf?
    requires NEWLINE !in a && NEWLINE !in x && NEWLINE !in end
    ensures var two := [Printed([a]), Printed([x, end])];
            && Tail(Flatten(two)) == [] && Lines(Flatten(two)) == [a, x, end] && SessionAfter(two) == None
            && SinceOpen(two) == [x, end] && RunPipe(two).deliveries == [Delivery(Kind(a).sessionId, [])]
  {
    hide Kind, Lines, Tail, RouteLines, Flatten, Printed, SessionAfter, SinceOpen, RunPipe;
    LostFirst(a);
    LostRoutes(a, x, end, x);
    var one, two := [Printed([a])], [Printed([a]), Printed([x, end])];
    ReadOfLines(one, [x, end]);
    assert one + [Printed([x, end])] == two;
    assert [a] + [x, end] == [a, x, end] && [] + [x, end] == [x, end];
    assert RunPipe(one).deliveries + [] == RunPipe(one).deliveries;
  }

  lemma LostThird(a: bytes, x: bytes, end: bytes, y: bytes)
    requires Kind(a).StartOf? && Kind(x).Plain? && Kind(end).EndOf? && Kind(y).Plain?
    requires NEWLINE !in a && NEWLINE !in x && NEWLINE !in end && NEWLINE !in y
    ensures var chunks, id := [Printed([a]), Printed([x, end]), Printed([a, y])], Kind(a).sessionId;
            && RunPipe(chunks).deliveries == [Delivery(id, []), Delivery(id, [y])]
            && Own(chunks, id) == [x, y]
  {
    hide Kind, Lines, Tail, RouteLines, Flatten, Printed, SessionAfter, SinceOpen, RunPipe, LinesIn, Delivers;
    LostSecond(a, x, end);
    LostRoutes(a, x, end, y);
    var two, three := [Printed([a]), Printed([x, end])], [Printed([a]), Printed([x, end]), Printed([a, y])];
    ReadOfLines(two, [a, y]);
    assert two + [Printed([a, y])] == three;
    assert [x, end] + [a, y] == [x, end, a, y] && [a, x, end] + [a, y] == [a, x, end, a, y];
    DeliversOutside(three);
  }

  /** A second failing case, with one session only: the line that comes in the read that ends the session is
      never delivered, even when the session is opened again. */
  lemma LostLineExample(id: bytes, x: bytes, y: bytes)
    requires |id| == SESSION_ID_LENGTH
    requires Kind(x).Plain? && NEWLINE !in x && Kind(y).Plain? && NEWLINE !in y
    ensures var a := StartLine(id);
            var chunks := [Printed([a]), Printed([x, NEW_REQUEST_END]), Printed([a, y])];
            && RunPipe(chunks).deliveries == [Delivery(Hex(id), []), Delivery(Hex(id), [y])]
            && Own(chunks, Hex(id)) == [x, y]
  {
    hide Kind, StartLine, Hex, Printed, RunPipe, Own;
    StartLineOpens(id);
    MarkersAreOneLine();
    LostThird(StartLine(id), x, NEW_REQUEST_END, y);
  }
}
