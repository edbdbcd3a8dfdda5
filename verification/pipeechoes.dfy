/** What the master writes to its own output of the lines of a worker, over every cut. A pipe that no session
    holds open is not cleared, so its lines are scanned, and written, again on every read. */
module PipeEchoes {
  import opened Bytes
  import opened PipeFrames
  import opened PipeRouting

  /** What the last read writes. */
  function EchoOf(chunks: seq<bytes>): seq<bytes>
    requires chunks != []
  {
    var p := RunPipe(chunks[..|chunks| - 1]);
    RouteLines(p.session, Lines(p.buffer + chunks[|chunks| - 1])).echoed
  }

  lemma EmptyLineEchoes(session: Option<bytes>, lines: seq<bytes>)
    ensures RouteLines(session, [[]] + lines).echoed ==
            (if session.None? then [[]] else []) + RouteLines(session, lines).echoed
  {
    hide Kind, RouteLines;
    EmptyLineIsPlain();
    RouteFirst(session, []);
    RouteAppend(session, [[]], lines);
  }

  lemma EchoInSession(chunks: seq<bytes>)
    requires chunks != [] && SessionAfter(chunks[..|chunks| - 1]).Some?
    ensures EchoOf(chunks) == RouteLines(SessionAfter(chunks[..|chunks| - 1]), SinceOpen(chunks)).echoed
  {
    hide Kind, Lines, Tail, RouteLines, Flatten, SessionAfter, SinceOpen, SessionBefore, Completed, RunPipe, LastOpen;
    var most, chunk := chunks[..|chunks| - 1], chunks[|chunks| - 1];
    PipeState(most);
    SinceOpenOneMore(chunks);
    Associates([NEWLINE], Tail(Flatten(most)), chunk);
    NewlineFirst(Tail(Flatten(most)) + chunk);
    CompletedIs(chunks);
    EmptyLineEchoes(SessionAfter(most), SinceOpen(chunks));
    var echoed := RouteLines(SessionAfter(most), SinceOpen(chunks)).echoed;
    assert [] + echoed == echoed;
  }

  lemma MarkEchoes(chunks: seq<bytes>, lines: seq<bytes>)
    ensures RouteLines(None, MarkOf(chunks) + lines).echoed == MarkOf(chunks) + RouteLines(None, lines).echoed
  {
    hide Kind, RouteLines, SessionBefore;
    assert [] + lines == lines && [] + RouteLines(None, lines).echoed == RouteLines(None, lines).echoed;
    EmptyLineEchoes(None, lines);
  }

  lemma EchoOutside(chunks: seq<bytes>)
    requires chunks != [] && SessionAfter(chunks[..|chunks| - 1]).None?
    ensures EchoOf(chunks) == MarkOf(chunks) + RouteLines(None, SinceOpen(chunks)).echoed
  {
    hide Kind, Lines, Tail, RouteLines, Flatten, SessionAfter, SinceOpen, SessionBefore, RunPipe, LastOpen, MarkOf;
    var lines := SinceOpen(chunks);
    PipeState(chunks[..|chunks| - 1]);
    HeldLines(chunks);
    MarkEchoes(chunks, lines);
  }

  /** A read writes, of the lines since the last open point, those that stand outside for a scan that starts as
      the previous read ended; and before them, when that was in no session, the empty line that the last
      clearing has left. */
  lemma EchoIs(chunks: seq<bytes>)
    requires chunks != []
    ensures var before := SessionAfter(chunks[..|chunks| - 1]);
            EchoOf(chunks) ==
            (if before.None? then MarkOf(chunks) else []) + RouteLines(before, SinceOpen(chunks)).echoed
  {
    hide RouteLines, SessionAfter, SinceOpen, EchoOf, MarkOf;
    if SessionAfter(chunks[..|chunks| - 1]).Some? {
      EchoInSession(chunks);
      var echoed := RouteLines(SessionAfter(chunks[..|chunks| - 1]), SinceOpen(chunks)).echoed;
      assert [] + echoed == echoed;
    } else {
      EchoOutside(chunks);
    }
  }

  // Which lines those are.

  /** The line stands outside for a scan that starts in `session`. */
  predicate IsEchoed(session: Option<bytes>, lines: seq<bytes>, j: int) {
    0 <= j < |lines| && Kind(lines[j]).Plain? && RouteLines(session, lines[..j]).session == None
  }

  function Positions(session: Option<bytes>, lines: seq<bytes>): seq<nat> {
    if lines == [] then [] else
    Positions(session, lines[..|lines| - 1]) + if IsEchoed(session, lines, |lines| - 1) then [|lines| - 1] else []
  }

  lemma {:induction false} PositionsAre(session: Option<bytes>, lines: seq<bytes>)
    ensures var ps := Positions(session, lines);
            && (forall k, l :: 0 <= k < l < |ps| ==> ps[k] < ps[l])
            && (forall j :: j in ps <==> IsEchoed(session, lines, j))
  {
    hide Kind;
    if lines == [] {
    } else {
      var most, last := lines[..|lines| - 1], |lines| - 1;
      PositionsAre(session, most);
      forall j | 0 <= j < last ensures IsEchoed(session, lines, j) <==> IsEchoed(session, most, j) {
        assert lines[..j] == most[..j];
      }
      var before := Positions(session, most);
      forall k | 0 <= k < |before| ensures before[k] < last {
        assert before[k] in before && IsEchoed(session, most, before[k]);
      }
      forall j ensures j in Positions(session, lines) <==> IsEchoed(session, lines, j) {
        if j in before {
          assert IsEchoed(session, most, j);
        }
      }
    }
  }

  lemma EchoOneMore(session: Option<bytes>, lines: seq<bytes>)
    requires lines != []
    ensures var most, last := lines[..|lines| - 1], |lines| - 1;
            RouteLines(session, lines).echoed ==
            RouteLines(session, most).echoed + if IsEchoed(session, lines, last) then [lines[last]] else []
  {
    hide Kind;
  }

  /** Each of them is written once by the scan, in order, and nothing else is. */
  lemma {:induction false} EchoedAreLines(session: Option<bytes>, lines: seq<bytes>)
    ensures var ps, echoed := Positions(session, lines), RouteLines(session, lines).echoed;
            && |echoed| == |ps|
            && (forall k :: 0 <= k < |ps| ==> ps[k] < |lines| && echoed[k] == lines[ps[k]])
            && (forall k, l :: 0 <= k < l < |ps| ==> ps[k] < ps[l])
            && (forall j :: j in ps <==> IsEchoed(session, lines, j))
  {
    PositionsAre(session, lines);
    hide Kind, IsEchoed;
    if lines == [] {
    } else {
      EchoedAreLines(session, lines[..|lines| - 1]);
      EchoOneMore(session, lines);
    }
  }

  /** Without a mark between them, and only then, a scan that starts outside still stands outside where one that
      starts in a session stands in one. */
  lemma {:induction false} NoMarkBetween(session: Option<bytes>, lines: seq<bytes>)
    requires session.Some?
    ensures RouteLines(None, lines).session == None && RouteLines(session, lines).session.Some? <==> AllPlain(lines)
  {
    hide Kind;
    if lines == [] {
    } else {
      var most, last := lines[..|lines| - 1], lines[|lines| - 1];
      NoMarkBetween(session, most);
      ScanFromNone(session, most);
      assert lines == most + [last];
      assert AllPlain(lines) <==> AllPlain(most) && Kind(last).Plain? by {
        assert last in lines && forall l :: l in most ==> l in lines;
      }
    }
  }

  // Lines of the whole output, by number.

  function Count(chunks: seq<bytes>): nat {
    |Lines(Flatten(chunks))|
  }

  /** Line `i` of the output is written by the last read. */
  predicate WrittenBy(chunks: seq<bytes>, i: nat) {
    chunks != [] &&
    IsEchoed(SessionAfter(chunks[..|chunks| - 1]), SinceOpen(chunks), i - (Count(chunks) - |SinceOpen(chunks)|))
  }

  /** The number of reads that write it. */
  function Times(chunks: seq<bytes>, i: nat): nat {
    if chunks == [] then 0 else Times(chunks[..|chunks| - 1], i) + if WrittenBy(chunks, i) then 1 else 0
  }

  lemma CountGrows(chunks: seq<bytes>, k: nat, m: nat)
    requires k <= m <= |chunks|
    ensures Count(chunks[..k]) <= Count(chunks[..m])
  {
    hide Lines, Flatten;
    assert chunks[..m][..k] == chunks[..k];
    LinesSoFar(chunks[..m], k);
  }

  lemma {:induction false} ClosedSince(chunks: seq<bytes>, k: nat)
    requires LastOpen(chunks) < k < |chunks|
    ensures SessionAfter(chunks[..k]).None?
  {
    hide SessionAfter;
    if chunks == [] {
    } else {
      var most := chunks[..|chunks| - 1];
      if k < |most| {
        assert chunks[..k] == most[..k];
        ClosedSince(most, k);
      } else {
        assert chunks[..k] == most;
      }
    }
  }

  /** The stretch of one line: read `c` completes it, and read `o` is the first from then on that ends in a
      session, or the last so far. */
  ghost predicate Stretch(chunks: seq<bytes>, i: nat, c: nat, o: nat) {
    && 0 < c <= o <= |chunks|
    && Count(chunks[..c - 1]) <= i < Count(chunks[..c])
    && (forall k :: c <= k < o ==> SessionAfter(chunks[..k]).None?)
    && (o == |chunks| || SessionAfter(chunks[..o]).Some?)
  }

  /** The last open point before the line was completed. */
  function OpenBefore(chunks: seq<bytes>, c: nat): (j: nat)
    requires 0 < c <= |chunks|
    ensures j < c
  {
    LastOpen(chunks[..c])
  }

  lemma StretchOpen(chunks: seq<bytes>, i: nat, c: nat, o: nat, m: nat)
    requires Stretch(chunks, i, c, o) && c <= m <= o
    ensures LastOpen(chunks[..m]) == OpenBefore(chunks, c)
  {
    hide SessionAfter, LastOpen, Count;
    var j, k := LastOpen(chunks[..m]), LastOpen(chunks[..c]);
    assert chunks[..m][..j] == chunks[..j] && chunks[..c][..k] == chunks[..k];
    if k < j {
      assert chunks[..c][..j] == chunks[..j];
      ClosedSince(chunks[..c], j);
    } else if j < k {
      assert chunks[..m][..k] == chunks[..k];
      ClosedSince(chunks[..m], k);
    }
  }

  lemma OutOfScan(chunks: seq<bytes>, i: nat)
    requires i >= Count(chunks) || i < Count(chunks[..LastOpen(chunks)])
    ensures !WrittenBy(chunks, i)
  {
    hide Kind, RouteLines, Lines, Flatten, SinceOpen, SessionAfter;
    SinceOpenIsRest(chunks);
  }

  lemma NotBefore(chunks: seq<bytes>, i: nat, c: nat, o: nat, m: nat)
    requires Stretch(chunks, i, c, o) && m < c
    ensures !WrittenBy(chunks[..m], i)
  {
    hide IsEchoed, SinceOpen, Lines, Flatten;
    CountGrows(chunks, m, c - 1);
    OutOfScan(chunks[..m], i);
  }

  lemma NotAfter(chunks: seq<bytes>, i: nat, c: nat, o: nat, m: nat)
    requires Stretch(chunks, i, c, o) && o < m <= |chunks|
    ensures !WrittenBy(chunks[..m], i)
  {
    hide IsEchoed, SinceOpen, Lines, Flatten, SessionAfter, LastOpen, Count, WrittenBy;
    var j := LastOpen(chunks[..m]);
    assert chunks[..m][..o] == chunks[..o] && chunks[..m][..j] == chunks[..j];
    if j < o {
      ClosedSince(chunks[..m], o);
    }
    CountGrows(chunks, c, j);
    OutOfScan(chunks[..m], i);
  }

  /** The session that the line stands in, by the marks of the whole output. */
  function StandsIn(chunks: seq<bytes>, i: nat): Option<bytes>
    requires i <= Count(chunks)
  {
    RouteLines(None, Lines(Flatten(chunks))[..i]).session
  }

  /** The line belongs to the session that was open at the last open point before it: no mark is in between. */
  ghost predicate Inherited(chunks: seq<bytes>, i: nat, c: nat)
    requires 0 < c <= |chunks|
  {
    var base := Count(chunks[..OpenBefore(chunks, c)]);
    base <= i < Count(chunks) && AllPlain(Lines(Flatten(chunks))[base..i])
  }

  lemma ScanSlice(all: seq<bytes>, front: seq<bytes>, lines: seq<bytes>, i: nat)
    requires front + lines <= all && |front| <= i < |front| + |lines|
    ensures lines[i - |front|] == all[i] && lines[..i - |front|] == all[|front|..i]
    ensures all[..i] == front + all[|front|..i]
  {
    assert lines == all[|front|..|front| + |lines|];
  }

  /** The lines of the scan of read `m` in front of line `i`. */
  lemma ScanInFront(chunks: seq<bytes>, i: nat, c: nat, o: nat, m: nat)
    requires Stretch(chunks, i, c, o) && c <= m <= o
    ensures var all, base := Lines(Flatten(chunks)), Count(chunks[..OpenBefore(chunks, c)]);
            var lines := SinceOpen(chunks[..m]);
            && base <= i < Count(chunks) && base == Count(chunks[..m]) - |lines|
            && i - base < |lines| && lines[i - base] == all[i] && lines[..i - base] == all[base..i]
            && StandsIn(chunks, i) == RouteLines(SessionAfter(chunks[..OpenBefore(chunks, c)]), all[base..i]).session
  {
    hide Kind, RouteLines, Lines, Flatten, SinceOpen, LastOpen;
    var j, all := OpenBefore(chunks, c), Lines(Flatten(chunks));
    StretchOpen(chunks, i, c, o, m);
    assert chunks[..m][..j] == chunks[..j];
    SinceOpenIsRest(chunks[..m]);
    LinesSoFar(chunks, m);
    LinesSoFar(chunks, j);
    CountGrows(chunks, c, m);
    CountGrows(chunks, j, c - 1);
    ScanSlice(all, Lines(Flatten(chunks[..j])), SinceOpen(chunks[..m]), i);
    RouteAppend(None, Lines(Flatten(chunks[..j])), all[Count(chunks[..j])..i]);
  }

  /** From what session read `m` starts. */
  lemma StretchStart(chunks: seq<bytes>, i: nat, c: nat, o: nat, m: nat)
    requires Stretch(chunks, i, c, o) && c <= m <= o
    ensures SessionAfter(chunks[..m - 1]) ==
            if m == c && OpenBefore(chunks, c) == c - 1 then SessionAfter(chunks[..OpenBefore(chunks, c)]) else None
  {
    hide SessionAfter, LastOpen, Count;
    if m == c && OpenBefore(chunks, c) < c - 1 {
      assert chunks[..c][..c - 1] == chunks[..c - 1];
      ClosedSince(chunks[..c], c - 1);
    }
  }

  /** When a read has ended in no session since the open point, the line does not come straight after it. */
  lemma MarkInBetween(chunks: seq<bytes>, i: nat, c: nat, o: nat)
    requires Stretch(chunks, i, c, o) && OpenBefore(chunks, c) < c - 1
    requires SessionAfter(chunks[..OpenBefore(chunks, c)]).Some?
    ensures !Inherited(chunks, i, c)
  {
    hide Kind, RouteLines, Lines, Flatten, SinceOpen, LastOpen;
    var j, all, d := OpenBefore(chunks, c), Lines(Flatten(chunks)), Count(chunks[..c - 1]);
    var base, before := Count(chunks[..j]), SessionAfter(chunks[..j]);
    StretchStart(chunks, i, c, o, c);
    CountGrows(chunks, j, c - 1);
    LinesSoFar(chunks, j);
    LinesSoFar(chunks, c - 1);
    LinesSoFar(chunks, c);
    assert Lines(Flatten(chunks[..c - 1])) == Lines(Flatten(chunks[..j])) + all[base..d];
    RouteAppend(None, Lines(Flatten(chunks[..j])), all[base..d]);
    NoMarkBetween(before, all[base..d]);
    assert forall l :: l in all[base..d] ==> l in all[base..i] by {
      assert all[base..i] == all[base..d] + all[d..i];
    }
  }

  /** Which reads of its stretch write a plain line. */
  lemma WrittenIff(chunks: seq<bytes>, i: nat, c: nat, o: nat, m: nat)
    requires Stretch(chunks, i, c, o) && c <= m <= o
    ensures i < Count(chunks)
    ensures Kind(Lines(Flatten(chunks))[i]).Plain? ==>
              (WrittenBy(chunks[..m], i) <==> StandsIn(chunks, i) == None || (m > c && Inherited(chunks, i, c)))
  {
    hide Kind, RouteLines, Lines, Flatten, SinceOpen, LastOpen, SessionAfter;
    ScanInFront(chunks, i, c, o, m);
    var j := OpenBefore(chunks, c);
    var before, start := SessionAfter(chunks[..j]), SessionAfter(chunks[..m][..m - 1]);
    var front := Lines(Flatten(chunks))[Count(chunks[..j])..i];
    assert chunks[..m][..m - 1] == chunks[..m - 1];
    assert start == if m == c && j == c - 1 then before else None by {
      StretchStart(chunks, i, c, o, m);
    }
    ScanFromNone(before, front);
    NoMarkBetween(if before.Some? then before else Some([]), front);
    if before.Some? {
      if m == c && j < c - 1 {
        MarkInBetween(chunks, i, c, o);
      }
    }
  }

  lemma {:induction false} CountReads(chunks: seq<bytes>, i: nat, lo: nat, hi: nat, n: nat)
    requires n <= |chunks| && 0 < lo <= hi + 1
    requires forall m :: 0 <= m <= n ==> (WrittenBy(chunks[..m], i) <==> lo <= m <= hi)
    ensures Times(chunks[..n], i) == if n < lo then 0 else Min(n, hi) - lo + 1
  {
    hide WrittenBy;
    if n == 0 {
    } else {
      CountReads(chunks, i, lo, hi, n - 1);
      assert chunks[..n][..n - 1] == chunks[..n - 1];
    }
  }

  /** How often the master writes a plain line of a worker to its own output, over every cut. A line outside any
      session is written by every read from the one that completes it to the first that ends in a session. A
      line of a session is never written, unless it follows the last open point without a mark between: then
      every read but the first of those writes it. */
  lemma TimesWritten(chunks: seq<bytes>, i: nat, c: nat, o: nat)
    requires Stretch(chunks, i, c, o)
    ensures i < Count(chunks)
    ensures Kind(Lines(Flatten(chunks))[i]).Plain? ==>
              Times(chunks, i) ==
              if StandsIn(chunks, i) == None then o - c + 1 else if Inherited(chunks, i, c) then o - c else 0
  {
    hide Kind, RouteLines, Lines, Flatten, SinceOpen, LastOpen, SessionAfter, WrittenBy, StandsIn, Inherited;
    WrittenIff(chunks, i, c, o, c);
    if Kind(Lines(Flatten(chunks))[i]).Plain? {
      var lo := if StandsIn(chunks, i) == None then c else if Inherited(chunks, i, c) then c + 1 else o + 1;
      forall m | 0 <= m <= |chunks| ensures WrittenBy(chunks[..m], i) <==> lo <= m <= o {
        if m < c {
          NotBefore(chunks, i, c, o, m);
        } else if m <= o {
          WrittenIff(chunks, i, c, o, m);
        } else {
          NotAfter(chunks, i, c, o, m);
        }
      }
      CountReads(chunks, i, lo, o, |chunks|);
      assert chunks[..|chunks|] == chunks;
    }
  }
}
