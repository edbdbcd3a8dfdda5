/** The deframing loop shared by every reader of the program, as one recursive parser over a codec:
    a fixed header that announces the body length, a body, and a decoder for the two. */
module Framing {
  import opened Bytes

  type Positive = n: nat | n > 0 witness 1

  datatype Codec<M, E> = Codec(headerSize: Positive, bodyLength: bytes -> Result<nat, E>,
                               decode: (bytes, bytes) -> Result<M, E>)

  /** What one turn of the loop does with the buffer. */
  datatype Step<M, E> = NeedMore | Bad(error: E) | Frame(size: nat, msg: M)

  /** A reader: the messages it has queued so far, its buffer, and the error of its last read. */
  datatype Parsed<M, E> = Parsed(msgs: seq<M>, rest: bytes, error: Option<E>)

  function NextFrame<M, E>(c: Codec<M, E>, buffer: bytes): (s: Step<M, E>)
    ensures s.Frame? ==> c.headerSize <= s.size <= |buffer|
  {
    if |buffer| < c.headerSize then NeedMore else
    match c.bodyLength(buffer[..c.headerSize])
    case Err(e) => Bad(e)
    case Ok(n) =>
      if |buffer| < c.headerSize + n then NeedMore else
      match c.decode(buffer[..c.headerSize], buffer[c.headerSize..c.headerSize + n])
      case Err(e) => Bad(e)
      case Ok(m) => Frame(c.headerSize + n, m)
  }

  function Parse<M, E>(c: Codec<M, E>, buffer: bytes): Parsed<M, E>
    decreases |buffer|
  {
    match NextFrame(c, buffer)
    case NeedMore => Parsed([], buffer, None)
    case Bad(e) => Parsed([], buffer, Some(e))
    case Frame(size, m) =>
      var p := Parse(c, buffer[size..]);
      Parsed([m] + p.msgs, p.rest, p.error)
  }

  /** The loop, from a buffer and a queue that already holds messages. */
  function Resume<M, E>(c: Codec<M, E>, queue: seq<M>, buffer: bytes): Parsed<M, E> {
    var p := Parse(c, buffer);
    Parsed(queue + p.msgs, p.rest, p.error)
  }

  /** One non-empty read: append a chunk to the buffer, then run the loop. */
  function Feed<M, E>(c: Codec<M, E>, p: Parsed<M, E>, chunk: bytes): Parsed<M, E> {
    Resume(c, p.msgs, p.rest + chunk)
  }

  function FeedAll<M, E>(c: Codec<M, E>, chunks: seq<bytes>): Parsed<M, E> {
    if chunks == [] then Parsed([], [], None)
    else Feed(c, FeedAll(c, chunks[..|chunks| - 1]), chunks[|chunks| - 1])
  }

  /** A turn of the loop: queue the first message, drop its frame; without a frame the loop is over. */
  lemma LoopTurn<M, E>(c: Codec<M, E>, queue: seq<M>, buffer: bytes)
    ensures Resume(c, queue, buffer) ==
            match NextFrame(c, buffer)
            case NeedMore => Parsed(queue, buffer, None)
            case Bad(e) => Parsed(queue, buffer, Some(e))
            case Frame(size, m) => Resume(c, queue + [m], buffer[size..])
  {
    var s := NextFrame(c, buffer);
    if s.Frame? {
      var later := Parse(c, buffer[s.size..]).msgs;
      assert queue + ([s.msg] + later) == (queue + [s.msg]) + later;
    }
  }

  /** A decided step depends only on the bytes of its own frame. */
  lemma NextFrameStable<M, E>(c: Codec<M, E>, buffer: bytes, more: bytes)
    requires NextFrame(c, buffer) != NeedMore
    ensures NextFrame(c, buffer + more) == NextFrame(c, buffer)
  {
    var h := c.headerSize;
    assert (buffer + more)[..h] == buffer[..h];
    match c.bodyLength(buffer[..h])
    case Err(_) =>
    case Ok(n) => assert (buffer + more)[h..h + n] == buffer[h..h + n];
  }

  /** The parser decides a buffer as far as it can be decided. */
  lemma {:induction false} ParseIsMaximal<M, E>(c: Codec<M, E>, buffer: bytes)
    ensures var p := Parse(c, buffer);
            NextFrame(c, p.rest) == if p.error.Some? then Bad(p.error.value) else NeedMore
    decreases |buffer|
  {
    var s := NextFrame(c, buffer);
    if !s.Frame? {
    } else {
      ParseIsMaximal(c, buffer[s.size..]);
    }
  }

  /** Reading `a` and then `b` is reading `a + b`. */
  lemma {:induction false} ParseAppend<M, E>(c: Codec<M, E>, a: bytes, b: bytes)
    ensures Parse(c, a + b) == Feed(c, Parse(c, a), b)
    decreases |a|
  {
    match NextFrame(c, a)
    case NeedMore =>
      assert [] + Parse(c, a + b).msgs == Parse(c, a + b).msgs;
    case Bad(_) =>
      NextFrameStable(c, a, b);
    case Frame(size, m) =>
      NextFrameStable(c, a, b);
      assert (a + b)[size..] == a[size..] + b;
      ParseAppend(c, a[size..], b);
      var p := Parse(c, a[size..]);
      var q := Parse(c, p.rest + b);
      assert [m] + (p.msgs + q.msgs) == ([m] + p.msgs) + q.msgs;
  }

  lemma RestHoldsNoFrame<M, E>(c: Codec<M, E>, buffer: bytes)
    ensures Parse(c, Parse(c, buffer).rest).msgs == []
  {
    ParseIsMaximal(c, buffer);
  }

  /** An error stays; bytes that come after it are kept and never looked at. */
  lemma ParseErrorStays<M, E>(c: Codec<M, E>, a: bytes, b: bytes)
    requires Parse(c, a).error.Some?
    ensures Parse(c, a + b) == Parse(c, a).(rest := Parse(c, a).rest + b)
  {
    ParseAppend(c, a, b);
    ParseIsMaximal(c, a);
    NextFrameStable(c, Parse(c, a).rest, b);
  }

  /** However a byte stream is cut into reads, the queue, the buffer and the error are those of
      one read of the whole stream. */
  lemma {:induction false} ChunkingIndependence<M, E>(c: Codec<M, E>, chunks: seq<bytes>)
    ensures FeedAll(c, chunks) == Parse(c, Flatten(chunks))
  {
    if chunks == [] {
    } else {
      var most, last := chunks[..|chunks| - 1], chunks[|chunks| - 1];
      ChunkingIndependence(c, most);
      FlattenLast(chunks);
      ParseAppend(c, Flatten(most), last);
    }
  }

  /** After a failed read, every later read fails with the same error and queues nothing. */
  lemma ErrorIsSticky<M, E>(c: Codec<M, E>, chunks: seq<bytes>, later: seq<bytes>)
    requires FeedAll(c, chunks).error.Some?
    ensures FeedAll(c, chunks + later) == FeedAll(c, chunks).(rest := FeedAll(c, chunks).rest + Flatten(later))
  {
    ChunkingIndependence(c, chunks);
    ChunkingIndependence(c, chunks + later);
    FlattenAppend(chunks, later);
    ParseErrorStays(c, Flatten(chunks), Flatten(later));
  }

  /** The frames that the parser cuts off the front of a buffer. */
  function Frames<M, E>(c: Codec<M, E>, buffer: bytes): seq<bytes>
    decreases |buffer|
  {
    match NextFrame(c, buffer)
    case Frame(size, _) => [buffer[..size]] + Frames(c, buffer[size..])
    case _ => []
  }

  /** Each frame, alone, is decoded to the message beside it with nothing left over. */
  ghost predicate Encodes<M, E>(c: Codec<M, E>, frames: seq<bytes>, msgs: seq<M>) {
    |frames| == |msgs| &&
    forall i :: 0 <= i < |frames| ==> NextFrame(c, frames[i]) == Frame(|frames[i]|, msgs[i])
  }

  lemma FrameAlone<M, E>(c: Codec<M, E>, buffer: bytes)
    requires NextFrame(c, buffer).Frame?
    ensures var s := NextFrame(c, buffer); NextFrame(c, buffer[..s.size]) == s
  {
    var size := NextFrame(c, buffer).size;
    assert buffer[..size][..c.headerSize] == buffer[..c.headerSize];
    assert buffer[..size][c.headerSize..size] == buffer[c.headerSize..size];
  }

  /** Byte conservation: the frames that the loop consumed plus the bytes that it kept are what it read. */
  lemma {:induction false} ParseConserves<M, E>(c: Codec<M, E>, buffer: bytes)
    ensures Flatten(Frames(c, buffer)) + Parse(c, buffer).rest == buffer
    decreases |buffer|
  {
    match NextFrame(c, buffer)
    case NeedMore =>
    case Bad(_) =>
    case Frame(size, _) =>
      var f, more := buffer[..size], buffer[size..];
      ParseConserves(c, more);
      assert Frames(c, buffer)[0] == f && Frames(c, buffer)[1..] == Frames(c, more);
      Associates(f, Flatten(Frames(c, more)), Parse(c, more).rest);
  }

  /** The frames that the loop consumed are exactly those of the messages that it queued. */
  lemma {:induction false} ParseEncodes<M, E>(c: Codec<M, E>, buffer: bytes)
    ensures Encodes(c, Frames(c, buffer), Parse(c, buffer).msgs)
    decreases |buffer|
  {
    var s := NextFrame(c, buffer);
    if !s.Frame? {
    } else {
      FrameAlone(c, buffer);
      ParseEncodes(c, buffer[s.size..]);
    }
  }

  /** A frame of which bytes are missing is waited for. */
  lemma PartOfFrame<M, E>(c: Codec<M, E>, frame: bytes, m: M, got: bytes)
    requires NextFrame(c, frame) == Frame(|frame|, m)
    requires got < frame
    ensures NextFrame(c, got) == NeedMore
  {
    assert frame == got + frame[|got|..];
    if NextFrame(c, got) != NeedMore {
      NextFrameStable(c, got, frame[|got|..]);
    }
  }

  lemma WholeFrame<M, E>(c: Codec<M, E>, frame: bytes, m: M, got: bytes)
    requires NextFrame(c, frame) == Frame(|frame|, m)
    requires |frame| <= |got| && got[..|frame|] == frame
    ensures var p := Parse(c, got[|frame|..]); Parse(c, got) == Parsed([m] + p.msgs, p.rest, p.error)
  {
    assert got == frame + got[|frame|..];
    NextFrameStable(c, frame, got[|frame|..]);
  }

  lemma LaterFrames<M, E>(c: Codec<M, E>, frames: seq<bytes>, msgs: seq<M>, got: bytes)
    requires Encodes(c, frames, msgs) && frames != []
    requires got <= Flatten(frames) && |got| >= |frames[0]|
    ensures Encodes(c, frames[1..], msgs[1..])
    ensures got == frames[0] + got[|frames[0]|..]
    ensures got[|frames[0]|..] <= Flatten(frames[1..])
  {
    var f := frames[0];
    assert Flatten(frames)[..|f|] == f && Flatten(frames)[|f|..] == Flatten(frames[1..]);
    assert got == Flatten(frames)[..|got|];
  }

  /** A reader that has received any prefix of a concatenation of frames has queued, without error, a
      prefix of their messages, and all of them once it has received everything. */
  lemma {:induction false} ReaderOfFrames<M, E>(c: Codec<M, E>, frames: seq<bytes>, msgs: seq<M>, got: bytes)
    requires Encodes(c, frames, msgs)
    requires got <= Flatten(frames)
    ensures Parse(c, got).error == None
    ensures Parse(c, got).msgs <= msgs
    ensures got == Flatten(frames) ==> Parse(c, got).msgs == msgs
    decreases |frames|
  {
    if frames == [] {
      assert got == [];
    } else {
      var f := frames[0];
      if |got| < |f| {
        PartOfFrame(c, f, msgs[0], got);
      } else {
        WholeFrame(c, f, msgs[0], got);
        LaterFrames(c, frames, msgs, got);
        ReaderOfFrames(c, frames[1..], msgs[1..], got[|f|..]);
      }
    }
  }

  /** What such a reader has not queued yet is what it holds. */
  lemma {:induction false} ReaderHoldsRest<M, E>(c: Codec<M, E>, frames: seq<bytes>, msgs: seq<M>, got: bytes)
    requires Encodes(c, frames, msgs)
    requires got <= Flatten(frames)
    ensures |Parse(c, got).msgs| <= |frames|
    ensures got == Flatten(frames[..|Parse(c, got).msgs|]) + Parse(c, got).rest
    decreases |frames|
  {
    if frames == [] {
      assert got == [];
    } else {
      var f := frames[0];
      if |got| < |f| {
        PartOfFrame(c, f, msgs[0], got);
      } else {
        var more := got[|f|..];
        WholeFrame(c, f, msgs[0], got);
        LaterFrames(c, frames, msgs, got);
        ReaderHoldsRest(c, frames[1..], msgs[1..], more);
        var k := |Parse(c, more).msgs|;
        assert frames[..k + 1][1..] == frames[1..][..k];
        Associates(f, Flatten(frames[1..][..k]), Parse(c, more).rest);
      }
    }
  }
}
