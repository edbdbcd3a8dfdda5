/** The log channel of a worker: its Python thread and its event loop append frames to one buffer under a
    mutex, the event loop writes the buffer out, and the master cuts the frames apart again. Each append of
    `new_msg` is a step of its own, so that the threads can interleave wherever the mutex lets them. */
module LogChannel {
  import opened Bytes
  import opened Framing
  import opened Channels
  import P = Protocol

  datatype Thread = PythonThread | EventLoop

  /** The mutex; its holder has made `stage` of the three appends of `frame`. */
  datatype Mutex = Free | Held(owner: Thread, frame: P.LogFrame, stage: nat)

  /** `order` lists the frames of `new_msg` calls in the order in which they took the mutex. */
  datatype State = State(mutex: Mutex, order: seq<P.LogFrame>, out: bytes, wire: bytes, got: bytes,
                         reader: Parsed<P.LogFrame, P.Error>)

  datatype Step =
    | Lock(thread: Thread, frame: P.LogFrame)
    | Append(thread: Thread)
    | Write(count: nat)
    | Read(count: nat)

  function Start(): State {
    State(Free, [], [], [], [], Parsed([], [], None))
  }

  function Part(frame: P.LogFrame, stage: nat): bytes {
    if stage == 0 then [frame.msgType] else if stage == 1 then ToBE32(|frame.body|) else frame.body
  }

  /** A step that a thread cannot take leaves the state as it is: a thread that wants the mutex while it is
      held waits, and the event loop needs it to write. */
  function Next(s: State, e: Step): State {
    match e
    case Lock(t, frame) => if s.mutex.Free? then s.(mutex := Held(t, frame, 0), order := s.order + [frame]) else s
    case Append(t) =>
      if s.mutex.Free? || s.mutex.owner != t then s
      else s.(out := s.out + Part(s.mutex.frame, s.mutex.stage),
              mutex := if s.mutex.stage >= 2 then Free else s.mutex.(stage := s.mutex.stage + 1))
    case Write(n) =>
      if !s.mutex.Free? then s else
      var k := Min(n, |s.out|);
      s.(out := s.out[k..], wire := s.wire + s.out[..k])
    case Read(n) =>
      var k := Min(n, |s.wire|);
      if k == 0 then s
      else s.(wire := s.wire[k..], got := s.got + s.wire[..k], reader := Feed(P.LOG, s.reader, s.wire[..k]))
  }

  function RunSteps(steps: seq<Step>): State {
    if steps == [] then Start() else Next(RunSteps(steps[..|steps| - 1]), steps[|steps| - 1])
  }

  /** What the holder of the mutex has appended of its frame. */
  function Partial(m: Mutex): bytes {
    if m.Free? || m.stage == 0 then []
    else if m.stage == 1 then [m.frame.msgType]
    else [m.frame.msgType] + ToBE32(|m.frame.body|)
  }

  /** The frames that have been appended whole. */
  function Finished(s: State): seq<P.LogFrame>
    requires s.mutex.Held? ==> s.order != []
  {
    if s.mutex.Free? then s.order else s.order[..|s.order| - 1]
  }

  function WholeFrames(s: State): Channel<P.LogFrame, P.Error>
    requires s.mutex.Held? ==> s.order != []
    requires |Partial(s.mutex)| <= |s.out|
  {
    Channel(Finished(s), s.out[..|s.out| - |Partial(s.mutex)|], s.wire, s.got, s.reader)
  }

  /** Without the bytes of the frame under construction, the state is one of a channel of whole frames. */
  ghost predicate LogInv(s: State) {
    && (s.mutex.Held? ==> s.mutex.stage <= 2 && s.order != [] && s.order[|s.order| - 1] == s.mutex.frame
                          && |s.mutex.frame.body| < U32_MODULUS)
    && |Partial(s.mutex)| <= |s.out|
    && s.out[|s.out| - |Partial(s.mutex)|..] == Partial(s.mutex)
    && Inv(P.LOG, P.NewLogMsg, WholeFrames(s))
  }

  lemma AppendKeeps(s: State, t: Thread)
    requires LogInv(s)
    ensures LogInv(Next(s, Append(t)))
  {
    hide ToBE32, Feed, NextFrame;
    if s.mutex.Held? && s.mutex.owner == t {
      var frame, partial, s' := s.mutex.frame, Partial(s.mutex), Next(s, Append(t));
      var whole := s.out[..|s.out| - |partial|];
      assert s.out == whole + partial;
      var added := partial + Part(frame, s.mutex.stage);
      assert s'.out == whole + added by {
        Associates(whole, partial, Part(frame, s.mutex.stage));
      }
      assert s'.out[|whole|..] == added && s'.out[..|whole|] == whole;
      if s.mutex.stage == 2 {
        assert added == P.NewLogMsg(frame);
        P.LogFrameBound(frame);
        NextKeepsInv(P.LOG, P.NewLogMsg, WholeFrames(s), Send(frame));
        assert s'.order == Finished(s) + [frame];
        assert s'.out[..|s'.out|] == s'.out;
      }
    }
  }

  lemma NextKeeps(s: State, e: Step)
    requires LogInv(s)
    requires e.Lock? ==> |e.frame.body| < U32_MODULUS
    ensures LogInv(Next(s, e))
  {
    hide ToBE32, Feed, Inv, Part;
    match e
    case Lock(t, frame) =>
      if s.mutex.Free? {
        assert (s.order + [frame])[..|s.order|] == s.order;
      }
    case Append(t) =>
      AppendKeeps(s, t);
    case Write(n) =>
      if s.mutex.Free? {
        assert s.out[..|s.out|] == s.out;
        NextKeepsInv(P.LOG, P.NewLogMsg, WholeFrames(s), Channels.Write(n));
        assert Next(s, e).out[..|Next(s, e).out|] == Next(s, e).out;
      }
    case Read(n) =>
      NextKeepsInv(P.LOG, P.NewLogMsg, WholeFrames(s), Channels.Read(n));
  }

  lemma {:induction false} RunKeeps(steps: seq<Step>)
    requires forall e :: e in steps && e.Lock? ==> |e.frame.body| < U32_MODULUS
    ensures LogInv(RunSteps(steps))
  {
    if steps == [] {
      assert FramesOf(P.NewLogMsg, []) == [];
    } else {
      RunKeeps(steps[..|steps| - 1]);
      NextKeeps(RunSteps(steps[..|steps| - 1]), steps[|steps| - 1]);
    }
  }

  /** However the two threads, the writes and the master's reads interleave, the frames that the master
      recovers are the logged ones in lock order, of every type and none torn: a prefix of them at any
      time, and all of them exactly when no thread is inside `new_msg` and nothing is in flight. */
  lemma LogFramesInLockOrder(steps: seq<Step>)
    requires forall e :: e in steps && e.Lock? ==> |e.frame.body| < U32_MODULUS
    ensures var s := RunSteps(steps);
            && s.reader.error == None
            && s.reader.msgs <= s.order
            && (s.reader.msgs == s.order <==> s.mutex.Free? && s.wire == [] && s.out == [])
  {
    RunKeeps(steps);
    var s := RunSteps(steps);
    Delivery(P.LOG, P.NewLogMsg, WholeFrames(s));
    assert Finished(s) <= s.order;
    if s.mutex.Free? {
      assert s.out[..|s.out|] == s.out;
    }
  }

  // Progress.

  /** What a step moves. */
  lemma StepMoves(s: State, e: Step)
    ensures e.Lock? && s.mutex.Free? ==>
              var t := Next(s, e);
              t.mutex == Held(e.thread, e.frame, 0) && t.order == s.order + [e.frame] && t.out == s.out
    ensures e.Append? && s.mutex.Held? && s.mutex.owner == e.thread && s.mutex.stage <= 2 ==>
              var t := Next(s, e);
              && t.order == s.order && (t.mutex.Free? <==> s.mutex.stage == 2)
              && (t.mutex.Held? ==> t.mutex == s.mutex.(stage := s.mutex.stage + 1))
    ensures e.Write? && s.mutex.Free? ==>
              var t := Next(s, e); var k := Min(e.count, |s.out|);
              |t.out| == |s.out| - k && |t.wire| == |s.wire| + k && t.wire + t.out == s.wire + s.out
    ensures e.Read? ==>
              var t := Next(s, e); var k := Min(e.count, |s.wire|);
              |t.wire| == |s.wire| - k && |t.got| == |s.got| + k && t.got + t.wire == s.got + s.wire
  {
    hide Feed, Part;
    if e.Read? {
      var k := Min(e.count, |s.wire|);
      assert s.got + s.wire[..k] + s.wire[k..] == s.got + s.wire;
    }
  }

  function AppendAll(s: State, t: Thread, n: nat): State
    decreases n
  {
    if n == 0 then s else AppendAll(Next(s, Append(t)), t, n - 1)
  }

  /** The holder of the mutex can finish its frame, and give the mutex back. */
  lemma {:induction false} HolderFinishes(s: State) returns (appends: nat)
    requires s.mutex.Held? && s.mutex.stage <= 2
    ensures appends == 3 - s.mutex.stage
    ensures AppendAll(s, s.mutex.owner, appends).mutex.Free? && AppendAll(s, s.mutex.owner, appends).order == s.order
    decreases 3 - s.mutex.stage
  {
    hide Part;
    StepMoves(s, Append(s.mutex.owner));
    if s.mutex.stage == 2 {
      appends := 1;
    } else {
      appends := HolderFinishes(Next(s, Append(s.mutex.owner)));
      appends := appends + 1;
    }
  }

  lemma OrderStays(s: State, e: Step)
    requires e.Write? || e.Read?
    ensures Next(s, e).order == s.order && Next(s, e).mutex == s.mutex
    ensures e.Read? ==> Next(s, e).out == s.out
  {
  }

  /** From every state of a run in which no thread is inside `new_msg`, one write and one read, if they are let
      through whole, bring the master every frame that was logged. */
  lemma LogCanBeRead(steps: seq<Step>)
    requires forall e :: e in steps && e.Lock? ==> |e.frame.body| < U32_MODULUS
    requires RunSteps(steps).mutex.Free?
    ensures var s := RunSteps(steps);
            RunSteps(steps + [Step.Write(|s.out|), Step.Read(|s.wire| + |s.out|)]).reader.msgs == s.order
  {
    hide Next;
    var s := RunSteps(steps);
    var w, r := Step.Write(|s.out|), Step.Read(|s.wire| + |s.out|);
    var more := steps + [w, r];
    assert more[..|more| - 1] == steps + [w] && (steps + [w])[..|steps|] == steps;
    StepMoves(s, w);
    StepMoves(Next(s, w), r);
    OrderStays(s, w);
    OrderStays(Next(s, w), r);
    LogFramesInLockOrder(more);
  }

  // What the master acts on.

  predicate IsKnown(frame: P.LogFrame) {
    frame.msgType == P.LOG_MESSAGE || frame.msgType == P.PRINT_MESSAGE
  }

  /** What the master acts on: the frames of the two types it knows. */
  function Known(frames: seq<P.LogFrame>): seq<P.LogFrame> {
    if frames == [] then []
    else if IsKnown(frames[0]) then [frames[0]] + Known(frames[1..])
    else Known(frames[1..])
  }

  /** It acts on the frames of type 1 and 2, and on no other. */
  lemma {:induction false} KnownIff(frames: seq<P.LogFrame>, f: P.LogFrame)
    ensures f in Known(frames) <==> f in frames && (f.msgType == 1 || f.msgType == 2)
  {
    if frames == [] {
    } else {
      KnownIff(frames[1..], f);
      assert frames == [frames[0]] + frames[1..];
    }
  }

  lemma {:induction false} KnownAppend(a: seq<P.LogFrame>, b: seq<P.LogFrame>)
    ensures Known(a + b) == Known(a) + Known(b)
  {
    if a == [] {
      assert a + b == b;
    } else {
      KnownAppend(a[1..], b);
      assert (a + b)[1..] == a[1..] + b;
    }
  }

  /** Frames of unknown types are skipped without losing alignment: what the master acts on is a prefix of
      what of the log it knows. */
  lemma UnknownTypesAreSkipped(steps: seq<Step>)
    requires forall e :: e in steps && e.Lock? ==> |e.frame.body| < U32_MODULUS
    ensures var s := RunSteps(steps);
            && Known(s.reader.msgs) <= Known(s.order)
            && (s.mutex.Free? && s.wire == [] && s.out == [] ==> Known(s.reader.msgs) == Known(s.order))
  {
    LogFramesInLockOrder(steps);
    var s := RunSteps(steps);
    var k := |s.reader.msgs|;
    assert s.order == s.reader.msgs + s.order[k..];
    KnownAppend(s.reader.msgs, s.order[k..]);
  }
}
