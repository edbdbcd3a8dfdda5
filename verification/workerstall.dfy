/** When a worker blocks in poll with log bytes to write and without waiting to write them: the turns of its
    event loop (server/runworker/mod.rs), its Python thread (server/runworker/pythread.rs), which logs at any
    moment, and the mutex between them. */
module WorkerStall {
  import opened Bytes
  import opened Io
  import opened WorkerLoop
  import F = Framing
  import L = LogChannel
  import P = Protocol

  /** Where the event loop is: before the check of its stream to the master, after it, in poll, or serving
      what poll reported. */
  datatype Phase = BeforeCheck | AfterCheck | InPoll | Serving

  /** `registered` is what poll waits for. `atCheck` is the outbuffer at the last check, and `since` are the
      threads that have appended to it since then. */
  datatype Turns = Turns(log: L.State, registered: Interest, phase: Phase, atCheck: bytes, since: set<L.Thread>)

  datatype Step =
    | Log(step: L.Step)          // a thread takes the mutex or appends
    | Check
    | Block
    | Wake
    | WriteOut(count: nat)
    | EndTurn
    | MasterReads(count: nat)

  function Start(): Turns {
    Turns(L.Start(), ReadOnly, BeforeCheck, [], {})
  }

  /** The Python thread is free to log at all times, the event loop only before poll. */
  predicate MayLog(s: Turns, thread: L.Thread) {
    thread == L.PythonThread || s.phase == BeforeCheck || s.phase == AfterCheck
  }

  function LogStep(s: Turns, e: L.Step): Turns {
    match e
    case Lock(t, _) => if MayLog(s, t) then s.(log := L.Next(s.log, e)) else s
    case Append(t) =>
      if !MayLog(s, t) || s.log.mutex.Free? || s.log.mutex.owner != t then s
      else s.(log := L.Next(s.log, e), since := s.since + {t})
    case _ => s
  }

  /** The check and the write need the mutex; a step that has to wait for it leaves the state as it is. The
      loop writes when poll reports that it can, and poll reports that only to a loop that waits for it. */
  function Next(s: Turns, e: Step): Turns {
    match e
    case Log(step) => LogStep(s, step)
    case Check =>
      if s.phase != BeforeCheck || !s.log.mutex.Free? then s
      else s.(registered := Wanted(s.log.out), phase := AfterCheck, atCheck := s.log.out, since := {})
    case Block =>
      if s.phase != AfterCheck || (s.log.mutex.Held? && s.log.mutex.owner == L.EventLoop) then s
      else s.(phase := InPoll)
    case Wake => if s.phase != InPoll then s else s.(phase := Serving)
    case WriteOut(n) =>
      if s.phase != Serving || !s.registered.IsWritable() then s else s.(log := L.Next(s.log, L.Write(n)))
    case EndTurn => if s.phase != Serving then s else s.(phase := BeforeCheck)
    case MasterReads(n) => s.(log := L.Next(s.log, L.Read(n)))
  }

  function RunFrom(s: Turns, steps: seq<Step>): Turns {
    if steps == [] then s else Next(RunFrom(s, steps[..|steps| - 1]), steps[|steps| - 1])
  }

  /** The steps of the loop, when it can take them: the check looks at the buffer and settles the interest, the loop
      blocks unless it is inside the logger itself, and it wakes and begins anew. */
  lemma LoopMoves(s: Turns, e: Step)
    requires e == Check || e == Block || e == Wake || e == EndTurn
    ensures Next(s, e).log == s.log
    ensures e == Check && s.phase == BeforeCheck && s.log.mutex.Free? ==>
              var t := Next(s, e);
              && t.phase == AfterCheck && t.atCheck == s.log.out && t.since == {}
              && (t.registered.IsWritable() <==> s.log.out != [])
    ensures e == Block && s.phase == AfterCheck && !(s.log.mutex.Held? && s.log.mutex.owner == L.EventLoop) ==>
              Next(s, e) == s.(phase := InPoll)
    ensures e == Wake && s.phase == InPoll ==> Next(s, e) == s.(phase := Serving)
    ensures e == EndTurn && s.phase == Serving ==> Next(s, e) == s.(phase := BeforeCheck)
  {
  }

  /** The steps that move bytes: a write of a loop that was told it can, and a read of the master. */
  lemma BytesMove(s: Turns, n: nat)
    ensures s.phase == Serving && s.registered.IsWritable() && s.log.mutex.Free? ==>
              var t, k := Next(s, WriteOut(n)), Min(n, |s.log.out|);
              && |t.log.out| == |s.log.out| - k && |t.log.wire| == |s.log.wire| + k
              && t.log.wire + t.log.out == s.log.wire + s.log.out
              && t.phase == Serving && t.registered == s.registered && t.log.order == s.log.order
    ensures var t, k := Next(s, MasterReads(n)), Min(n, |s.log.wire|);
            && |t.log.wire| == |s.log.wire| - k && |t.log.got| == |s.log.got| + k
            && t.log.got + t.log.wire == s.log.got + s.log.wire
            && t.log.out == s.log.out && t.phase == s.phase && t.registered == s.registered
  {
    hide F.Feed;
    var k := Min(n, |s.log.wire|);
    assert s.log.got + s.log.wire[..k] + s.log.wire[k..] == s.log.got + s.log.wire;
  }

  /** The logger: the Python thread may enter it at any moment, the loop before it polls, and whoever appends is
      noted. */
  lemma LogMoves(s: Turns, thread: L.Thread, frame: P.LogFrame)
    requires thread == L.PythonThread || s.phase == BeforeCheck || s.phase == AfterCheck
    ensures s.log.mutex.Free? ==>
              var t := Next(s, Log(L.Lock(thread, frame)));
              && t.log.mutex == L.Held(thread, frame, 0) && t.log.order == s.log.order + [frame]
              && t.log.out == s.log.out && t.since == s.since && t.phase == s.phase
    ensures s.log.mutex.Held? && s.log.mutex.owner == thread ==>
              var t := Next(s, Log(L.Append(thread)));
              t.since == s.since + {thread} && s.log.out <= t.log.out && t.phase == s.phase
  {
    hide L.Part;
  }

  /** From its check on until it wakes, the loop waits for what the buffer asked for then, and the buffer has
      only grown, by a type byte at least if anyone has appended. */
  ghost predicate TurnsInv(s: Turns) {
    s.phase == AfterCheck || s.phase == InPoll ==>
      && s.registered == Wanted(s.atCheck)
      && s.atCheck <= s.log.out
      && (s.since != {} <==> |s.log.out| > |s.atCheck|)
      && (s.since == {} ==> s.log.mutex.Free? || s.log.mutex.stage == 0)
  }

  lemma NextKeeps(s: Turns, e: Step)
    requires TurnsInv(s)
    ensures TurnsInv(Next(s, e))
  {
    hide ToBE32, F.Feed;
    match e
    case Log(step) =>
      if step.Append? {
        var t := LogStep(s, step);
        assert t != s ==> t.log.out == s.log.out + L.Part(s.log.mutex.frame, s.log.mutex.stage);
      }
    case Check =>
    case Block =>
    case Wake =>
    case WriteOut(_) =>
    case EndTurn =>
    case MasterReads(_) =>
  }

  lemma {:induction false} RunKeeps(steps: seq<Step>)
    ensures TurnsInv(RunFrom(Start(), steps))
  {
    if steps == [] {
    } else {
      RunKeeps(steps[..|steps| - 1]);
      NextKeeps(RunFrom(Start(), steps[..|steps| - 1]), steps[|steps| - 1]);
    }
  }

  /** Over every run of the two threads: blocked in poll, the worker has bytes to write and does not wait to
      write them if and only if the buffer was empty at the last check and one of the threads has appended
      since, the event loop for a request it served or the Python thread at any moment. */
  lemma StallsIff(steps: seq<Step>)
    ensures var s := RunFrom(Start(), steps);
            s.phase == InPoll ==> (Stalls(s.registered, s.log.out) <==> s.atCheck == [] && s.since != {})
  {
    RunKeeps(steps);
  }

  lemma StalledStep(s: Turns, e: Step)
    requires Stalls(s.registered, s.log.out) && e != Check
    ensures var t := Next(s, e);
            && t.registered == s.registered && s.log.out <= t.log.out
            && t.log.got + t.log.wire == s.log.got + s.log.wire
  {
    hide ToBE32, F.Feed;
    if e.MasterReads? {
      var k := Min(e.count, |s.log.wire|);
      assert s.log.got + s.log.wire[..k] + s.log.wire[k..] == s.log.got + s.log.wire;
    }
  }

  /** Until the next check no byte of the log leaves the worker, whatever happens. */
  lemma {:induction false} StalledUntilCheck(s: Turns, steps: seq<Step>)
    requires Stalls(s.registered, s.log.out)
    requires forall e :: e in steps ==> e != Check
    ensures var t := RunFrom(s, steps);
            && Stalls(t.registered, t.log.out) && s.log.out <= t.log.out
            && t.log.got + t.log.wire == s.log.got + s.log.wire
  {
    if steps == [] {
    } else {
      var most, last := steps[..|steps| - 1], steps[|steps| - 1];
      assert last in steps && forall e :: e in most ==> e in steps;
      StalledUntilCheck(s, most);
      StalledStep(RunFrom(s, most), last);
    }
  }

  // Two runs that stall.

  lemma {:induction false} RunOn(s: Turns, a: seq<Step>, b: seq<Step>)
    ensures RunFrom(s, a + b) == RunFrom(RunFrom(s, a), b)
  {
    hide Next;
    if b == [] {
      assert a + b == a;
    } else {
      RunOn(s, a, b[..|b| - 1]);
      assert (a + b)[..|a + b| - 1] == a + b[..|b| - 1];
    }
  }

  lemma OneStep(s: Turns, e: Step)
    ensures RunFrom(s, [e]) == Next(s, e)
  {
    hide Next;
    assert [e][..0] == [];
  }

  lemma FourSteps(s: Turns, a: Step, b: Step, c: Step, d: Step)
    ensures RunFrom(s, [a, b, c, d]) == Next(Next(Next(Next(s, a), b), c), d)
  {
    hide Next;
    OneStep(s, a);
    OneStep(Next(s, a), b);
    OneStep(Next(Next(s, a), b), c);
    OneStep(Next(Next(Next(s, a), b), c), d);
    RunOn(s, [a], [b]);
    RunOn(s, [a, b], [c]);
    RunOn(s, [a, b, c], [d]);
    assert [a] + [b] == [a, b] && [a, b] + [c] == [a, b, c] && [a, b, c] + [d] == [a, b, c, d];
  }

  /** A whole call of the logger. */
  function Logs(thread: L.Thread, frame: P.LogFrame): seq<Step> {
    [Log(L.Lock(thread, frame)), Log(L.Append(thread)), Log(L.Append(thread)), Log(L.Append(thread))]
  }

  lemma LogsFrame(s: Turns, thread: L.Thread, frame: P.LogFrame)
    requires s.log.mutex.Free? && MayLog(s, thread)
    ensures RunFrom(s, Logs(thread, frame)) ==
            s.(log := s.log.(order := s.log.order + [frame], out := s.log.out + P.NewLogMsg(frame)),
               since := s.since + {thread})
  {
    FourSteps(s, Log(L.Lock(thread, frame)), Log(L.Append(thread)), Log(L.Append(thread)), Log(L.Append(thread)));
    hide ToBE32;
    Associates(s.log.out, [frame.msgType], ToBE32(|frame.body|));
    Associates(s.log.out, [frame.msgType] + ToBE32(|frame.body|), frame.body);
  }

  lemma FramesAreBytes(frame: P.LogFrame)
    ensures P.NewLogMsg(frame) != []
  {
  }

  lemma WritesAll(log: L.State)
    requires log.mutex.Free?
    ensures L.Next(log, L.Write(|log.out|)) == log.(out := [], wire := log.wire + log.out)
  {
    assert log.out[..|log.out|] == log.out && log.out[|log.out|..] == [];
  }

  /** A client stream is taken and logged; the loop writes the frame out. */
  function AdoptOne(adopted: P.LogFrame): seq<Step> {
    Logs(L.EventLoop, adopted) + [Check, Block, Wake, WriteOut(|P.NewLogMsg(adopted)|)] + [EndTurn]
  }

  /** A request of the stream is logged, after the check, and the loop blocks. */
  function ServeOne(queued: P.LogFrame): seq<Step> {
    [Check] + Logs(L.EventLoop, queued) + [Block]
  }

  /** The Python thread logs the start of the request; the loop, woken, writes out both frames and blocks again,
      idle. */
  function WriteOutAll(queued: P.LogFrame, started: P.LogFrame): seq<Step> {
    Logs(L.PythonThread, started) + [Wake, EndTurn, Check, Block]
    + [Wake, WriteOut(|P.NewLogMsg(queued) + P.NewLogMsg(started)|), EndTurn, Check] + [Block]
  }

  /** The worker is before a check, idle; or in poll, idle. */
  predicate IsIdle(s: Turns, phase: Phase, order: seq<P.LogFrame>) {
    s.log.mutex.Free? && s.log.order == order && s.log.out == [] && s.phase == phase
  }

  lemma AdoptRuns(adopted: P.LogFrame)
    ensures IsIdle(RunFrom(Start(), AdoptOne(adopted)), BeforeCheck, [adopted])
  {
    hide P.NewLogMsg, RunFrom, L.Next;
    var frame := P.NewLogMsg(adopted);
    var a, b := Logs(L.EventLoop, adopted), [Check, Block, Wake, WriteOut(|frame|)];
    var s1 := RunFrom(Start(), a);
    LogsFrame(Start(), L.EventLoop, adopted);
    NothingInFront(frame);
    NothingInFront([adopted]);
    FramesAreBytes(adopted);
    FourSteps(s1, Check, Block, Wake, WriteOut(|frame|));
    WritesAll(s1.log);
    OneStep(RunFrom(s1, b), EndTurn);
    RunOn(Start(), a, b);
    RunOn(Start(), a + b, [EndTurn]);
  }

  lemma ServeRuns(s: Turns, order: seq<P.LogFrame>, queued: P.LogFrame)
    requires IsIdle(s, BeforeCheck, order)
    ensures var t := RunFrom(s, ServeOne(queued));
            && t == s.(log := s.log.(order := order + [queued], out := P.NewLogMsg(queued)), registered := ReadOnly,
                       phase := InPoll, atCheck := [], since := {L.EventLoop})
            && Stalls(t.registered, t.log.out)
  {
    hide P.NewLogMsg, RunFrom, L.Next;
    var s1 := Next(s, Check);
    OneStep(s, Check);
    LogsFrame(s1, L.EventLoop, queued);
    NothingInFront(P.NewLogMsg(queued));
    FramesAreBytes(queued);
    assert {} + {L.EventLoop} == {L.EventLoop};
    OneStep(RunFrom(s1, Logs(L.EventLoop, queued)), Block);
    RunOn(s, [Check], Logs(L.EventLoop, queued));
    RunOn(s, [Check] + Logs(L.EventLoop, queued), [Block]);
  }

  lemma WriteOutRuns(s: Turns, order: seq<P.LogFrame>, queued: P.LogFrame, started: P.LogFrame)
    requires s.log.mutex.Free? && s.log.order == order + [queued] && s.log.out == P.NewLogMsg(queued)
    requires s.phase == InPoll
    ensures var t := RunFrom(s, WriteOutAll(queued, started));
            IsIdle(t, InPoll, order + [queued] + [started]) && t.registered == ReadOnly && t.since == {}
  {
    hide P.NewLogMsg, RunFrom, L.Next;
    var both := P.NewLogMsg(queued) + P.NewLogMsg(started);
    var a, b := Logs(L.PythonThread, started), [Wake, EndTurn, Check, Block];
    var c := [Wake, WriteOut(|both|), EndTurn, Check];
    var s1 := RunFrom(s, a);
    LogsFrame(s, L.PythonThread, started);
    FramesAreBytes(queued);
    var s2 := RunFrom(s1, b);
    FourSteps(s1, Wake, EndTurn, Check, Block);
    assert s2 == Turns(s1.log, ReadWrite, InPoll, both, {});
    var s3 := RunFrom(s2, c);
    FourSteps(s2, Wake, WriteOut(|both|), EndTurn, Check);
    WritesAll(s2.log);
    OneStep(s3, Block);
    RunOn(s, a, b);
    RunOn(s, a + b, c);
    RunOn(s, a + b + c, [Block]);
  }

  /** The event loop alone: a stream was taken, logged and written out; its first request is logged after the
      next check, and the worker blocks in poll without waiting to write that frame. */
  lemma EventLoopStallExample(adopted: P.LogFrame, queued: P.LogFrame)
    ensures var s := RunFrom(Start(), AdoptOne(adopted) + ServeOne(queued));
            && s.log.order == [adopted, queued] && s.log.out == P.NewLogMsg(queued)
            && s.phase == InPoll && s.since == {L.EventLoop} && Stalls(s.registered, s.log.out)
  {
    hide P.NewLogMsg, RunFrom, AdoptOne, ServeOne;
    AdoptRuns(adopted);
    ServeRuns(RunFrom(Start(), AdoptOne(adopted)), [adopted], queued);
    RunOn(Start(), AdoptOne(adopted), ServeOne(queued));
    assert [adopted] + [queued] == [adopted, queued];
  }

  /** The Python thread alone: it goes on with that request, and everything is written out. Then, with the event
      loop blocked in poll and nothing to do, the thread logs the end of the request. */
  lemma PythonStallExample(adopted: P.LogFrame, queued: P.LogFrame, started: P.LogFrame, finished: P.LogFrame)
    ensures var steps := AdoptOne(adopted) + ServeOne(queued) + WriteOutAll(queued, started)
                         + Logs(L.PythonThread, finished);
            var s := RunFrom(Start(), steps);
            && s.log.order == [adopted, queued, started, finished] && s.log.out == P.NewLogMsg(finished)
            && s.phase == InPoll && s.since == {L.PythonThread} && Stalls(s.registered, s.log.out)
  {
    hide P.NewLogMsg, RunFrom, AdoptOne, ServeOne, WriteOutAll, Logs;
    AdoptRuns(adopted);
    var s1 := RunFrom(Start(), AdoptOne(adopted));
    ServeRuns(s1, [adopted], queued);
    var s2 := RunFrom(s1, ServeOne(queued));
    WriteOutRuns(s2, [adopted], queued, started);
    var s3 := RunFrom(s2, WriteOutAll(queued, started));
    LogsFrame(s3, L.PythonThread, finished);
    FramesAreBytes(finished);
    NothingInFront(P.NewLogMsg(finished));
    RunOn(Start(), AdoptOne(adopted), ServeOne(queued));
    RunOn(Start(), AdoptOne(adopted) + ServeOne(queued), WriteOutAll(queued, started));
    RunOn(Start(), AdoptOne(adopted) + ServeOne(queued) + WriteOutAll(queued, started), Logs(L.PythonThread, finished));
    assert [adopted] + [queued] + [started] + [finished] == [adopted, queued, started, finished];
    assert {} + {L.PythonThread} == {L.PythonThread};
  }
}
