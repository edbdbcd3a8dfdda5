/** What each step of the request path does, apart from the invariant that it keeps: what moves and how much, which
    worker a dispatch chooses over a run, and that a request can always be brought to a worker. */
module RequestSteps {
  import opened Bytes
  import opened Channels
  import opened RequestPath
  import opened WorkerLinks
  import opened WorkerClientStream
  import Bincode
  import P = Protocol
  import Client = ClientMainStream

  type Event = RequestPath.Event

  // Dispatch.

  lemma {:induction false} RestOfDispatch(s: System, capacity: nat, w: nat)
    requires w < |s.links|
    ensures DispatchRest(s, capacity, w).completed == s.completed
    decreases |s.waiting|
  {
    if s.waiting == [] {
    } else {
      RestOfDispatch(DispatchFirst(s, capacity, w), capacity, w);
    }
  }

  /** A dispatch gives the whole queue to the worker after the one before, and touches no other. */
  lemma DispatchGoesToNext(s: System, capacity: nat)
    requires s.links != []
    ensures var t := Step(s, capacity, DispatchQueue);
            && t.lastSend == (s.lastSend + 1) % |s.links| && t.waiting == [] && t.completed == s.completed
            && |t.links| == |s.links|
            && (forall i :: 0 <= i < |s.links| && i != t.lastSend ==> t.links[i] == s.links[i])
            && t.links[t.lastSend].wire == s.links[t.lastSend].wire
            && t.links[t.lastSend].receiver == s.links[t.lastSend].receiver
            && t.links[t.lastSend].sender == DispatchAll(s.links[t.lastSend].sender, capacity, s.waiting)
  {
    var w := NextIndex(s.lastSend, |s.links|);
    DispatchIsBatch(s.(lastSend := w), capacity, w);
    RestOfDispatch(s.(lastSend := w), capacity, w);
  }

  predicate InQueue(waiting: seq<Pair>, fd: Fd) {
    exists i :: 0 <= i < |waiting| && waiting[i].fd == fd
  }

  lemma QueuePosition(waiting: seq<Pair>, fd: Fd) returns (k: nat)
    requires InQueue(waiting, fd)
    ensures k < |waiting| && waiting[k].fd == fd
  {
    k :| 0 <= k < |waiting| && waiting[k].fd == fd;
  }

  lemma NotInQueue(waiting: seq<Pair>, fd: Fd)
    requires !InQueue(waiting, fd)
    ensures forall i :: 0 <= i < |waiting| ==> waiting[i].fd != fd
  {
  }

  /** The connections that are not in the queue stay where they are. */
  lemma {:induction false} OthersStay(s: System, capacity: nat, w: nat, fd: Fd)
    requires w < |s.links| && !InQueue(s.waiting, fd)
    ensures var t := DispatchRest(s, capacity, w);
            (fd in t.conns <==> fd in s.conns) && (fd in s.conns ==> t.conns[fd] == s.conns[fd])
    decreases |s.waiting|
  {
    hide NextLink;
    if s.waiting == [] {
    } else {
      assert s.waiting[0].fd != fd;
      forall i | 0 <= i < |s.waiting[1..]| ensures s.waiting[1..][i].fd != fd {
        assert s.waiting[i + 1].fd != fd;
      }
      OthersStay(DispatchFirst(s, capacity, w), capacity, w, fd);
    }
  }

  lemma FirstSlot(s: System, capacity: nat, w: nat)
    requires w < |s.links| && s.waiting != []
    ensures var free := FreeSlots(s.links[w].sender, capacity, s.waiting);
            var left := FreeSlots(DispatchFirst(s, capacity, w).links[w].sender, capacity, s.waiting[1..]);
            if |s.links[w].sender.fds| >= capacity then free == 0 == left else free == left + 1
  {
  }

  /** Of the queue, the first requests are assigned to the worker, as many as it has descriptor slots, and the
      others are refused. */
  lemma {:induction false} QueueIsSplit(s: System, capacity: nat, w: nat, i: nat)
    requires SysInv(s) && w < |s.links| && i < |s.waiting|
    ensures var t := DispatchRest(s, capacity, w); var fd := s.waiting[i].fd;
            && fd in s.conns && fd in t.conns
            && t.conns[fd] == s.conns[fd].(stage :=
                 if i < FreeSlots(s.links[w].sender, capacity, s.waiting) then Assigned(w) else Refused(w))
    decreases |s.waiting|
  {
    hide ConnInv, LinkTracks, NextLink;
    var first := DispatchFirst(s, capacity, w);
    assert s.waiting[0] in s.waiting && s.waiting[i] in s.waiting;
    DispatchFirstKeeps(s, capacity, w);
    FirstSlot(s, capacity, w);
    if i == 0 {
      forall k | 0 <= k < |s.waiting[1..]| ensures s.waiting[1..][k].fd != s.waiting[0].fd {
        assert s.waiting[k + 1].fd != s.waiting[0].fd;
      }
      OthersStay(first, capacity, w, s.waiting[0].fd);
    } else {
      assert s.waiting[1..][i - 1] == s.waiting[i];
      QueueIsSplit(first, capacity, w, i - 1);
    }
  }

  lemma {:induction false} RestKeepsConns(s: System, capacity: nat, w: nat, fd: Fd)
    requires SysInv(s) && w < |s.links| && fd in s.conns
    ensures var t := DispatchRest(s, capacity, w);
            && fd in t.conns
            && (!InQueue(s.waiting, fd) ==> t.conns[fd] == s.conns[fd])
            && (forall i :: 0 <= i < |s.waiting| && s.waiting[i].fd == fd ==>
                  t.conns[fd] == s.conns[fd].(stage :=
                    if i < FreeSlots(s.links[w].sender, capacity, s.waiting) then Assigned(w) else Refused(w)))
  {
    hide SysInv, DispatchRest, FreeSlots, InQueue;
    if InQueue(s.waiting, fd) {
      var k := QueuePosition(s.waiting, fd);
      QueueIsSplit(s, capacity, w, k);
      forall i | 0 <= i < |s.waiting| && s.waiting[i].fd == fd
        ensures DispatchRest(s, capacity, w).conns[fd] == s.conns[fd].(stage :=
                  if i < FreeSlots(s.links[w].sender, capacity, s.waiting) then Assigned(w) else Refused(w))
      {
        QueueIsSplit(s, capacity, w, i);
      }
    } else {
      OthersStay(s, capacity, w, fd);
      NotInQueue(s.waiting, fd);
    }
  }

  /** What a dispatch makes of the connections: those in the queue go to the chosen worker, the others stay. */
  lemma DispatchMovesConns(s: System, capacity: nat, fd: Fd)
    requires SysInv(s) && s.links != [] && fd in s.conns
    ensures var t, w := Step(s, capacity, DispatchQueue), (s.lastSend + 1) % |s.links|;
            && fd in t.conns
            && (!InQueue(s.waiting, fd) ==> t.conns[fd] == s.conns[fd])
            && (forall i :: 0 <= i < |s.waiting| && s.waiting[i].fd == fd ==>
                  t.conns[fd] == s.conns[fd].(stage :=
                    if i < FreeSlots(s.links[w].sender, capacity, s.waiting) then Assigned(w) else Refused(w)))
  {
    hide SysInv, DispatchRest, FreeSlots, InQueue;
    var w := NextIndex(s.lastSend, |s.links|);
    assert SysInv(s.(lastSend := w)) by { LastSendIsFree(s, w); }
    RestKeepsConns(s.(lastSend := w), capacity, w, fd);
  }

  // The rotation over runs.

  function Dispatches(events: seq<Event>): nat {
    if events == [] then 0
    else Dispatches(events[..|events| - 1]) + if events[|events| - 1].DispatchQueue? then 1 else 0
  }

  lemma {:induction false} DispatchesAppend(a: seq<Event>, b: seq<Event>)
    ensures Dispatches(a + b) == Dispatches(a) + Dispatches(b)
  {
    if b == [] {
      assert a + b == a;
    } else {
      DispatchesAppend(a, b[..|b| - 1]);
      assert (a + b)[..|a + b| - 1] == a + b[..|b| - 1];
    }
  }

  lemma StepLastSend(s: System, capacity: nat, e: Event)
    ensures var t := Step(s, capacity, e);
            && |t.links| == |s.links| + (if e.NewWorker? then 1 else 0)
            && t.lastSend == if e.DispatchQueue? && s.links != [] then NextIndex(s.lastSend, |s.links|) else s.lastSend
  {
    hide DispatchRest, NextIndex, NextLink, Channels.Next;
  }

  lemma {:induction false} LastSendInRange(capacity: nat, events: seq<Event>)
    ensures var s := RunSystem(capacity, events); s.lastSend < |s.links| || s.lastSend == 0
  {
    hide Step;
    if events == [] {
    } else {
      LastSendInRange(capacity, events[..|events| - 1]);
      StepLastSend(RunSystem(capacity, events[..|events| - 1]), capacity, events[|events| - 1]);
    }
  }

  lemma RunOneMore(capacity: nat, events: seq<Event>, later: seq<Event>, e: Event)
    ensures RunSystem(capacity, events + (later + [e])) == Step(RunSystem(capacity, events + later), capacity, e)
  {
    hide Step;
    assert (events + (later + [e]))[..|events + later|] == events + later;
  }

  /** While no worker joins, the rotation is where the number of dispatches puts it. */
  lemma {:induction false} LastSendRuns(capacity: nat, events: seq<Event>, later: seq<Event>)
    requires RunSystem(capacity, events).links != [] && NewWorker !in later
    ensures var s, t := RunSystem(capacity, events), RunSystem(capacity, events + later);
            && |t.links| == |s.links| && s.lastSend < |s.links|
            && t.lastSend == Selected(s.lastSend, |s.links|, Dispatches(later))
    decreases |later|
  {
    hide RunSystem, NextIndex, Step;
    LastSendInRange(capacity, events);
    if later == [] {
      assert events + later == events;
    } else {
      var most, last := later[..|later| - 1], later[|later| - 1];
      assert later == most + [last] && last in later;
      LastSendRuns(capacity, events, most);
      RunOneMore(capacity, events, most, last);
      StepLastSend(RunSystem(capacity, events + most), capacity, last);
    }
  }

  lemma OneDispatch()
    ensures Dispatches([DispatchQueue]) == 1
  {
    assert [DispatchQueue][..0] == [];
  }

  /** The dispatches after the j-th event, up to the k-th. */
  lemma DispatchesBetween(later: seq<Event>, j: nat, k: nat)
    requires j < k < |later| && later[j] == later[k] == DispatchQueue
    ensures later[..j + 1] + later[j + 1..k + 1] == later[..k + 1]
    ensures 0 < Dispatches(later[j + 1..k + 1]) == Dispatches(later[j..k])
  {
    hide Dispatches;
    var inner := later[j + 1..k];
    assert later[j..k] == [DispatchQueue] + inner && later[j + 1..k + 1] == inner + [DispatchQueue];
    DispatchesAppend([DispatchQueue], inner);
    DispatchesAppend(inner, [DispatchQueue]);
    OneDispatch();
  }

  /** Fewer than n dispatches apart, in a pool of n workers that does not grow, two dispatches choose different
      workers. */
  lemma DispatchesDiffer(capacity: nat, events: seq<Event>, later: seq<Event>, j: nat, k: nat)
    requires RunSystem(capacity, events).links != [] && NewWorker !in later
    requires j < k < |later| && later[j] == later[k] == DispatchQueue
    requires Dispatches(later[j..k]) < |RunSystem(capacity, events).links|
    ensures RunSystem(capacity, events + later[..j + 1]).lastSend
         != RunSystem(capacity, events + later[..k + 1]).lastSend
  {
    hide RunSystem, NextIndex, Selected, Dispatches;
    var first, between := later[..j + 1], later[j + 1..k + 1];
    DispatchesBetween(later, j, k);
    assert NewWorker !in first && NewWorker !in between;
    LastSendRuns(capacity, events, first);
    var s := RunSystem(capacity, events + first);
    LastSendRuns(capacity, events + first, between);
    Associates(events, first, between);
    SelectedWraps(s.lastSend, |s.links|, Dispatches(between));
  }

  lemma {:induction false} NthDispatch(later: seq<Event>, i: nat) returns (k: nat)
    requires 1 <= i <= Dispatches(later)
    ensures k < |later| && later[k] == DispatchQueue && Dispatches(later[..k + 1]) == i
  {
    var most := later[..|later| - 1];
    if Dispatches(most) >= i {
      k := NthDispatch(most, i);
      assert later[..k + 1] == most[..k + 1];
    } else {
      k := |later| - 1;
      assert later[..k + 1] == later;
    }
  }

  /** Any n dispatches reach every one of n workers. */
  lemma DispatchesReachAll(capacity: nat, events: seq<Event>, later: seq<Event>, w: nat)
    requires NewWorker !in later && w < |RunSystem(capacity, events).links|
    requires Dispatches(later) == |RunSystem(capacity, events).links|
    ensures exists k :: 0 <= k < |later| && later[k] == DispatchQueue &&
                        RunSystem(capacity, events + later[..k + 1]).lastSend == w
  {
    hide RunSystem, NextIndex, Selected;
    var s := RunSystem(capacity, events);
    LastSendRuns(capacity, events, later);
    RotationIsFair(s.lastSend, |s.links|, w);
    var i :| 1 <= i <= |s.links| && Selected(s.lastSend, |s.links|, i) == w;
    var k := NthDispatch(later, i);
    assert NewWorker !in later[..k + 1];
    LastSendRuns(capacity, events, later[..k + 1]);
  }

  /** The logs of a worker change only when a dispatch chooses it. */
  lemma LogsChangeWhenChosen(s: System, capacity: nat, e: Event, w: nat)
    requires w < |s.links|
    ensures var t := Step(s, capacity, e);
            && w < |t.links|
            && (!(e.DispatchQueue? && t.lastSend == w) ==>
                  t.links[w].sender.accepted == s.links[w].sender.accepted
                  && t.links[w].sender.dropped == s.links[w].sender.dropped)
  {
    hide DispatchRest, NextIndex, Channels.Next;
    if e.DispatchQueue? {
      DispatchGoesToNext(s, capacity);
    }
  }

  // The other steps.

  /** A client connects with its hello, and only under a descriptor that is free. */
  lemma ConnectOpens(s: System, capacity: nat, fd: Fd)
    requires fd !in s.conns
    ensures var t := Step(s, capacity, Connect(fd));
            && t == s.(conns := s.conns[fd := t.conns[fd]])
            && t.conns[fd].head == [] && t.conns[fd].stage == AtMaster
            && t.conns[fd].ch.out == [0, 0, 1, 0, 0, 0, 0, 0] && t.conns[fd].ch.sent == []
            && t.conns[fd].ch.wire == [] && t.conns[fd].ch.got == []
  {
    assert ToBE32(0) == [0, 0, 0, 0];
  }

  /** Nothing is on its way to the worker, and it has taken everything. */
  predicate IsIdle(l: Link) {
    && l.sender.out == [] && l.sender.fds == [] && l.wire == []
    && l.receiver.inbuffer == [] && l.receiver.fds == [] && l.receiver.msgs == []
  }

  /** A worker that joins is the last of the pool, with nothing on its way to it. */
  lemma WorkerJoins(s: System, capacity: nat)
    ensures var t := Step(s, capacity, NewWorker);
            && |t.links| == |s.links| + 1 && s.links <= t.links && IsIdle(t.links[|s.links|])
            && t.links[|s.links|].sender.accepted == [] && t.links[|s.links|].receiver.taken == []
            && t.conns == s.conns && t.waiting == s.waiting && t.lastSend == s.lastSend
  {
  }

  /** What moves on the way to a worker, and that it moves nothing on the way to another. */
  lemma TransferMoves(s: System, capacity: nat, w: nat, n: nat, move: LinkEvent)
    requires w < |s.links| && (move == LinkWrite(n) || move == PassFds(n) || move == LinkRead(n))
    ensures var t, k := Step(s, capacity, Transfer(w, move)), Min(n, |s.links[w].wire|);
            && |t.links| == |s.links| && (forall i :: 0 <= i < |s.links| && i != w ==> t.links[i] == s.links[i])
            && t.conns == s.conns && t.waiting == s.waiting && t.lastSend == s.lastSend
            && (move.LinkWrite? ==>
                  && |t.links[w].wire| == |s.links[w].wire| + Min(n, |s.links[w].sender.out|)
                  && t.links[w].wire + t.links[w].sender.out == s.links[w].wire + s.links[w].sender.out)
            && (move.PassFds? ==>
                  && |t.links[w].receiver.fds| == |s.links[w].receiver.fds| + Min(n, |s.links[w].sender.fds|)
                  && t.links[w].receiver.fds + t.links[w].sender.fds == s.links[w].receiver.fds + s.links[w].sender.fds)
            && (move.LinkRead? ==>
                  && |t.links[w].wire| == |s.links[w].wire| - k
                  && |t.links[w].receiver.msgs| == |s.links[w].receiver.msgs| +
                     (if k > 0 && s.links[w].receiver.fds != []
                         && |s.links[w].receiver.inbuffer| + k >= P.REQUEST_HEADER_SIZE then 1 else 0))
  {
    hide NextLink;
    SenderMoves(s.links[w], capacity, n);
    ReaderMoves(s.links[w], capacity, n);
  }

  /** A queued request joins those sent, and its frame the client's buffer. */
  lemma QueueAppends(s: System, capacity: nat, fd: Fd, code: Bincode.CodeString)
    requires fd in s.conns
    ensures var c, d := s.conns[fd], Step(s, capacity, Queue(fd, code)).conns[fd];
            && d.ch.sent == c.ch.sent + [P.CodeStringRequest(code)]
            && c.ch.out <= d.ch.out && d.ch.out[|c.ch.out|..] == Client.CodeFrame(code)
            && d.ch.wire == c.ch.wire && d.ch.got == c.ch.got && d.head == c.head && d.stage == c.stage
  {
    hide Client.CodeFrame;
    SendMoves(P.REQUEST, EncodeRequest, s.conns[fd].ch, P.CodeStringRequest(code));
  }

  /** A client's write moves as many bytes as it may. */
  lemma ClientWriteMoves(s: System, capacity: nat, fd: Fd, n: nat)
    requires fd in s.conns
    ensures var c, t := s.conns[fd], Step(s, capacity, ClientWrite(fd, n));
            && fd in t.conns && var d := t.conns[fd];
               && |d.ch.out| == |c.ch.out| - Min(n, |c.ch.out|) && |d.ch.wire| == |c.ch.wire| + Min(n, |c.ch.out|)
               && d.ch.wire + d.ch.out == c.ch.wire + c.ch.out
               && d.ch.got == c.ch.got && d.ch.sent == c.ch.sent && d.stage == c.stage && d.head == c.head
  {
    hide Channels.Next;
    WriteMoves(P.REQUEST, EncodeRequest, s.conns[fd].ch, n);
  }

  /** The master's read moves as many bytes as it may, but none that follows the header. */
  lemma MasterReadMoves(s: System, capacity: nat, fd: Fd, n: nat)
    requires fd in s.conns && s.conns[fd].stage.AtMaster? && |s.conns[fd].head| < P.REQUEST_HEADER_SIZE
    ensures var c, t := s.conns[fd], Step(s, capacity, MasterRead(fd, n));
            var k := Min(n, Min(|c.ch.wire|, P.REQUEST_HEADER_SIZE - |c.head|));
            && fd in t.conns && var d := t.conns[fd];
               && |d.head| == |c.head| + k && |d.ch.wire| == |c.ch.wire| - k
               && d.head + d.ch.wire == c.head + c.ch.wire && d.ch.out == c.ch.out
               && d.stage == (if |d.head| == P.REQUEST_HEADER_SIZE then Waiting else AtMaster)
               && |t.waiting| == |s.waiting| + (if d.stage.Waiting? then 1 else 0)
  {
  }

  /** A worker's read moves as many bytes as it may, of a connection that it has adopted. */
  lemma WorkerReadMoves(s: System, capacity: nat, fd: Fd, n: nat)
    requires fd in s.conns && s.conns[fd].stage.Adopted? && Inv(P.REQUEST, EncodeRequest, s.conns[fd].ch)
    ensures var c, t := s.conns[fd], Step(s, capacity, WorkerRead(fd, n));
            && fd in t.conns && var d := t.conns[fd];
               && |d.ch.got| == |c.ch.got| + Min(n, |c.ch.wire|) && |d.ch.wire| == |c.ch.wire| - Min(n, |c.ch.wire|)
               && d.ch.got + d.ch.wire == c.ch.got + c.ch.wire && d.ch.out == c.ch.out
               && d.ch.sent == c.ch.sent && d.stage == c.stage && d.head == c.head
  {
    hide Channels.Next, Inv, Encoded;
    Delivery(P.REQUEST, EncodeRequest, s.conns[fd].ch);
    ReaderParses(P.REQUEST, EncodeRequest, s.conns[fd].ch);
    ReadMoves(P.REQUEST, EncodeRequest, s.conns[fd].ch, n);
  }

  // A request can be brought to a worker.

  function RunFrom(s: System, capacity: nat, events: seq<Event>): System {
    if events == [] then s else Step(RunFrom(s, capacity, events[..|events| - 1]), capacity, events[|events| - 1])
  }

  lemma OneStep(s: System, capacity: nat, a: Event)
    ensures RunFrom(s, capacity, [a]) == Step(s, capacity, a)
  {
    hide Step;
    assert [a][..0] == [];
  }

  lemma {:induction false} RunFromOn(s: System, capacity: nat, a: seq<Event>, b: seq<Event>)
    ensures RunFrom(s, capacity, a + b) == RunFrom(RunFrom(s, capacity, a), capacity, b)
  {
    hide Step;
    if b == [] {
      assert a + b == a;
    } else {
      RunFromOn(s, capacity, a, b[..|b| - 1]);
      assert (a + b)[..|a + b| - 1] == a + b[..|b| - 1];
    }
  }

  lemma TwoSteps(s: System, capacity: nat, a: Event, b: Event)
    ensures RunFrom(s, capacity, [a, b]) == Step(Step(s, capacity, a), capacity, b)
  {
    hide Step, RunFrom;
    RunFromOn(s, capacity, [a], [b]);
    assert [a] + [b] == [a, b];
    OneStep(s, capacity, a);
    OneStep(Step(s, capacity, a), capacity, b);
  }

  lemma {:induction false} RunGoesOn(capacity: nat, events: seq<Event>, later: seq<Event>)
    ensures RunSystem(capacity, events + later) == RunFrom(RunSystem(capacity, events), capacity, later)
  {
    hide Step;
    if later == [] {
      assert events + later == events;
    } else {
      RunGoesOn(capacity, events, later[..|later| - 1]);
      assert (events + later)[..|events + later| - 1] == events + later[..|later| - 1];
    }
  }

  /** The client writes out all it has, and the master reads the header. */
  function ToMaster(c: Conn, fd: Fd): seq<Event> {
    [ClientWrite(fd, |c.ch.out|), MasterRead(fd, P.REQUEST_HEADER_SIZE)]
  }

  lemma WrittenOut(c: Conn)
    requires ConnInv(c)
    ensures var ch := Channels.Next(P.REQUEST, EncodeRequest, c.ch, Channels.Write(|c.ch.out|));
            ch == c.ch.(out := [], wire := c.ch.wire + c.ch.out)
    ensures c.stage.AtMaster? ==> |c.head| + |c.ch.wire| + |c.ch.out| >= P.REQUEST_HEADER_SIZE
  {
    assert c.ch.out[..|c.ch.out|] == c.ch.out && c.ch.out[|c.ch.out|..] == [];
    assert |c.head + (c.ch.got + c.ch.wire + c.ch.out)| == |HelloHeader() + Encoded(EncodeRequest, c.ch.sent)|;
  }

  lemma MasterGetsHeader(s: System, capacity: nat, fd: Fd)
    requires SysInv(s) && fd in s.conns && s.conns[fd].stage.AtMaster?
    ensures var t := RunFrom(s, capacity, ToMaster(s.conns[fd], fd));
            && SysInv(t) && fd in t.conns && t.conns[fd].stage == Waiting
            && t.conns[fd].ch.out == [] && t.conns[fd].ch.sent == s.conns[fd].ch.sent
            && |t.conns[fd].head| == P.REQUEST_HEADER_SIZE
            && t.waiting == s.waiting + [Pair(t.conns[fd].head, fd)]
            && t.links == s.links && t.lastSend == s.lastSend
  {
    hide Tracks, LinkTracks, ConnInv, HelloHeader, Encoded, Channels.Next;
    var c := s.conns[fd];
    var e, f := ClientWrite(fd, |c.ch.out|), MasterRead(fd, P.REQUEST_HEADER_SIZE);
    TwoSteps(s, capacity, e, f);
    StepKeeps(s, capacity, e);
    StepKeeps(Step(s, capacity, e), capacity, f);
    HeadLength(c);
    WrittenOut(c);
    assert |c.ch.wire + c.ch.out| == |c.ch.wire| + |c.ch.out|;
  }

  /** The header and the descriptor of one request pass over an idle link. */
  lemma LinkPasses(l: Link, capacity: nat, p: Pair)
    requires IsIdle(l) && capacity > 0
    ensures var l1 := NextLink(l, capacity, LinkEvent.Dispatched(p));
            var l2 := NextLink(l1, capacity, LinkWrite(8));
            var l3 := NextLink(l2, capacity, PassFds(1));
            var l4 := NextLink(l3, capacity, LinkRead(8));
            l4 == l.(sender := l.sender.(accepted := l.sender.accepted + [p]), receiver := l.receiver.(msgs := [p]))
  {
    var l1 := NextLink(l, capacity, LinkEvent.Dispatched(p));
    assert l1.sender == l.sender.(out := p.header, fds := [p.fd], accepted := l.sender.accepted + [p]);
    var l2 := NextLink(l1, capacity, LinkWrite(8));
    assert l2.sender == l1.sender.(out := []) && l2.wire == p.header;
    var l3 := NextLink(l2, capacity, PassFds(1));
    assert l3.sender == l2.sender.(fds := []) && l3.receiver == l.receiver.(fds := [p.fd]);
    var l4 := NextLink(l3, capacity, LinkRead(8));
    assert l4.wire == [] && l4.receiver == PairOne(l.receiver.(inbuffer := p.header, fds := [p.fd]));
    assert p.header[..8] == p.header && p.header[8..] == [];
  }

  /** The queue is dispatched, header and descriptor are passed on, and the worker takes them. */
  function ToWorker(w: nat): seq<Event> {
    [DispatchQueue, Transfer(w, LinkWrite(8))] + [Transfer(w, PassFds(1)), Transfer(w, LinkRead(8))]
  }

  lemma OneInBatch(s: Sender, capacity: nat, p: Pair)
    ensures DispatchAll(s, capacity, [p]) == DispatchOne(s, capacity, p)
  {
  }

  lemma DispatchedLink(l: Link, capacity: nat, p: Pair)
    ensures NextLink(l, capacity, LinkEvent.Dispatched(p)) == l.(sender := DispatchOne(l.sender, capacity, p))
  {
  }

  lemma WorkerGetsPair(s: System, capacity: nat, fd: Fd, w: nat)
    requires SysInv(s) && fd in s.conns && capacity > 0 && s.links != [] && w == (s.lastSend + 1) % |s.links|
    requires |s.conns[fd].head| == P.REQUEST_HEADER_SIZE && s.waiting == [Pair(s.conns[fd].head, fd)]
    requires IsIdle(s.links[w])
    ensures var t := RunFrom(s, capacity, ToWorker(w));
            && SysInv(t) && fd in t.conns && t.conns[fd].ch == s.conns[fd].ch
            && t.conns[fd].head == s.conns[fd].head
            && w < |t.links| && t.links[w].receiver.msgs == [Pair(s.conns[fd].head, fd)]
  {
    hide SysInv, DispatchRest, NextLink, ConnInv;
    var p := Pair(s.conns[fd].head, fd);
    var a, b, c, d := DispatchQueue, Transfer(w, LinkWrite(8)), Transfer(w, PassFds(1)), Transfer(w, LinkRead(8));
    var s1 := Step(s, capacity, a);
    var s2 := Step(s1, capacity, b);
    var s3 := Step(s2, capacity, c);
    DispatchGoesToNext(s, capacity);
    OneInBatch(s.links[w].sender, capacity, p);
    DispatchMovesConns(s, capacity, fd);
    LinkPasses(s.links[w], capacity, p);
    DispatchedLink(s.links[w], capacity, p);
    StepKeeps(s, capacity, a);
    StepKeeps(s1, capacity, b);
    StepKeeps(s2, capacity, c);
    StepKeeps(s3, capacity, d);
    TwoSteps(s, capacity, a, b);
    TwoSteps(s2, capacity, c, d);
    RunFromOn(s, capacity, [a, b], [c, d]);
  }

  lemma AdoptTakes(s: System, capacity: nat, fd: Fd, w: nat, p: Pair)
    requires fd in s.conns && w < |s.links| && s.links[w].receiver.msgs == [p] && p.fd == fd
    requires CheckHello(p.header).Ok?
    ensures var t := Step(s, capacity, Adopt(w)); fd in t.conns && t.conns[fd] == s.conns[fd].(stage := Adopted(w))
  {
    hide CheckHello, TakeOne;
  }

  /** The worker takes the pair and adopts the connection. */
  lemma WorkerAdopts(s: System, capacity: nat, fd: Fd, w: nat)
    requires SysInv(s) && fd in s.conns && w < |s.links|
    requires |s.conns[fd].head| == P.REQUEST_HEADER_SIZE && s.links[w].receiver.msgs == [Pair(s.conns[fd].head, fd)]
    ensures var t := Step(s, capacity, Adopt(w));
            && SysInv(t) && fd in t.conns && t.conns[fd] == s.conns[fd].(stage := Adopted(w))
  {
    hide Tracks, LinkTracks, ConnInv, HelloHeader, CheckHello, Step;
    HeadIsHello(s.conns[fd]);
    HelloIsAccepted();
    AdoptTakes(s, capacity, fd, w, Pair(s.conns[fd].head, fd));
    StepKeeps(s, capacity, Adopt(w));
  }

  lemma ReadAllDelivers(ch: Channel<P.RequestMessage, P.Error>)
    requires Inv(P.REQUEST, EncodeRequest, ch) && ch.out == []
    ensures var t := Channels.Next(P.REQUEST, EncodeRequest, ch, Channels.Read(|ch.wire|));
            t.reader.msgs == t.sent == ch.sent
  {
    hide Inv, Encoded, Channels.Next;
    Delivery(P.REQUEST, EncodeRequest, ch);
    ReaderParses(P.REQUEST, EncodeRequest, ch);
    ReadMoves(P.REQUEST, EncodeRequest, ch, |ch.wire|);
    NextKeepsInv(P.REQUEST, EncodeRequest, ch, Channels.Read(|ch.wire|));
    Delivery(P.REQUEST, EncodeRequest, Channels.Next(P.REQUEST, EncodeRequest, ch, Channels.Read(|ch.wire|)));
  }

  /** The worker adopts the connection and reads all that it finds. */
  lemma WorkerReadsAll(s: System, capacity: nat, fd: Fd, w: nat)
    requires SysInv(s) && fd in s.conns && w < |s.links|
    requires |s.conns[fd].head| == P.REQUEST_HEADER_SIZE && s.links[w].receiver.msgs == [Pair(s.conns[fd].head, fd)]
    requires s.conns[fd].ch.out == []
    ensures var t := RunFrom(s, capacity, [Adopt(w), WorkerRead(fd, |s.conns[fd].ch.wire|)]);
            && fd in t.conns && t.conns[fd].stage == Adopted(w)
            && t.conns[fd].ch.reader.msgs == t.conns[fd].ch.sent == s.conns[fd].ch.sent
  {
    hide Tracks, LinkTracks, ConnInv, HelloHeader, Channels.Next, TakeFirst, RunFrom, Inv;
    TwoSteps(s, capacity, Adopt(w), WorkerRead(fd, |s.conns[fd].ch.wire|));
    WorkerAdopts(s, capacity, fd, w);
    HeadIsHello(s.conns[fd].(stage := Adopted(w)));
    ReadAllDelivers(s.conns[fd].ch);
  }

  /** From every state that a run can reach: with an empty queue, a free slot and an idle worker next, a client that
      has not been handed over, however much it has queued, can be brought to that worker with all of it. */
  lemma RequestsCanArrive(capacity: nat, events: seq<Event>, fd: Fd)
    requires forall e :: e in events ==> Fits(e)
    requires var s := RunSystem(capacity, events);
             && fd in s.conns && s.conns[fd].stage.AtMaster? && s.waiting == []
             && capacity > 0 && s.links != [] && IsIdle(s.links[(s.lastSend + 1) % |s.links|])
    ensures var s := RunSystem(capacity, events); var w := (s.lastSend + 1) % |s.links|;
            exists later :: var t := RunSystem(capacity, events + later);
              && fd in t.conns && t.conns[fd].stage == Adopted(w)
              && t.conns[fd].ch.reader.msgs == t.conns[fd].ch.sent == s.conns[fd].ch.sent
  {
    hide SysInv, Step, RunSystem, RunFrom, ToMaster, ToWorker, Fits;
    RunSystemKeeps(capacity, events);
    var s := RunSystem(capacity, events);
    var w := (s.lastSend + 1) % |s.links|;
    var a, b := ToMaster(s.conns[fd], fd), ToWorker(w);
    var s1 := RunFrom(s, capacity, a);
    MasterGetsHeader(s, capacity, fd);
    NothingInFront([Pair(s1.conns[fd].head, fd)]);
    var s2 := RunFrom(s1, capacity, b);
    WorkerGetsPair(s1, capacity, fd, w);
    var c := [Adopt(w), WorkerRead(fd, |s2.conns[fd].ch.wire|)];
    WorkerReadsAll(s2, capacity, fd, w);
    RunFromOn(s, capacity, a, b);
    RunFromOn(s, capacity, a + b, c);
    RunGoesOn(capacity, events, a + b + c);
  }

  lemma AdoptedGetsAll(c: Conn)
    requires ConnInv(c) && c.stage.Adopted?
    ensures var w := Channels.Next(P.REQUEST, EncodeRequest, c.ch, Channels.Write(|c.ch.out|));
            var t := Channels.Next(P.REQUEST, EncodeRequest, w, Channels.Read(|c.ch.wire| + |c.ch.out|));
            t.reader.msgs == t.sent == c.ch.sent
  {
    hide HelloHeader, Channels.Next, Inv, Encoded;
    HeadLength(c);
    HeadIsHello(c);
    WriteMoves(P.REQUEST, EncodeRequest, c.ch, |c.ch.out|);
    WriteAndReadDeliver(P.REQUEST, EncodeRequest, c.ch);
  }

  lemma AdoptedMoves(s: System, capacity: nat, fd: Fd, n: nat, m: nat)
    requires fd in s.conns && s.conns[fd].stage.Adopted?
    ensures var t := Step(Step(s, capacity, ClientWrite(fd, n)), capacity, WorkerRead(fd, m));
            && fd in t.conns
            && t.conns[fd] == s.conns[fd].(ch := Channels.Next(P.REQUEST, EncodeRequest,
                 Channels.Next(P.REQUEST, EncodeRequest, s.conns[fd].ch, Channels.Write(n)), Channels.Read(m)))
  {
    hide Channels.Next;
  }

  /** And what an adopted connection is sent later arrives by one write and one read. */
  lemma LaterRequestsCanArrive(capacity: nat, events: seq<Event>, fd: Fd)
    requires forall e :: e in events ==> Fits(e)
    requires fd in RunSystem(capacity, events).conns && RunSystem(capacity, events).conns[fd].stage.Adopted?
    ensures var c := RunSystem(capacity, events).conns[fd];
            var later := [ClientWrite(fd, |c.ch.out|), WorkerRead(fd, |c.ch.wire| + |c.ch.out|)];
            var t := RunSystem(capacity, events + later);
            && fd in t.conns && t.conns[fd].stage == c.stage
            && t.conns[fd].ch.reader.msgs == t.conns[fd].ch.sent == c.ch.sent
  {
    hide Tracks, LinkTracks, ConnInv, RunSystem, Step, Channels.Next;
    RunSystemKeeps(capacity, events);
    var s := RunSystem(capacity, events);
    var c := s.conns[fd];
    var a, b := ClientWrite(fd, |c.ch.out|), WorkerRead(fd, |c.ch.wire| + |c.ch.out|);
    RunGoesOn(capacity, events, [a, b]);
    TwoSteps(s, capacity, a, b);
    AdoptedMoves(s, capacity, fd, |c.ch.out|, |c.ch.wire| + |c.ch.out|);
    AdoptedGetsAll(c);
  }
}
