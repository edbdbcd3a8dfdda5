/** server/runworker/mod.rs: the event loop of a worker, that is its table of client streams, the hand-over of
    their requests to the Python thread, and its interests. */
module WorkerLoop {
  import opened Bytes
  import opened Io
  import opened Framing
  import opened WorkerLinks
  import opened WorkerClientStream
  import Bincode
  import C = Channels
  import P = Protocol

  /** What a poll should wait for, given the bytes that are waiting to be written. */
  function Wanted(data: bytes): Interest {
    if data != [] then ReadWrite else ReadOnly
  }

  /** Bytes are waiting, and poll will not report that they can be written. */
  predicate Stalls(registered: Interest, data: bytes) {
    !registered.IsWritable() && data != []
  }

  /** What the environment supplies for a new stream: its random id, whether poll registers it, and the
      serialized log record. */
  datatype Opening = Opening(sessionId: Bincode.Utf8, registers: bool, logBody: bytes)

  /** A request on its way to the Python thread, under the id of its session; `tk` is the stream that it came
      from. */
  datatype Work = Work(tk: Token, sessionId: Bincode.Utf8, request: P.RequestMessage)

  /** The requests of one stream, in order. */
  function WorkOf(tk: Token, work: seq<Work>): seq<P.RequestMessage> {
    if work == [] then []
    else WorkOf(tk, work[..|work| - 1]) + (if work[|work| - 1].tk == tk then [work[|work| - 1].request] else [])
  }

  lemma WorkOne(tk: Token, work: seq<Work>, w: Work)
    ensures WorkOf(tk, work + [w]) == WorkOf(tk, work) + (if w.tk == tk then [w.request] else [])
  {
    assert (work + [w])[..|work|] == work;
  }

  /** The log frames of the requests handed over; `record` is the serialized log record of each. */
  function LogsOf(work: seq<Work>, record: Work -> bytes): seq<P.LogFrame> {
    seq(|work|, i requires 0 <= i < |work| => P.LogFrame(P.LOG_MESSAGE, record(work[i])))
  }

  function LogBytes(work: seq<Work>, record: Work -> bytes): bytes {
    C.Encoded(P.NewLogMsg, LogsOf(work, record))
  }

  lemma LogOne(before: bytes, work: seq<Work>, w: Work, record: Work -> bytes)
    ensures before + LogBytes(work, record) + P.NewLogMsg(P.LogFrame(P.LOG_MESSAGE, record(w)))
         == before + LogBytes(work + [w], record)
  {
    var frame := P.LogFrame(P.LOG_MESSAGE, record(w));
    assert LogsOf(work + [w], record) == LogsOf(work, record) + [frame];
    C.EncodedOne(P.NewLogMsg, LogsOf(work, record), frame);
    Associates(before, LogBytes(work, record), P.NewLogMsg(frame));
  }

  lemma LogMore(before: bytes, work: seq<Work>, more: seq<Work>, record: Work -> bytes)
    ensures before + LogBytes(work, record) + LogBytes(more, record) == before + LogBytes(work + more, record)
  {
    var a, b := C.FramesOf(P.NewLogMsg, LogsOf(work, record)), C.FramesOf(P.NewLogMsg, LogsOf(more, record));
    assert C.FramesOf(P.NewLogMsg, LogsOf(work + more, record)) == a + b;
    FlattenAppend(a, b);
    Associates(before, LogBytes(work, record), LogBytes(more, record));
  }

  /** A request has been read that has not been handed over. */
  predicate SomeWaiting(clients: map<Token, State>) {
    exists tk :: tk in clients && clients[tk].reqMsgs != []
  }

  lemma NothingLogged(before: bytes, record: Work -> bytes)
    ensures before + LogBytes([], record) == before
    ensures LogBytes([], record) == []
  {
    assert LogsOf([], record) == [];
  }

  /** Frames are never empty. */
  lemma EncodedFrames(frames: seq<P.LogFrame>)
    ensures C.Encoded(P.NewLogMsg, frames) == [] <==> frames == []
  {
    if frames == [] {
    } else {
      var most, last := frames[..|frames| - 1], frames[|frames| - 1];
      assert frames == most + [last];
      C.EncodedOne(P.NewLogMsg, most, last);
    }
  }

  /** A stream after its turn: nothing left to hand over, and its interest settled. */
  function ServedState(s: State): State {
    s.(reqMsgs := [], interest := Wanted(s.outbuffer))
  }

  function WorkFor(tk: Token, id: Bincode.Utf8, requests: seq<P.RequestMessage>): seq<Work> {
    seq(|requests|, i requires 0 <= i < |requests| => Work(tk, id, requests[i]))
  }

  lemma WorkForLength(tk: Token, id: Bincode.Utf8, requests: seq<P.RequestMessage>)
    ensures WorkFor(tk, id, requests) == [] <==> requests == []
  {
    assert |WorkFor(tk, id, requests)| == |requests|;
  }

  lemma {:induction false} WorkAppend(tk: Token, a: seq<Work>, b: seq<Work>)
    ensures WorkOf(tk, a + b) == WorkOf(tk, a) + WorkOf(tk, b)
  {
    if b == [] {
      assert a + b == a;
    } else {
      var most, last := b[..|b| - 1], b[|b| - 1];
      WorkAppend(tk, a, most);
      assert a + b == (a + most) + [last];
      WorkOne(tk, a + most, last);
    }
  }

  lemma {:induction false} WorkOfStream(t: Token, tk: Token, id: Bincode.Utf8, requests: seq<P.RequestMessage>)
    ensures WorkOf(t, WorkFor(tk, id, requests)) == if t == tk then requests else []
  {
    if requests == [] {
      assert WorkFor(tk, id, requests) == [];
    } else {
      hide WorkOf;
      var most, last := requests[..|requests| - 1], requests[|requests| - 1];
      WorkOfStream(t, tk, id, most);
      assert WorkFor(tk, id, requests) == WorkFor(tk, id, most) + [Work(tk, id, last)];
      WorkOne(t, WorkFor(tk, id, most), Work(tk, id, last));
    }
  }

  lemma WorkMore(t: Token, work: seq<Work>, tk: Token, id: Bincode.Utf8, requests: seq<P.RequestMessage>)
    ensures WorkOf(t, work + WorkFor(tk, id, requests)) == WorkOf(t, work) + (if t == tk then requests else [])
  {
    hide WorkOf, WorkFor;
    WorkAppend(t, work, WorkFor(tk, id, requests));
    WorkOfStream(t, tk, id, requests);
  }

  /** Every request goes on under the session of the stream that it came from. */
  ghost predicate Labelled(clients: map<Token, State>, work: seq<Work>) {
    forall i :: 0 <= i < |work| ==> work[i].tk in clients && work[i].sessionId == clients[work[i].tk].sessionId
  }

  lemma LabelledMore(clients: map<Token, State>, work: seq<Work>, tk: Token)
    requires Labelled(clients, work) && tk in clients
    ensures Labelled(clients, work + WorkFor(tk, clients[tk].sessionId, clients[tk].reqMsgs))
  {
  }

  /** What the log then holds is one record of each request, in the order in which they went. */
  lemma LogsParse(work: seq<Work>, record: Work -> bytes)
    requires forall i :: 0 <= i < |work| ==> |record(work[i])| < U32_MODULUS
    ensures var p := Parse(P.LOG, LogBytes(work, record));
            && p.error == None && p.rest == [] && |p.msgs| == |work|
            && forall i :: 0 <= i < |work| ==> p.msgs[i] == P.LogFrame(1, record(work[i]))
  {
    hide P.NewLogMsg, NextFrame, Parse, Flatten;
    var logs := LogsOf(work, record);
    var frames := C.FramesOf(P.NewLogMsg, logs);
    forall i | 0 <= i < |frames| ensures NextFrame(P.LOG, frames[i]) == Frame(|frames[i]|, logs[i]) {
      P.LogFrameBound(logs[i]);
    }
    ReaderOfFrames(P.LOG, frames, logs, Flatten(frames));
    ReaderHoldsRest(P.LOG, frames, logs, Flatten(frames));
    assert frames[..|frames|] == frames;
  }

  /** The requests of the streams that are not in `todo` have been handed over, each stream's in order. */
  ghost predicate Handed(clients: map<Token, State>, todo: set<Token>, handed: seq<Work>) {
    && (forall tk :: tk in clients ==> WorkOf(tk, handed) == if tk in todo then [] else clients[tk].reqMsgs)
    && (handed != [] ==> SomeWaiting(clients)) && Labelled(clients, handed)
  }

  lemma NothingHanded(clients: map<Token, State>)
    ensures Handed(clients, clients.Keys, [])
  {
  }

  lemma HandedOne(clients: map<Token, State>, todo: set<Token>, handed: seq<Work>, tk: Token)
    requires Handed(clients, todo, handed) && tk in todo && tk in clients
    ensures Handed(clients, todo - {tk}, handed + WorkFor(tk, clients[tk].sessionId, clients[tk].reqMsgs))
  {
    hide WorkOf, WorkFor, Labelled;
    var id, requests := clients[tk].sessionId, clients[tk].reqMsgs;
    LabelledMore(clients, handed, tk);
    forall t | t in clients
      ensures WorkOf(t, handed + WorkFor(tk, id, requests)) == if t in todo - {tk} then [] else clients[t].reqMsgs
    {
      WorkMore(t, handed, tk, id, requests);
      assert [] + requests == requests && WorkOf(t, handed) + [] == WorkOf(t, handed);
    }
    WorkForLength(tk, id, requests);
  }

  lemma HandedAll(clients: map<Token, State>, before: seq<Work>, handed: seq<Work>)
    requires Handed(clients, {}, handed)
    ensures before + handed != before <==> SomeWaiting(clients)
    ensures (before + handed)[|before|..] == handed && Labelled(clients, handed)
    ensures forall tk :: tk in clients ==> WorkOf(tk, before + handed) == WorkOf(tk, before) + clients[tk].reqMsgs
  {
    assert |before + handed| == |before| + |handed|;
    if handed == [] {
      forall tk | tk in clients ensures clients[tk].reqMsgs == [] {
        assert WorkOf(tk, handed) == [];
      }
    }
    forall tk | tk in clients ensures WorkOf(tk, before + handed) == WorkOf(tk, before) + clients[tk].reqMsgs {
      WorkAppend(tk, before, handed);
    }
  }

  lemma LogBytesEmpty(work: seq<Work>, record: Work -> bytes)
    ensures LogBytes(work, record) == [] <==> work == []
  {
    EncodedFrames(LogsOf(work, record));
    assert |LogsOf(work, record)| == |work|;
  }

  lemma NothingEncoded(before: bytes)
    ensures before + C.Encoded(P.NewLogMsg, []) == before
  {
  }

  class Loop {
    const worker: WorkerEnd
    const outputAddr: Bincode.Utf8
    var wsInterest: Interest
    var wsRegistered: Interest
    var clients: map<Token, State>
    var registered: map<Token, Interest>
    var tokenIo: nat
    var work: seq<Work>

    /** Tokens are below the next one, and poll knows the interest that each registered stream has stored. */
    ghost predicate Valid()
      reads this
    {
      && wsRegistered == wsInterest
      && tokenIo >= 1
      && (forall tk :: tk in clients ==> 1 <= tk < tokenIo)
      && registered.Keys <= clients.Keys
      && (forall tk :: tk in registered ==> registered[tk] == clients[tk].interest)
    }

    constructor (outputAddr: Bincode.Utf8)
      ensures Valid() && fresh(worker)
      ensures clients == map[] && work == [] && worker.outbuffer == []
    {
      worker := new WorkerEnd();
      this.outputAddr := outputAddr;
      wsInterest, wsRegistered, clients, registered := ReadOnly, ReadOnly, map[], map[];
      tokenIo, work := 1, [];
    }

    /** A handed-over stream with a bad hello is dropped and uses up no token; one that cannot be registered
        is dropped and does. No stream is replaced. */
    method TakeNewStream(p: Pair, o: Opening)
      requires Valid()
      modifies `clients, `registered, `tokenIo, worker`outbuffer
      ensures Valid() && old(tokenIo) !in old(clients)
      ensures CheckHello(p.header).Err? ==>
                tokenIo == old(tokenIo) && clients == old(clients) && registered == old(registered)
      ensures CheckHello(p.header).Ok? ==> tokenIo == old(tokenIo) + 1
      ensures CheckHello(p.header).Ok? && !o.registers ==> clients == old(clients) && registered == old(registered)
      ensures CheckHello(p.header).Ok? && o.registers ==>
                && clients == old(clients)[old(tokenIo) := NewState(o.sessionId, outputAddr, ReadOnly)]
                && registered == old(registered)[old(tokenIo) := ReadOnly]
                && var s := clients[old(tokenIo)];
                   && s.inbuffer == [] && s.reqMsgs == [] && s.interest == ReadOnly && s.sessionId == o.sessionId
                   && (HelloFits(o.sessionId, outputAddr) ==>
                         ReadServerHello(s.outbuffer) ==
                         Some(Bincode.ResponseClientHello(o.sessionId, o.sessionId, outputAddr)))
      ensures worker.outbuffer == old(worker.outbuffer) +
              if CheckHello(p.header).Ok? && o.registers then P.NewLogMsg(P.LogFrame(P.LOG_MESSAGE, o.logBody)) else []
    {
      NewStreamGreets(o.sessionId, outputAddr, ReadOnly);
      var hello := CheckHello(p.header);
      if hello.Err? {
        return;
      }
      if o.registers {
        worker.NewMsg(P.LOG_MESSAGE, o.logBody);
        clients := clients[tokenIo := NewState(o.sessionId, outputAddr, ReadOnly)];
        registered := registered[tokenIo := ReadOnly];
      }
      tokenIo := tokenIo + 1;
    }

    method SyncWorkerStream()
      requires Valid()
      modifies `wsInterest, `wsRegistered
      ensures Valid() && wsRegistered == Wanted(worker.outbuffer)
    {
      if wsInterest == ReadOnly && worker.HasData() {
        wsInterest := ReadWrite;
        wsRegistered := wsInterest;
      } else if wsInterest.IsWritable() && !worker.HasData() {
        wsInterest := ReadOnly;
        wsRegistered := wsInterest;
      }
    }

    /** The requests of one stream go to the Python thread, in order, each with its log frame. */
    method DrainClient(tk: Token, record: Work -> bytes)
      requires Valid() && tk in clients
      modifies `clients, `work, worker`outbuffer
      ensures Valid() && clients == old(clients)[tk := old(clients)[tk].(reqMsgs := [])]
      ensures work == old(work) + WorkFor(tk, old(clients)[tk].sessionId, old(clients)[tk].reqMsgs)
      ensures var work := WorkFor(tk, old(clients)[tk].sessionId, old(clients)[tk].reqMsgs);
              worker.outbuffer == old(worker.outbuffer) + LogBytes(work, record)
    {
      hide LogBytes, P.NewLogMsg;
      NothingLogged(worker.outbuffer, record);
      var id := clients[tk].sessionId;
      ghost var all, n := clients[tk].reqMsgs, 0;
      assert WorkFor(tk, id, all[..0]) == [];
      while clients[tk].reqMsgs != []
        invariant Valid() && n <= |all|
        invariant tk in clients && clients == old(clients)[tk := old(clients)[tk].(reqMsgs := all[n..])]
        invariant work == old(work) + WorkFor(tk, id, all[..n])
        invariant worker.outbuffer == old(worker.outbuffer) + LogBytes(WorkFor(tk, id, all[..n]), record)
        decreases |all| - n
      {
        var request := clients[tk].reqMsgs[0];
        clients := clients[tk := clients[tk].(reqMsgs := clients[tk].reqMsgs[1..])];
        worker.NewMsg(P.LOG_MESSAGE, record(Work(tk, id, request)));
        LogOne(old(worker.outbuffer), WorkFor(tk, id, all[..n]), Work(tk, id, request), record);
        work := work + [Work(tk, id, request)];
        n := n + 1;
        assert WorkFor(tk, id, all[..n]) == WorkFor(tk, id, all[..n - 1]) + [Work(tk, id, request)];
      }
      assert all[..n] == all;
    }

    /** A stream that poll has lost keeps its interest to itself. */
    method SyncClient(tk: Token)
      requires Valid() && tk in clients
      modifies `clients, `registered
      ensures Valid()
      ensures clients == old(clients)[tk := old(clients)[tk].(interest := Wanted(old(clients)[tk].outbuffer))]
      ensures registered ==
              if tk in old(registered) then old(registered)[tk := clients[tk].interest] else old(registered)
    {
      var stream := clients[tk];
      if stream.interest == ReadOnly && stream.outbuffer != [] {
        clients := clients[tk := stream.(interest := ReadWrite)];
        if tk in registered {
          registered := registered[tk := ReadWrite];
        }
      } else if stream.interest.IsWritable() && stream.outbuffer == [] {
        clients := clients[tk := stream.(interest := ReadOnly)];
        if tk in registered {
          registered := registered[tk := ReadOnly];
        }
      }
    }

    method ServeClient(tk: Token, record: Work -> bytes)
      requires Valid() && tk in clients
      modifies `clients, `registered, `work, worker`outbuffer
      ensures Valid() && registered.Keys == old(registered.Keys)
      ensures clients == old(clients)[tk := ServedState(old(clients)[tk])]
      ensures work == old(work) + WorkFor(tk, old(clients)[tk].sessionId, old(clients)[tk].reqMsgs)
      ensures var work := WorkFor(tk, old(clients)[tk].sessionId, old(clients)[tk].reqMsgs);
              worker.outbuffer == old(worker.outbuffer) + LogBytes(work, record)
    {
      hide LogBytes, WorkFor;
      DrainClient(tk, record);
      SyncClient(tk);
    }

    /** Every stream is served once. When the loop then blocks in poll, each registered client stream is
        waited on for writability exactly when it has something to write, new ones with their hello
        included; the requests of each stream have gone to the Python thread in order; and the log has one
        frame for each request, in the order in which they went. */
    method ServeClients(record: Work -> bytes)
      requires Valid()
      modifies `clients, `registered, `work, worker`outbuffer
      ensures Valid() && old(work) <= work && registered.Keys == old(registered.Keys)
      ensures clients == map tk | tk in old(clients) :: ServedState(old(clients)[tk])
      ensures forall tk :: tk in registered ==> registered[tk] == Wanted(clients[tk].outbuffer)
      ensures forall tk :: tk in clients ==> WorkOf(tk, work) == WorkOf(tk, old(work)) + old(clients)[tk].reqMsgs
      ensures Labelled(old(clients), work[|old(work)|..])
      ensures work != old(work) <==> SomeWaiting(old(clients))
      ensures worker.outbuffer == old(worker.outbuffer) + LogBytes(work[|old(work)|..], record)
    {
      hide LogBytes, WorkOf, WorkFor, Handed, SomeWaiting, Labelled;
      var todo := clients.Keys;
      ghost var handed: seq<Work> := [];
      NothingLogged(worker.outbuffer, record);
      NothingHanded(clients);
      while todo != {}
        invariant Valid() && todo <= clients.Keys == old(clients).Keys && registered.Keys == old(registered.Keys)
        invariant forall tk :: tk in clients ==>
                    clients[tk] == if tk in todo then old(clients)[tk] else ServedState(old(clients)[tk])
        invariant work == old(work) + handed && Handed(old(clients), todo, handed)
        invariant worker.outbuffer == old(worker.outbuffer) + LogBytes(handed, record)
        decreases todo
      {
        var tk :| tk in todo;
        ghost var more := WorkFor(tk, clients[tk].sessionId, clients[tk].reqMsgs);
        HandedOne(old(clients), todo, handed, tk);
        LogMore(old(worker.outbuffer), handed, more, record);
        Associates(old(work), handed, more);
        ServeClient(tk, record);
        handed := handed + more;
        todo := todo - {tk};
      }
      HandedAll(old(clients), old(work), handed);
    }

    /** A turn up to poll, after the new streams are taken; `others` are the frames that the Python thread
        logs meanwhile, after the check of the stream to the master. The client streams are waited on as they
        should be. The stream to the master is left with bytes to write and without interest in writing
        exactly when it was idle at its check and, after it, a request was waiting or the thread logged. */
    method BeforePoll(record: Work -> bytes, others: seq<P.LogFrame>)
      requires Valid()
      modifies `wsInterest, `wsRegistered, `clients, `registered, `work, worker`outbuffer
      ensures Valid()
      ensures clients == map tk | tk in old(clients) :: ServedState(old(clients)[tk])
      ensures forall tk :: tk in registered ==> registered[tk] == clients[tk].interest == Wanted(clients[tk].outbuffer)
      ensures forall tk :: tk in clients ==> WorkOf(tk, work) == WorkOf(tk, old(work)) + old(clients)[tk].reqMsgs
      ensures old(work) <= work && Labelled(old(clients), work[|old(work)|..])
      ensures worker.outbuffer == old(worker.outbuffer) + LogBytes(work[|old(work)|..], record)
                                + C.Encoded(P.NewLogMsg, others)
      ensures Stalls(wsRegistered, worker.outbuffer) <==>
              && old(worker.outbuffer) == []
              && (others != [] || SomeWaiting(old(clients)))
    {
      hide LogBytes, WorkOf, Labelled;
      SyncWorkerStream();
      ServeClients(record);
      OtherThread(others);
      LogBytesEmpty(work[|old(work)|..], record);
      EncodedFrames(others);
    }

    method OtherThread(frames: seq<P.LogFrame>)
      modifies worker`outbuffer
      ensures worker.outbuffer == old(worker.outbuffer) + C.Encoded(P.NewLogMsg, frames)
    {
      hide P.NewLogMsg, C.Encoded;
      NothingEncoded(worker.outbuffer);
      assert frames[..0] == [];
      for n := 0 to |frames|
        invariant worker.outbuffer == old(worker.outbuffer) + C.Encoded(P.NewLogMsg, frames[..n])
      {
        assert frames[..n + 1] == frames[..n] + [frames[n]];
        C.EncodedOne(P.NewLogMsg, frames[..n], frames[n]);
        Associates(old(worker.outbuffer), C.Encoded(P.NewLogMsg, frames[..n]), P.NewLogMsg(frames[n]));
        worker.NewMsg(frames[n].msgType, frames[n].body);
      }
      assert frames[..|frames|] == frames;
    }

    /** An event of a client stream. After a failed read or write the stream is no longer registered; it
        stays in the table, since nothing ever takes it out. */
    method OnClient(tk: Token, readable: bool, r: ReadOutcome, writable: bool, w: WriteOutcome)
      requires Valid() && tk in clients
      requires w.Wrote? ==> w.count <= |clients[tk].outbuffer|
      modifies `clients, `registered
      ensures Valid()
      ensures var s := old(clients)[tk];
              var read := if readable then Reading(s, r) else Outcome(s, Done);
              var written := if writable then Writing(read.state, w) else Outcome(read.state, Done);
              && clients == old(clients)[tk := written.state]
              && registered == (if read.status == Done && written.status == Done then old(registered)
                                else old(registered) - {tk})
    {
      hide Reading, Writing;
      if readable {
        var o := Reading(clients[tk], r);
        clients := clients[tk := o.state];
        if o.status != Done {
          registered := registered - {tk};
        }
      }
      if writable {
        var o := Writing(clients[tk], w);
        clients := clients[tk := o.state];
        if o.status != Done {
          registered := registered - {tk};
        }
      }
    }
  }
}
