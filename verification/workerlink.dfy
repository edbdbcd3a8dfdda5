/** The two ends of the socket between the master and a worker: server/runmaster/workerstream.rs and
    server/runworker/workerstream.rs. Headers travel as bytes, file descriptors beside them, and the worker
    puts the two together again. */
module WorkerLinks {
  import opened Bytes
  import opened Io
  import opened Framing
  import P = Protocol

  type Fd = nat

  /** A client header and the descriptor of the connection it was read from. */
  datatype Pair = Pair(header: P.RequestBuf, fd: Fd)

  function HeadersOf(pairs: seq<Pair>): bytes {
    if pairs == [] then [] else pairs[0].header + HeadersOf(pairs[1..])
  }

  function FdsOf(pairs: seq<Pair>): seq<Fd> {
    seq(|pairs|, i requires 0 <= i < |pairs| => pairs[i].fd)
  }

  // The master's end.

  /** `fds` is the outbound descriptor queue; `accepted` and `dropped` are what `Dispatch` did so far. */
  datatype Sender = Sender(out: bytes, fds: seq<Fd>, accepted: seq<Pair>, dropped: seq<Pair>)

  /** A full descriptor queue drops the request, header and descriptor both. */
  function DispatchOne(s: Sender, capacity: nat, p: Pair): Sender {
    if |s.fds| >= capacity then s.(dropped := s.dropped + [p])
    else Sender(s.out + p.header, s.fds + [p.fd], s.accepted + [p], s.dropped)
  }

  function DispatchAll(s: Sender, capacity: nat, batch: seq<Pair>): Sender
    decreases |batch|
  {
    if batch == [] then s else DispatchAll(DispatchOne(s, capacity, batch[0]), capacity, batch[1..])
  }

  lemma {:induction false} FullQueueDropsAll(s: Sender, capacity: nat, batch: seq<Pair>)
    requires |s.fds| >= capacity
    ensures DispatchAll(s, capacity, batch) == s.(dropped := s.dropped + batch)
    decreases |batch|
  {
    if batch == [] {
    } else {
      FullQueueDropsAll(DispatchOne(s, capacity, batch[0]), capacity, batch[1..]);
      assert batch == [batch[0]] + batch[1..];
      assert s.dropped + batch == s.dropped + [batch[0]] + batch[1..];
    }
  }

  function AcceptAll(s: Sender, batch: seq<Pair>): Sender {
    Sender(s.out + HeadersOf(batch), s.fds + FdsOf(batch), s.accepted + batch, s.dropped)
  }

  lemma AcceptFirst(s: Sender, p: Pair, later: seq<Pair>)
    ensures AcceptAll(s, [p] + later)
         == AcceptAll(Sender(s.out + p.header, s.fds + [p.fd], s.accepted + [p], s.dropped), later)
  {
    assert ([p] + later)[1..] == later;
    Associates(s.out, p.header, HeadersOf(later));
    assert s.accepted + ([p] + later) == s.accepted + [p] + later;
    assert s.fds + FdsOf([p] + later) == s.fds + [p.fd] + FdsOf(later);
  }

  function FreeSlots(s: Sender, capacity: nat, batch: seq<Pair>): (free: nat)
    ensures free <= |batch|
  {
    if |s.fds| >= capacity then 0 else Min(capacity - |s.fds|, |batch|)
  }

  /** Of a batch, as many requests as there are free descriptor slots are accepted, the first ones, in
      order; all the others are dropped. */
  lemma {:induction false} BatchSplit(s: Sender, capacity: nat, batch: seq<Pair>)
    ensures DispatchAll(s, capacity, batch)
         == AcceptAll(s, batch[..FreeSlots(s, capacity, batch)])
            .(dropped := s.dropped + batch[FreeSlots(s, capacity, batch)..])
    decreases |batch|
  {
    var free := FreeSlots(s, capacity, batch);
    if |s.fds| >= capacity {
      FullQueueDropsAll(s, capacity, batch);
    } else if batch != [] {
      var p, later := batch[0], batch[1..];
      BatchSplit(DispatchOne(s, capacity, p), capacity, later);
      assert batch[..free] == [p] + later[..free - 1] && batch[free..] == later[free - 1..];
      hide AcceptAll;
      AcceptFirst(s, p, later[..free - 1]);
    }
  }

  class WorkerStream {
    var outbuffer: bytes
    var inbuffer: bytes
    var interest: Interest
    var fdQueue: seq<Fd>
    const capacity: nat
    ghost var accepted: seq<Pair>
    ghost var dropped: seq<Pair>

    ghost function View(): Sender
      reads this
    {
      Sender(outbuffer, fdQueue, accepted, dropped)
    }

    constructor (interest: Interest, capacity: nat)
      ensures View() == Sender([], [], [], []) && inbuffer == []
      ensures this.interest == interest && this.capacity == capacity
    {
      this.interest, this.capacity := interest, capacity;
      outbuffer, inbuffer, fdQueue, accepted, dropped := [], [], [], [], [];
    }

    function HasData(): bool
      reads this
    {
      outbuffer != []
    }

    method SetInterest(interest: Interest)
      modifies `interest
      ensures this.interest == interest
    {
      this.interest := interest;
    }

    method SendFd(fd: Fd) returns (sent: bool)
      modifies `fdQueue
      ensures sent <==> |old(fdQueue)| < capacity
      ensures fdQueue == if sent then old(fdQueue) + [fd] else old(fdQueue)
    {
      sent := |fdQueue| < capacity;
      if sent {
        fdQueue := fdQueue + [fd];
      }
    }

    method Dispatch(p: Pair)
      modifies `outbuffer, `fdQueue, `accepted, `dropped
      ensures View() == DispatchOne(old(View()), capacity, p)
    {
      var sent := SendFd(p.fd);
      if !sent {
        dropped := dropped + [p];
        return;
      }
      outbuffer := outbuffer + p.header;
      accepted := accepted + [p];
    }

    method Write(w: WriteOutcome) returns (status: Status<P.Error>)
      requires w.Wrote? ==> w.count <= |outbuffer|
      modifies `outbuffer
      ensures status == if w.Wrote? then Done else IoError
      ensures outbuffer == if w.Wrote? then old(outbuffer)[w.count..] else old(outbuffer)
    {
      if w.WriteFailed? {
        return IoError;
      }
      outbuffer := DropFront(outbuffer, w.count);
      status := Done;
    }

    /** The log deframer: every frame is consumed whatever its type, and none is an error. */
    method Read(r: ReadOutcome) returns (frames: seq<P.LogFrame>, status: Status<P.Error>)
      modifies `inbuffer
      ensures r.ReadFailed? ==> status == IoError && frames == [] && inbuffer == old(inbuffer)
      ensures r == ReadBytes([]) ==> status == Closed && frames == [] && inbuffer == old(inbuffer)
      ensures r.ReadBytes? && r.chunk != [] ==>
                && status == Done
                && Parsed(frames, inbuffer, None) == Resume(P.LOG, [], old(inbuffer) + r.chunk)
    {
      frames := [];
      if r.ReadFailed? {
        return frames, IoError;
      }
      if r.chunk == [] {
        return frames, Closed;
      }
      inbuffer := inbuffer + r.chunk;
      hide Parse, Resume;
      ghost var whole := Resume(P.LOG, [], inbuffer);

      while |inbuffer| >= P.LOG_HEADER_SIZE
        invariant Resume(P.LOG, frames, inbuffer) == whole
        decreases |inbuffer|
      {
        LoopTurn(P.LOG, frames, inbuffer);
        var msgType := inbuffer[0];
        var msgLen := FromBE32(inbuffer[1..5]);
        var msgEnd := msgLen + P.LOG_HEADER_SIZE;
        assert inbuffer[..5][1..5] == inbuffer[1..5];
        if |inbuffer| < msgEnd {
          break;
        }
        frames := frames + [P.LogFrame(msgType, inbuffer[P.LOG_HEADER_SIZE..msgEnd])];
        inbuffer := DropFront(inbuffer, msgEnd);
      }
      LoopTurn(P.LOG, frames, inbuffer);
      status := Done;
    }
  }

  // The pool of workers.

  type Token = nat

  function NextIndex(last: nat, count: nat): (i: nat)
    requires count > 0
    ensures i < count
  {
    (last + 1) % count
  }

  class WorkerStreams {
    var streams: seq<(Token, WorkerStream)>
    var lastSend: nat

    ghost predicate Valid()
      reads this
    {
      && (forall i, j :: 0 <= i < j < |streams| ==> streams[i].1 != streams[j].1)
      && (lastSend < |streams| || lastSend == 0)
    }

    ghost function Footprint(): set<WorkerStream>
      reads this
    {
      set i | 0 <= i < |streams| :: streams[i].1
    }

    constructor ()
      ensures Valid() && streams == [] && lastSend == 0
    {
      streams, lastSend := [], 0;
    }

    method Add(tk: Token, stream: WorkerStream)
      requires Valid()
      requires forall i :: 0 <= i < |streams| ==> streams[i].1 != stream
      modifies `streams
      ensures Valid() && streams == old(streams) + [(tk, stream)]
    {
      streams := streams + [(tk, stream)];
    }

    /** One call advances the rotation once and gives the whole queue to one worker. */
    method Dispatch(newRequests: seq<Pair>) returns (left: seq<Pair>)
      requires Valid()
      modifies `lastSend, Footprint()`outbuffer, Footprint()`fdQueue, Footprint()`accepted, Footprint()`dropped
      ensures Valid() && streams == old(streams)
      ensures streams == [] ==> left == newRequests && lastSend == old(lastSend)
      ensures streams != [] ==>
                && left == []
                && lastSend == NextIndex(old(lastSend), |streams|)
                && streams[lastSend].1.View() ==
                   DispatchAll(old(streams[NextIndex(lastSend, |streams|)].1.View()), streams[lastSend].1.capacity,
                               newRequests)
      ensures forall i :: 0 <= i < |streams| && (i != lastSend || streams == []) ==>
                streams[i].1.View() == old(streams[i].1.View())
    {
      left := newRequests;
      if streams == [] {
        return;
      }
      lastSend := lastSend + 1;
      lastSend := lastSend % |streams|;
      var target := streams[lastSend].1;
      ghost var goal := DispatchAll(target.View(), target.capacity, newRequests);
      while left != []
        invariant Valid() && streams == old(streams) && target == streams[lastSend].1
        invariant lastSend == NextIndex(old(lastSend), |streams|)
        invariant DispatchAll(target.View(), target.capacity, left) == goal
        invariant forall i :: 0 <= i < |streams| && i != lastSend ==> streams[i].1.View() == old(streams[i].1.View())
        decreases |left|
      {
        var p := left[0];
        left := left[1..];
        target.Dispatch(p);
      }
    }
  }

  /** The worker selected by the `calls`-th dispatch after one that selected `last`, in a pool that does
      not grow meanwhile. */
  function Selected(last: nat, count: nat, calls: nat): (i: nat)
    requires last < count
    ensures i < count
  {
    if calls == 0 then last else NextIndex(Selected(last, count, calls - 1), count)
  }

  lemma NextIndexWraps(last: nat, count: nat)
    requires last < count
    ensures NextIndex(last, count) == if last + 1 == count then 0 else last + 1
  {
  }

  lemma {:induction false} SelectedWraps(last: nat, count: nat, calls: nat)
    requires last < count && calls <= count
    ensures Selected(last, count, calls) == if last + calls < count then last + calls else last + calls - count
  {
    if calls == 0 {
    } else {
      SelectedWraps(last, count, calls - 1);
      NextIndexWraps(Selected(last, count, calls - 1), count);
    }
  }

  /** Fairness: any `count` consecutive dispatches over a pool of `count` workers select each worker exactly
      once. */
  lemma RotationIsFair(last: nat, count: nat, worker: nat)
    requires last < count && worker < count
    ensures exists k :: 1 <= k <= count && Selected(last, count, k) == worker
    ensures forall j, k :: 1 <= j < k <= count ==> Selected(last, count, j) != Selected(last, count, k)
  {
    hide NextIndex;
    var k := if last < worker then worker - last else worker + count - last;
    SelectedWraps(last, count, k);
    assert Selected(last, count, k) == worker;
    forall j, k | 1 <= j < k <= count ensures Selected(last, count, j) != Selected(last, count, k) {
      SelectedWraps(last, count, j);
      SelectedWraps(last, count, k);
    }
  }

  // The worker's end.

  /** `fds` is the queue of descriptors that have arrived; `taken` is what `next_msg` gave out so far. */
  datatype Receiver = Receiver(inbuffer: bytes, fds: seq<Fd>, msgs: seq<Pair>, taken: seq<Pair>)

  /** At most one pair is made per read, and none without both halves. */
  function PairOne(r: Receiver): Receiver {
    if |r.inbuffer| >= P.REQUEST_HEADER_SIZE && r.fds != [] then
      r.(inbuffer := r.inbuffer[P.REQUEST_HEADER_SIZE..], fds := r.fds[1..],
         msgs := r.msgs + [Pair(r.inbuffer[..P.REQUEST_HEADER_SIZE], r.fds[0])])
    else r
  }

  function TakeOne(r: Receiver): Receiver
    requires r.msgs != []
  {
    r.(msgs := r.msgs[1..], taken := r.taken + [r.msgs[0]])
  }

  class WorkerEnd {
    var inbuffer: bytes
    var outbuffer: bytes
    var fdQueue: seq<Fd>
    var newMsgs: seq<Pair>
    ghost var taken: seq<Pair>

    ghost function View(): Receiver
      reads this
    {
      Receiver(inbuffer, fdQueue, newMsgs, taken)
    }

    constructor ()
      ensures View() == Receiver([], [], [], []) && outbuffer == []
    {
      inbuffer, outbuffer, fdQueue, newMsgs, taken := [], [], [], [], [];
    }

    function HasData(): bool
      reads this
    {
      outbuffer != []
    }

    method Read(r: ReadOutcome) returns (status: Status<P.Error>)
      modifies `inbuffer, `fdQueue, `newMsgs
      ensures r.ReadFailed? ==> status == IoError && View() == old(View())
      ensures r == ReadBytes([]) ==> status == Closed && View() == old(View())
      ensures r.ReadBytes? && r.chunk != [] ==>
                status == Done && View() == PairOne(old(View()).(inbuffer := old(inbuffer) + r.chunk))
    {
      if r.ReadFailed? {
        return IoError;
      }
      if r.chunk == [] {
        return Closed;
      }
      inbuffer := inbuffer + r.chunk;
      // `Inner::read` writes this as a loop and breaks out of it in its first turn.
      if |inbuffer| >= P.REQUEST_HEADER_SIZE {
        if fdQueue != [] {
          var fd := fdQueue[0];
          fdQueue := fdQueue[1..];
          var header := CopyHeader(inbuffer, P.REQUEST_HEADER_SIZE);
          newMsgs := newMsgs + [Pair(header, fd)];
          inbuffer := DropFront(inbuffer, P.REQUEST_HEADER_SIZE);
        }
      }
      status := Done;
    }

    method NextMsg() returns (msg: Option<Pair>)
      modifies `newMsgs, `taken
      ensures old(newMsgs) == [] ==> msg == None && View() == old(View())
      ensures old(newMsgs) != [] ==> msg == Some(old(newMsgs)[0]) && View() == TakeOne(old(View()))
    {
      if newMsgs == [] {
        return None;
      }
      msg := Some(newMsgs[0]);
      taken := taken + [newMsgs[0]];
      newMsgs := newMsgs[1..];
    }

    /** The body that runs under the mutex: three appends, one frame. */
    method NewMsg(msgType: byte, msg: bytes)
      modifies `outbuffer
      ensures outbuffer == old(outbuffer) + P.NewLogMsg(P.LogFrame(msgType, msg))
    {
      var msgLen := ToBE32(|msg|);
      outbuffer := outbuffer + [msgType];
      outbuffer := outbuffer + msgLen;
      outbuffer := outbuffer + msg;
    }

    method Write(w: WriteOutcome) returns (status: Status<P.Error>)
      requires w.Wrote? ==> w.count <= |outbuffer|
      modifies `outbuffer
      ensures status == if w.Wrote? then Done else IoError
      ensures outbuffer == if w.Wrote? then old(outbuffer)[w.count..] else old(outbuffer)
    {
      if w.WriteFailed? {
        return IoError;
      }
      outbuffer := DropFront(outbuffer, w.count);
      status := Done;
    }
  }

  // The link as a state machine.

  datatype Link = Link(sender: Sender, wire: bytes, receiver: Receiver)

  datatype LinkEvent =
    | Dispatched(pair: Pair)
    | LinkWrite(count: nat)
    | PassFds(count: nat)
    | LinkRead(count: nat)
    | Take

  function NewLink(): Link {
    Link(Sender([], [], [], []), [], Receiver([], [], [], []))
  }

  /** Bytes and descriptors move independently, each in order, any number at a time. */
  function NextLink(l: Link, capacity: nat, e: LinkEvent): Link {
    match e
    case Dispatched(p) => l.(sender := DispatchOne(l.sender, capacity, p))
    case LinkWrite(n) =>
      var k := Min(n, |l.sender.out|);
      l.(sender := l.sender.(out := l.sender.out[k..]), wire := l.wire + l.sender.out[..k])
    case PassFds(n) =>
      var k := Min(n, |l.sender.fds|);
      l.(sender := l.sender.(fds := l.sender.fds[k..]),
         receiver := l.receiver.(fds := l.receiver.fds + l.sender.fds[..k]))
    case LinkRead(n) =>
      var k := Min(n, |l.wire|);
      if k == 0 then l
      else l.(wire := l.wire[k..], receiver := PairOne(l.receiver.(inbuffer := l.receiver.inbuffer + l.wire[..k])))
    case Take => if l.receiver.msgs == [] then l else l.(receiver := TakeOne(l.receiver))
  }

  function RunLink(capacity: nat, events: seq<LinkEvent>): Link {
    if events == [] then NewLink()
    else NextLink(RunLink(capacity, events[..|events| - 1]), capacity, events[|events| - 1])
  }

  /** What a write or a transfer of descriptors moves: as many as it may, in order. */
  lemma SenderMoves(l: Link, capacity: nat, n: nat)
    ensures var t := NextLink(l, capacity, LinkWrite(n)); var k := Min(n, |l.sender.out|);
            && |t.sender.out| == |l.sender.out| - k && |t.wire| == |l.wire| + k
            && t.wire + t.sender.out == l.wire + l.sender.out
            && t.receiver == l.receiver && t.sender.fds == l.sender.fds && t.sender.accepted == l.sender.accepted
    ensures var t := NextLink(l, capacity, PassFds(n)); var k := Min(n, |l.sender.fds|);
            && |t.sender.fds| == |l.sender.fds| - k && |t.receiver.fds| == |l.receiver.fds| + k
            && t.receiver.fds + t.sender.fds == l.receiver.fds + l.sender.fds
            && t.wire == l.wire && t.sender.out == l.sender.out && t.sender.accepted == l.sender.accepted
            && t.receiver.inbuffer == l.receiver.inbuffer && t.receiver.msgs == l.receiver.msgs
  {
  }

  /** What a read moves: as many bytes as it may, and with the first of each a pair, when both halves are there. */
  lemma ReaderMoves(l: Link, capacity: nat, n: nat)
    ensures var t := NextLink(l, capacity, LinkRead(n)); var k := Min(n, |l.wire|);
            var both := |l.receiver.inbuffer| + k >= P.REQUEST_HEADER_SIZE && l.receiver.fds != [];
            var pairs := if k > 0 && both then 1 else 0;
            && |t.wire| == |l.wire| - k && t.sender == l.sender
            && |t.receiver.inbuffer| == |l.receiver.inbuffer| + k - P.REQUEST_HEADER_SIZE * pairs
            && |t.receiver.fds| == |l.receiver.fds| - pairs && |t.receiver.msgs| == |l.receiver.msgs| + pairs
            && t.receiver.taken == l.receiver.taken
  {
  }

  /** What a take moves. */
  lemma TakeMoves(l: Link, capacity: nat)
    requires l.receiver.msgs != []
    ensures var t := NextLink(l, capacity, Take);
            && t.receiver.taken == l.receiver.taken + [l.receiver.msgs[0]]
            && [l.receiver.msgs[0]] + t.receiver.msgs == l.receiver.msgs
            && t.sender == l.sender && t.wire == l.wire
  {
  }

  /** What the worker has paired so far. */
  function Paired(l: Link): seq<Pair> {
    l.receiver.taken + l.receiver.msgs
  }

  /** The accepted requests that the worker has not paired yet. */
  function Pending(l: Link): seq<Pair>
    requires Paired(l) <= l.sender.accepted
  {
    l.sender.accepted[|Paired(l)|..]
  }

  /** The pairs made are the first accepted ones; the headers of the others are in the three byte buffers
      and their descriptors in the two queues. */
  ghost predicate LinkInv(l: Link) {
    && Paired(l) <= l.sender.accepted
    && HeadersOf(Pending(l)) == l.receiver.inbuffer + l.wire + l.sender.out
    && FdsOf(Pending(l)) == l.receiver.fds + l.sender.fds
  }

  lemma {:induction false} HeadersOne(pairs: seq<Pair>, p: Pair)
    ensures HeadersOf(pairs + [p]) == HeadersOf(pairs) + p.header
  {
    if pairs == [] {
      assert HeadersOf([p]) == p.header + HeadersOf([]);
    } else {
      HeadersOne(pairs[1..], p);
      assert (pairs + [p])[1..] == pairs[1..] + [p];
      Associates(pairs[0].header, HeadersOf(pairs[1..]), p.header);
    }
  }

  lemma {:induction false} HeadersLength(pairs: seq<Pair>)
    ensures |HeadersOf(pairs)| == P.REQUEST_HEADER_SIZE * |pairs|
  {
    if pairs == [] {
    } else {
      HeadersLength(pairs[1..]);
    }
  }

  lemma DispatchedKeeps(l: Link, capacity: nat, p: Pair)
    requires LinkInv(l)
    ensures LinkInv(NextLink(l, capacity, Dispatched(p)))
  {
    if |l.sender.fds| < capacity {
      var k := |Paired(l)|;
      var pending := l.sender.accepted[k..];
      assert (l.sender.accepted + [p])[k..] == pending + [p];
      HeadersOne(pending, p);
      Associates(l.receiver.inbuffer + l.wire, l.sender.out, p.header);
      assert FdsOf(pending + [p]) == FdsOf(pending) + [p.fd];
      assert l.receiver.fds + (l.sender.fds + [p.fd]) == l.receiver.fds + l.sender.fds + [p.fd];
    }
  }

  /** A complete header and an available descriptor belong to the same accepted request. */
  lemma PairOneKeeps(l: Link)
    requires LinkInv(l)
    ensures LinkInv(l.(receiver := PairOne(l.receiver)))
  {
    var r, s := l.receiver, PairOne(l.receiver);
    if s != r {
      var k := |Paired(l)|;
      var pending := l.sender.accepted[k..];
      HeadersLength(pending);
      assert FdsOf(pending)[0] == r.fds[0];
      assert HeadersOf(pending) == pending[0].header + HeadersOf(pending[1..]);
      assert HeadersOf(pending)[..8] == r.inbuffer[..8];
      assert HeadersOf(pending)[8..] == r.inbuffer[8..] + l.wire + l.sender.out;
      assert FdsOf(pending[1..]) == FdsOf(pending)[1..] == r.fds[1..] + l.sender.fds;
      assert pending[0] == Pair(r.inbuffer[..8], r.fds[0]);
      assert s.taken + s.msgs == Paired(l) + [l.sender.accepted[k]];
      assert l.sender.accepted[k + 1..] == pending[1..];
    }
  }

  lemma WriteKeeps(l: Link, k: nat)
    requires LinkInv(l) && k <= |l.sender.out|
    ensures LinkInv(l.(sender := l.sender.(out := l.sender.out[k..]), wire := l.wire + l.sender.out[..k]))
  {
    hide HeadersOf, FdsOf;
    assert l.receiver.inbuffer + (l.wire + l.sender.out[..k]) + l.sender.out[k..]
        == l.receiver.inbuffer + l.wire + l.sender.out;
  }

  lemma PassKeeps(l: Link, k: nat)
    requires LinkInv(l) && k <= |l.sender.fds|
    ensures LinkInv(l.(sender := l.sender.(fds := l.sender.fds[k..]),
                       receiver := l.receiver.(fds := l.receiver.fds + l.sender.fds[..k])))
  {
    hide HeadersOf, FdsOf;
    assert l.receiver.fds + l.sender.fds[..k] + l.sender.fds[k..] == l.receiver.fds + l.sender.fds;
  }

  lemma FedKeeps(l: Link, k: nat)
    requires LinkInv(l) && k <= |l.wire|
    ensures LinkInv(l.(wire := l.wire[k..], receiver := l.receiver.(inbuffer := l.receiver.inbuffer + l.wire[..k])))
  {
    assert l.receiver.inbuffer + l.wire[..k] + l.wire[k..] == l.receiver.inbuffer + l.wire;
  }

  lemma TakeKeeps(l: Link)
    requires LinkInv(l) && l.receiver.msgs != []
    ensures LinkInv(l.(receiver := TakeOne(l.receiver)))
  {
    hide HeadersOf, FdsOf;
    assert Paired(l.(receiver := TakeOne(l.receiver))) == Paired(l);
  }

  lemma NextLinkKeeps(l: Link, capacity: nat, e: LinkEvent)
    requires LinkInv(l)
    ensures LinkInv(NextLink(l, capacity, e))
  {
    hide LinkInv, PairOne, TakeOne;
    match e
    case Dispatched(p) =>
      DispatchedKeeps(l, capacity, p);
    case LinkWrite(n) =>
      WriteKeeps(l, Min(n, |l.sender.out|));
    case PassFds(n) =>
      PassKeeps(l, Min(n, |l.sender.fds|));
    case LinkRead(n) =>
      var k := Min(n, |l.wire|);
      if k > 0 {
        FedKeeps(l, k);
        PairOneKeeps(l.(wire := l.wire[k..], receiver := l.receiver.(inbuffer := l.receiver.inbuffer + l.wire[..k])));
      }
    case Take =>
      if l.receiver.msgs != [] {
        TakeKeeps(l);
      }
  }

  lemma {:induction false} RunLinkKeeps(capacity: nat, events: seq<LinkEvent>)
    ensures LinkInv(RunLink(capacity, events))
  {
    if events == [] {
    } else {
      RunLinkKeeps(capacity, events[..|events| - 1]);
      NextLinkKeeps(RunLink(capacity, events[..|events| - 1]), capacity, events[|events| - 1]);
    }
  }

  /** Over every run the pairs that the worker takes are a prefix of those that the master accepted, whole
      headers with their own descriptors; they are all of them exactly when no byte is in flight, and
      exactly when no descriptor is; what is in flight is always a whole number of headers. */
  lemma PairsStayTogether(capacity: nat, events: seq<LinkEvent>)
    ensures var l := RunLink(capacity, events);
            && l.receiver.taken <= l.sender.accepted
            && Paired(l) <= l.sender.accepted
            && (Paired(l) == l.sender.accepted <==> l.receiver.inbuffer + l.wire + l.sender.out == [])
            && (Paired(l) == l.sender.accepted <==> l.receiver.fds + l.sender.fds == [])
            && |l.receiver.inbuffer + l.wire + l.sender.out| ==
               P.REQUEST_HEADER_SIZE * (|l.sender.accepted| - |Paired(l)|)
  {
    RunLinkKeeps(capacity, events);
    var l := RunLink(capacity, events);
    HeadersLength(l.sender.accepted[|Paired(l)|..]);
    assert Paired(l)[..|l.receiver.taken|] == l.receiver.taken;
  }

  // One pair per read.

  /** The accepted requests of which header and descriptor have both reached the worker, paired or not. */
  function Arrived(l: Link): int {
    Min((P.REQUEST_HEADER_SIZE * |l.sender.accepted| - |l.wire| - |l.sender.out|) / P.REQUEST_HEADER_SIZE,
        |l.sender.accepted| - |l.sender.fds|)
  }

  /** For every read that brought bytes, how many requests had arrived with it. */
  function Reads(capacity: nat, events: seq<LinkEvent>): seq<int> {
    if events == [] then [] else
    var most, last := events[..|events| - 1], events[|events| - 1];
    var l := RunLink(capacity, most);
    Reads(capacity, most) +
    if last.LinkRead? && Min(last.count, |l.wire|) > 0 then [Arrived(NextLink(l, capacity, last))] else []
  }

  /** There are as many reads as requests, and at every read the requests still missing a half are no more
      than the reads still to come. */
  predicate KeepsUp(seen: seq<int>, requests: int) {
    requests <= |seen| && forall k :: 0 <= k < |seen| ==> requests - seen[k] <= |seen| - 1 - k
  }

  /** What has arrived is what is paired and what could be. */
  lemma ArrivedIs(l: Link)
    requires LinkInv(l)
    ensures Arrived(l) == |Paired(l)| + Min(|l.receiver.inbuffer| / P.REQUEST_HEADER_SIZE, |l.receiver.fds|)
  {
    HeadersLength(Pending(l));
    assert |HeadersOf(Pending(l))| == |l.receiver.inbuffer| + |l.wire| + |l.sender.out|;
    assert |FdsOf(Pending(l))| == |l.receiver.fds| + |l.sender.fds|;
  }

  /** A read pairs one more request if one has arrived that is not paired. */
  lemma ReadPairsOne(l: Link, capacity: nat, n: nat)
    requires LinkInv(l) && Min(n, |l.wire|) > 0
    ensures var m := NextLink(l, capacity, LinkRead(n));
            && Arrived(m) >= |Paired(l)|
            && |Paired(m)| == if Arrived(m) > |Paired(l)| then |Paired(l)| + 1 else |Paired(l)|
  {
    hide LinkInv;
    var k := Min(n, |l.wire|);
    var fed := l.(wire := l.wire[k..], receiver := l.receiver.(inbuffer := l.receiver.inbuffer + l.wire[..k]));
    assert LinkInv(fed) by { FedKeeps(l, k); }
    ArrivedIs(fed);
    assert Arrived(NextLink(l, capacity, LinkRead(n))) == Arrived(fed);
  }

  lemma KeepsUpOneMore(seen: seq<int>, arrived: int, requests: int)
    requires requests > 0
    ensures KeepsUp(seen + [arrived], requests) <==> KeepsUp(seen, requests - 1) && requests <= arrived
  {
    var more := seen + [arrived];
    assert more[|seen|] == arrived && forall k :: 0 <= k < |seen| ==> more[k] == seen[k];
    if KeepsUp(more, requests) {
      forall k | 0 <= k < |seen| ensures requests - 1 - seen[k] <= |seen| - 1 - k {
        assert requests - more[k] <= |more| - 1 - k;
      }
    }
  }

  lemma {:induction false} ReadsSeeAll(capacity: nat, events: seq<LinkEvent>)
    ensures forall k :: 0 <= k < |Reads(capacity, events)| ==> Reads(capacity, events)[k] >= 0
  {
    hide Arrived, RunLink, NextLink;
    if events == [] {
    } else {
      var most, last := events[..|events| - 1], events[|events| - 1];
      ReadsSeeAll(capacity, most);
      RunLinkKeeps(capacity, most);
      NextLinkKeeps(RunLink(capacity, most), capacity, last);
      ArrivedIs(NextLink(RunLink(capacity, most), capacity, last));
    }
  }

  lemma OtherEventsPairNothing(l: Link, capacity: nat, e: LinkEvent)
    requires e.LinkRead? ==> Min(e.count, |l.wire|) == 0
    ensures |Paired(NextLink(l, capacity, e))| == |Paired(l)|
  {
  }

  /** The number of pairs that a run makes. */
  lemma {:induction false} PairsMade(capacity: nat, events: seq<LinkEvent>, requests: nat)
    ensures requests <= |Paired(RunLink(capacity, events))| <==> KeepsUp(Reads(capacity, events), requests)
    decreases |events|
  {
    hide Arrived, LinkInv;
    ReadsSeeAll(capacity, events);
    if requests == 0 {
    } else if events == [] {
    } else {
      var most, last := events[..|events| - 1], events[|events| - 1];
      var l := RunLink(capacity, most);
      PairsMade(capacity, most, requests);
      PairsMade(capacity, most, requests - 1);
      if last.LinkRead? && Min(last.count, |l.wire|) > 0 {
        RunLinkKeeps(capacity, most);
        ReadPairsOne(l, capacity, last.count);
        KeepsUpOneMore(Reads(capacity, most), Arrived(NextLink(l, capacity, last)), requests);
      } else {
        assert Reads(capacity, events) == Reads(capacity, most);
        OtherEventsPairNothing(l, capacity, last);
      }
    }
  }

  /** With at most one pair per read, everything accepted is paired if and only if there are at least as many
      reads as requests and, at every read, the requests that still miss their header or their descriptor are no
      more than the reads that follow. A burst in the last read breaks it; so would a descriptor that came after
      the last byte. */
  lemma AllPairedIff(capacity: nat, events: seq<LinkEvent>)
    ensures var l := RunLink(capacity, events);
            Paired(l) == l.sender.accepted <==> KeepsUp(Reads(capacity, events), |l.sender.accepted|)
  {
    hide KeepsUp, Reads;
    RunLinkKeeps(capacity, events);
    PairsMade(capacity, events, |RunLink(capacity, events).sender.accepted|);
  }

  /** All bytes and descriptors have arrived at the worker. */
  predicate Drained(l: Link) {
    l.sender.out == [] && l.wire == [] && l.sender.fds == []
  }

  lemma RunOneLink(capacity: nat, events: seq<LinkEvent>, e: LinkEvent)
    ensures RunLink(capacity, events + [e]) == NextLink(RunLink(capacity, events), capacity, e)
  {
    assert (events + [e])[..|events|] == events;
  }

  lemma SameFour(a: LinkEvent, b: LinkEvent, c: LinkEvent, d: LinkEvent)
    ensures [] + [a] == [a] && [a] + [b] == [a, b] && [a, b] + [c] == [a, b, c] && [a, b, c] + [d] == [a, b, c, d]
  {
  }

  /** A request whose descriptor comes after its last byte is left unpaired. Whether one can depends on the
      descriptor queue, which is only taken to keep its order. */
  lemma LateDescriptorExample(p: Pair)
    ensures var l := RunLink(2, [Dispatched(p), LinkWrite(8), LinkRead(8), PassFds(1)]);
            Drained(l) && l.sender.accepted == [p] && Paired(l) == []
  {
    var l1 := NextLink(NewLink(), 2, Dispatched(p));
    assert l1.sender == Sender(p.header, [p.fd], [p], []);
    var l2 := NextLink(l1, 2, LinkWrite(8));
    assert l2 == Link(Sender([], [p.fd], [p], []), p.header, Receiver([], [], [], []));
    var l3 := NextLink(l2, 2, LinkRead(8));
    assert l3 == Link(Sender([], [p.fd], [p], []), [], Receiver(p.header, [], [], []));
    var l4 := NextLink(l3, 2, PassFds(1));
    assert l4.sender == Sender([], [], [p], []) && Paired(l4) == [];
    hide NextLink;
    RunOneLink(2, [], Dispatched(p));
    RunOneLink(2, [Dispatched(p)], LinkWrite(8));
    RunOneLink(2, [Dispatched(p), LinkWrite(8)], LinkRead(8));
    RunOneLink(2, [Dispatched(p), LinkWrite(8), LinkRead(8)], PassFds(1));
    SameFour(Dispatched(p), LinkWrite(8), LinkRead(8), PassFds(1));
  }

  /** Of two requests that arrive in one read, the second is left unpaired. */
  lemma BurstExample(p: Pair, q: Pair)
    ensures var l := RunLink(2, [Dispatched(p), Dispatched(q), PassFds(2), LinkWrite(16), LinkRead(16)]);
            Drained(l) && l.sender.accepted == [p, q] && Paired(l) == [p]
  {
    var l1 := NextLink(NewLink(), 2, Dispatched(p));
    assert l1.sender == Sender(p.header, [p.fd], [p], []);
    var l2 := NextLink(l1, 2, Dispatched(q));
    assert l2.sender == Sender(p.header + q.header, [p.fd, q.fd], [p, q], []);
    var l3 := NextLink(l2, 2, PassFds(2));
    assert l3.sender == Sender(p.header + q.header, [], [p, q], []);
    assert l3.receiver == Receiver([], [p.fd, q.fd], [], []);
    var l4 := NextLink(l3, 2, LinkWrite(16));
    assert l4 == Link(Sender([], [], [p, q], []), p.header + q.header, Receiver([], [p.fd, q.fd], [], []));
    var l5 := NextLink(l4, 2, LinkRead(16));
    assert l5.receiver == PairOne(Receiver(p.header + q.header, [p.fd, q.fd], [], [])) && l5.wire == [];
    assert Paired(l5) == [p];
    hide NextLink;
    RunOneLink(2, [], Dispatched(p));
    RunOneLink(2, [Dispatched(p)], Dispatched(q));
    RunOneLink(2, [Dispatched(p), Dispatched(q)], PassFds(2));
    RunOneLink(2, [Dispatched(p), Dispatched(q), PassFds(2)], LinkWrite(16));
    RunOneLink(2, [Dispatched(p), Dispatched(q), PassFds(2), LinkWrite(16)], LinkRead(16));
    SameFour(Dispatched(p), Dispatched(q), PassFds(2), LinkWrite(16));
    assert [Dispatched(p), Dispatched(q), PassFds(2), LinkWrite(16)] + [LinkRead(16)]
        == [Dispatched(p), Dispatched(q), PassFds(2), LinkWrite(16), LinkRead(16)];
  }
}
