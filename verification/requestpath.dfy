/** The path of a request over three processes: a client queues and writes, the master reads the first eight
    bytes of each connection, queues them with its descriptor and dispatches them to a worker, and the
    worker pairs header and descriptor, adopts the connection and reads the requests that follow. Any number
    of clients and workers take their steps in any order. */
module RequestPath {
  import opened Bytes
  import opened Framing
  import opened Channels
  import opened WorkerLinks
  import opened WorkerClientStream
  import Bincode
  import P = Protocol
  import Client = ClientMainStream

  /** Where the header of a connection is. */
  datatype Stage =
    | AtMaster                 // not complete
    | Waiting                  // in the master's queue
    | Refused(worker: nat)     // dropped by a worker's full descriptor queue
    | Assigned(worker: nat)    // accepted for a worker that has not taken it
    | Adopted(worker: nat)     // opened by a worker
    | Rejected(worker: nat)    // taken by a worker that did not find a hello in it

  /** `head` is what the master has read; `ch` is the client's end, the socket, and the worker's end. */
  datatype Conn = Conn(head: bytes, ch: Channel<P.RequestMessage, P.Error>, stage: Stage)

  /** `completed` lists the complete headers in the order in which the master got them. */
  datatype System = System(conns: map<Fd, Conn>, waiting: seq<Pair>, completed: seq<Pair>, links: seq<Link>,
                           lastSend: nat)

  datatype Event =
    | Connect(fd: Fd)
    | Queue(fd: Fd, code: Bincode.CodeString)
    | ClientWrite(fd: Fd, count: nat)
    | MasterRead(fd: Fd, count: nat)
    | NewWorker
    | DispatchQueue
    | Transfer(worker: nat, move: LinkEvent)
    | Adopt(worker: nat)
    | WorkerRead(fd: Fd, count: nat)

  function EncodeRequest(m: P.RequestMessage): bytes {
    if m.CodeStringRequest? then Client.CodeFrame(m.codeString) else []
  }

  function NewConn(): Conn {
    Conn([], Channel([], HelloHeader(), [], [], Parsed([], [], None)), AtMaster)
  }

  /** A connection moves on at the client or at the worker. */
  function MoveConn(s: System, fd: Fd, e: Channels.Event<P.RequestMessage>): System {
    if fd !in s.conns then s
    else s.(conns := s.conns[fd := s.conns[fd].(ch := Channels.Next(P.REQUEST, EncodeRequest, s.conns[fd].ch, e))])
  }

  function ReadHead(s: System, fd: Fd, count: nat): System {
    if fd !in s.conns || !s.conns[fd].stage.AtMaster? || |s.conns[fd].head| >= P.REQUEST_HEADER_SIZE then s else
    var c := s.conns[fd];
    var k := Min(count, Min(|c.ch.wire|, P.REQUEST_HEADER_SIZE - |c.head|));
    var d := c.(head := c.head + c.ch.wire[..k], ch := c.ch.(wire := c.ch.wire[k..]));
    if |d.head| < P.REQUEST_HEADER_SIZE then s.(conns := s.conns[fd := d])
    else s.(conns := s.conns[fd := d.(stage := Waiting)], waiting := s.waiting + [Pair(d.head, fd)],
            completed := s.completed + [Pair(d.head, fd)])
  }

  /** The first waiting request goes to worker `w`. */
  function DispatchFirst(s: System, capacity: nat, w: nat): System
    requires s.waiting != [] && w < |s.links|
  {
    var p := s.waiting[0];
    var full := |s.links[w].sender.fds| >= capacity;
    s.(links := s.links[w := NextLink(s.links[w], capacity, LinkEvent.Dispatched(p))],
       waiting := s.waiting[1..],
       conns := if p.fd !in s.conns then s.conns
                else s.conns[p.fd := s.conns[p.fd].(stage := if full then Refused(w) else Assigned(w))])
  }

  function DispatchRest(s: System, capacity: nat, w: nat): (t: System)
    requires w < |s.links|
    ensures t.waiting == [] && |t.links| == |s.links| && t.lastSend == s.lastSend
    decreases |s.waiting|
  {
    if s.waiting == [] then s else DispatchRest(DispatchFirst(s, capacity, w), capacity, w)
  }

  function TakeFirst(s: System, w: nat): System
    requires w < |s.links| && s.links[w].receiver.msgs != []
  {
    var p := s.links[w].receiver.msgs[0];
    var stage := if CheckHello(p.header).Ok? then Adopted(w) else Rejected(w);
    s.(links := s.links[w := s.links[w].(receiver := TakeOne(s.links[w].receiver))],
       conns := if p.fd !in s.conns then s.conns
                else s.conns[p.fd := s.conns[p.fd].(stage := stage)])
  }

  function Step(s: System, capacity: nat, e: Event): System {
    match e
    case Connect(fd) => if fd in s.conns then s else s.(conns := s.conns[fd := NewConn()])
    case Queue(fd, code) => MoveConn(s, fd, Channels.Send(P.CodeStringRequest(code)))
    case ClientWrite(fd, n) => MoveConn(s, fd, Channels.Write(n))
    case MasterRead(fd, n) => ReadHead(s, fd, n)
    case NewWorker => s.(links := s.links + [NewLink()])
    case DispatchQueue =>
      if s.links == [] then s else
      var w := NextIndex(s.lastSend, |s.links|);
      DispatchRest(s.(lastSend := w), capacity, w)
    case Transfer(w, move) =>
      if w >= |s.links| || move.Dispatched? || move.Take? then s
      else s.(links := s.links[w := NextLink(s.links[w], capacity, move)])
    case Adopt(w) => if w >= |s.links| || s.links[w].receiver.msgs == [] then s else TakeFirst(s, w)
    case WorkerRead(fd, n) =>
      if fd !in s.conns || !s.conns[fd].stage.Adopted? then s else MoveConn(s, fd, Channels.Read(n))
  }

  function RunSystem(capacity: nat, events: seq<Event>): System {
    if events == [] then System(map[], [], [], [], 0)
    else Step(RunSystem(capacity, events[..|events| - 1]), capacity, events[|events| - 1])
  }

  // One connection.

  ghost predicate ConnInv(c: Conn) {
    && |c.head| <= P.REQUEST_HEADER_SIZE
    && (c.stage.AtMaster? <==> |c.head| < P.REQUEST_HEADER_SIZE)
    && (!c.stage.Adopted? ==> c.ch.got == [])
    && !c.stage.Rejected?
    && (forall i :: 0 <= i < |c.ch.sent| ==> Faithful(P.REQUEST, EncodeRequest, c.ch.sent[i]))
    && c.head + (c.ch.got + c.ch.wire + c.ch.out) == HelloHeader() + Encoded(EncodeRequest, c.ch.sent)
    && c.ch.reader == Parse(P.REQUEST, c.ch.got)
  }

  lemma NewConnInv()
    ensures ConnInv(NewConn())
  {
    assert FramesOf(EncodeRequest, []) == [];
  }

  /** After the hello, the connection is a channel of requests. */
  lemma HeadIsHello(c: Conn)
    requires ConnInv(c) && |c.head| == P.REQUEST_HEADER_SIZE
    ensures c.head == HelloHeader()
    ensures Inv(P.REQUEST, EncodeRequest, c.ch)
  {
    var all := HelloHeader() + Encoded(EncodeRequest, c.ch.sent);
    assert all[..8] == HelloHeader() && all[..8] == c.head;
    assert all[8..] == Encoded(EncodeRequest, c.ch.sent) && all[8..] == c.ch.got + c.ch.wire + c.ch.out;
  }

  lemma ClientMovesKeep(c: Conn, e: Channels.Event<P.RequestMessage>)
    requires ConnInv(c)
    requires e.Send? ==> Faithful(P.REQUEST, EncodeRequest, e.msg)
    requires e.Read? ==> c.stage.Adopted?
    ensures ConnInv(c.(ch := Channels.Next(P.REQUEST, EncodeRequest, c.ch, e)))
  {
    hide Faithful, Parse, HelloHeader, Encoded;
    var ch := c.ch;
    match e
    case Send(m) =>
      EncodedOne(EncodeRequest, ch.sent, m);
      Associates(ch.got + ch.wire, ch.out, EncodeRequest(m));
      Associates(c.head, ch.got + ch.wire + ch.out, EncodeRequest(m));
      Associates(HelloHeader(), Encoded(EncodeRequest, ch.sent), EncodeRequest(m));
    case Write(n) =>
      var k := Min(n, |ch.out|);
      assert ch.got + (ch.wire + ch.out[..k]) + ch.out[k..] == ch.got + ch.wire + ch.out;
    case Read(n) =>
      var k := Min(n, |ch.wire|);
      assert ch.got + ch.wire[..k] + ch.wire[k..] + ch.out == ch.got + ch.wire + ch.out;
      ParseAppend(P.REQUEST, ch.got, ch.wire[..k]);
  }

  lemma HeadReadKeeps(c: Conn, k: nat, stage: Stage)
    requires ConnInv(c) && c.stage.AtMaster?
    requires k <= |c.ch.wire| && |c.head| + k <= P.REQUEST_HEADER_SIZE
    requires stage == if |c.head| + k == P.REQUEST_HEADER_SIZE then Waiting else AtMaster
    ensures ConnInv(Conn(c.head + c.ch.wire[..k], c.ch.(wire := c.ch.wire[k..]), stage))
  {
    hide Faithful, Parse, HelloHeader, Encoded;
    var ch := c.ch;
    assert c.head + ch.wire[..k] + (ch.got + ch.wire[k..] + ch.out) == c.head + (ch.got + ch.wire + ch.out);
  }

  lemma HeadLength(c: Conn)
    requires ConnInv(c)
    ensures |c.head| <= P.REQUEST_HEADER_SIZE
    ensures c.stage.AtMaster? <==> |c.head| < P.REQUEST_HEADER_SIZE
  {
  }

  lemma HandedOn(c: Conn, stage: Stage)
    requires ConnInv(c) && !c.stage.AtMaster? && !c.stage.Adopted?
    requires !stage.AtMaster? && !stage.Rejected?
    ensures ConnInv(c.(stage := stage))
  {
  }

  // Where the headers are.

  /** `ps` lists, without repetition, the connections whose stage is `stage`. */
  ghost predicate Tracks(conns: map<Fd, Conn>, ps: seq<Pair>, stage: Stage) {
    && (forall p :: p in ps ==> p.fd in conns && conns[p.fd].stage == stage && conns[p.fd].head == p.header)
    && (forall fd :: fd in conns && conns[fd].stage == stage ==>
          |conns[fd].head| == P.REQUEST_HEADER_SIZE && Pair(conns[fd].head, fd) in ps)
    && (forall i, j :: 0 <= i < j < |ps| ==> ps[i].fd != ps[j].fd)
  }

  /** A change of one connection that neither leaves nor enters `stage`. */
  lemma TracksOther(conns: map<Fd, Conn>, fd: Fd, c: Conn, ps: seq<Pair>, stage: Stage)
    requires Tracks(conns, ps, stage)
    requires c.stage != stage && (fd in conns ==> conns[fd].stage != stage)
    ensures Tracks(conns[fd := c], ps, stage)
  {
  }

  lemma TracksSame(conns: map<Fd, Conn>, fd: Fd, c: Conn, ps: seq<Pair>, stage: Stage)
    requires Tracks(conns, ps, stage)
    requires fd in conns && c.stage == conns[fd].stage && c.head == conns[fd].head
    ensures Tracks(conns[fd := c], ps, stage)
  {
  }

  lemma TracksEnter(conns: map<Fd, Conn>, fd: Fd, c: Conn, ps: seq<Pair>, stage: Stage)
    requires Tracks(conns, ps, stage)
    requires fd in conns ==> conns[fd].stage != stage
    requires c.stage == stage && |c.head| == P.REQUEST_HEADER_SIZE
    ensures Tracks(conns[fd := c], ps + [Pair(c.head, fd)], stage)
  {
    forall p | p in ps ensures p.fd != fd {
    }
  }

  lemma TracksLeave(conns: map<Fd, Conn>, c: Conn, ps: seq<Pair>, stage: Stage)
    requires Tracks(conns, ps, stage) && ps != []
    requires c.stage != stage
    ensures Tracks(conns[ps[0].fd := c], ps[1..], stage)
  {
    forall p | p in ps[1..] ensures p.fd != ps[0].fd && p in ps {
      var i :| 0 <= i < |ps[1..]| && ps[1..][i] == p;
      assert ps[i + 1] == p;
    }
    forall fd | fd in conns && conns[fd].stage == stage && fd != ps[0].fd ensures Pair(conns[fd].head, fd) in ps[1..] {
      var i :| 0 <= i < |ps| && ps[i] == Pair(conns[fd].head, fd);
      assert ps[1..][i - 1] == ps[i];
    }
  }

  lemma TracksFirst(conns: map<Fd, Conn>, ps: seq<Pair>, stage: Stage)
    requires Tracks(conns, ps, stage) && ps != []
    ensures var p := ps[0];
            p.fd in conns && conns[p.fd].stage == stage && conns[p.fd].head == p.header
  {
    assert ps[0] in ps;
  }

  /** The accepted requests that the worker has not taken. */
  function Untaken(l: Link): seq<Pair>
    requires LinkInv(l)
  {
    assert Paired(l)[..|l.receiver.taken|] == l.receiver.taken;
    l.sender.accepted[|l.receiver.taken|..]
  }

  ghost predicate LinkTracks(conns: map<Fd, Conn>, l: Link, w: nat) {
    && LinkInv(l)
    && Tracks(conns, Untaken(l), Assigned(w))
    && Tracks(conns, l.receiver.taken, Adopted(w))
    && Tracks(conns, l.sender.dropped, Refused(w))
  }

  predicate StageExists(s: System, stage: Stage) {
    stage.AtMaster? || stage.Waiting? || stage.worker < |s.links|
  }

  ghost predicate SysInv(s: System) {
    && (forall fd :: fd in s.conns ==> ConnInv(s.conns[fd]))
    && Tracks(s.conns, s.waiting, Waiting)
    && (forall w :: 0 <= w < |s.links| ==> LinkTracks(s.conns, s.links[w], w))
    && (forall fd :: fd in s.conns ==> StageExists(s, s.conns[fd].stage))
  }

  predicate AtWorker(stage: Stage, w: nat) {
    !stage.AtMaster? && !stage.Waiting? && stage.worker == w
  }

  /** A change of one connection away from worker `w`. */
  lemma LinkTracksOther(conns: map<Fd, Conn>, fd: Fd, c: Conn, l: Link, w: nat)
    requires LinkTracks(conns, l, w)
    requires !AtWorker(c.stage, w) && (fd in conns ==> !AtWorker(conns[fd].stage, w))
    ensures LinkTracks(conns[fd := c], l, w)
  {
    hide Tracks;
    TracksOther(conns, fd, c, Untaken(l), Assigned(w));
    TracksOther(conns, fd, c, l.receiver.taken, Adopted(w));
    TracksOther(conns, fd, c, l.sender.dropped, Refused(w));
  }

  lemma LinkTracksSame(conns: map<Fd, Conn>, fd: Fd, c: Conn, l: Link, w: nat)
    requires LinkTracks(conns, l, w)
    requires fd in conns && c.stage == conns[fd].stage && c.head == conns[fd].head
    ensures LinkTracks(conns[fd := c], l, w)
  {
    hide Tracks;
    TracksSame(conns, fd, c, Untaken(l), Assigned(w));
    TracksSame(conns, fd, c, l.receiver.taken, Adopted(w));
    TracksSame(conns, fd, c, l.sender.dropped, Refused(w));
  }

  // Every step keeps the invariant.

  lemma ConnectKeeps(s: System, fd: Fd)
    requires SysInv(s) && fd !in s.conns
    ensures SysInv(s.(conns := s.conns[fd := NewConn()]))
  {
    hide Tracks, ConnInv, LinkTracks;
    NewConnInv();
    TracksOther(s.conns, fd, NewConn(), s.waiting, Waiting);
    forall w | 0 <= w < |s.links| ensures LinkTracks(s.conns[fd := NewConn()], s.links[w], w) {
      LinkTracksOther(s.conns, fd, NewConn(), s.links[w], w);
    }
  }

  lemma MoveConnKeeps(s: System, fd: Fd, e: Channels.Event<P.RequestMessage>)
    requires SysInv(s) && fd in s.conns
    requires e.Send? ==> Faithful(P.REQUEST, EncodeRequest, e.msg)
    requires e.Read? ==> s.conns[fd].stage.Adopted?
    ensures SysInv(MoveConn(s, fd, e))
  {
    hide Tracks, ConnInv, LinkTracks, Channels.Next, Faithful;
    var c := s.conns[fd];
    var d := c.(ch := Channels.Next(P.REQUEST, EncodeRequest, c.ch, e));
    ClientMovesKeep(c, e);
    TracksSame(s.conns, fd, d, s.waiting, Waiting);
    forall w | 0 <= w < |s.links| ensures LinkTracks(s.conns[fd := d], s.links[w], w) {
      LinkTracksSame(s.conns, fd, d, s.links[w], w);
    }
  }

  lemma ReadHeadKeeps(s: System, fd: Fd, count: nat)
    requires SysInv(s)
    ensures SysInv(ReadHead(s, fd, count))
  {
    hide Tracks, ConnInv, LinkTracks;
    if fd in s.conns && s.conns[fd].stage.AtMaster? {
      var c := s.conns[fd];
      HeadLength(c);
      var k := Min(count, Min(|c.ch.wire|, P.REQUEST_HEADER_SIZE - |c.head|));
      var stage := if |c.head| + k == P.REQUEST_HEADER_SIZE then Waiting else AtMaster;
      var d := Conn(c.head + c.ch.wire[..k], c.ch.(wire := c.ch.wire[k..]), stage);
      HeadReadKeeps(c, k, stage);
      if stage.Waiting? {
        TracksEnter(s.conns, fd, d, s.waiting, Waiting);
      } else {
        TracksOther(s.conns, fd, d, s.waiting, Waiting);
      }
      forall w | 0 <= w < |s.links| ensures LinkTracks(s.conns[fd := d], s.links[w], w) {
        LinkTracksOther(s.conns, fd, d, s.links[w], w);
      }
    }
  }

  lemma NewLinkTracks(conns: map<Fd, Conn>, w: nat)
    requires forall fd :: fd in conns ==> !AtWorker(conns[fd].stage, w)
    ensures LinkTracks(conns, NewLink(), w)
  {
  }

  lemma NewWorkerKeeps(s: System)
    requires SysInv(s)
    ensures SysInv(s.(links := s.links + [NewLink()]))
  {
    hide ConnInv, LinkTracks;
    forall fd | fd in s.conns ensures !AtWorker(s.conns[fd].stage, |s.links|) {
      assert StageExists(s, s.conns[fd].stage);
    }
    NewLinkTracks(s.conns, |s.links|);
  }

  lemma TransferTracks(conns: map<Fd, Conn>, l: Link, capacity: nat, w: nat, move: LinkEvent)
    requires LinkTracks(conns, l, w)
    requires !move.Dispatched? && !move.Take?
    ensures LinkTracks(conns, NextLink(l, capacity, move), w)
  {
    hide Tracks, LinkInv;
    NextLinkKeeps(l, capacity, move);
  }

  lemma TransferKeeps(s: System, capacity: nat, w: nat, move: LinkEvent)
    requires SysInv(s) && w < |s.links|
    requires !move.Dispatched? && !move.Take?
    ensures SysInv(s.(links := s.links[w := NextLink(s.links[w], capacity, move)]))
  {
    hide Tracks, ConnInv, LinkTracks, NextLink;
    TransferTracks(s.conns, s.links[w], capacity, w, move);
  }

  /** Accepting a request lengthens what is untaken by it; refusing one lengthens the drop log. */
  lemma UntakenGrows(l: Link, capacity: nat, p: Pair)
    requires LinkInv(l)
    ensures var m := NextLink(l, capacity, LinkEvent.Dispatched(p)); var full := |l.sender.fds| >= capacity;
            && LinkInv(m)
            && Untaken(m) == (if full then Untaken(l) else Untaken(l) + [p])
            && m.sender.dropped == (if full then l.sender.dropped + [p] else l.sender.dropped)
            && m.receiver.taken == l.receiver.taken
  {
    NextLinkKeeps(l, capacity, LinkEvent.Dispatched(p));
    assert Paired(l)[..|l.receiver.taken|] == l.receiver.taken;
  }

  /** Taking a pair takes the first of what was accepted and untaken. */
  lemma UntakenShrinks(l: Link)
    requires LinkInv(l) && l.receiver.msgs != []
    ensures var m := l.(receiver := TakeOne(l.receiver));
            && LinkInv(m)
            && Untaken(l) == [l.receiver.msgs[0]] + Untaken(m)
            && m.sender == l.sender
            && m.receiver.taken == l.receiver.taken + [l.receiver.msgs[0]]
  {
    hide HeadersOf, FdsOf;
    NextLinkKeeps(l, 0, Take);
    var k := |l.receiver.taken|;
    assert Paired(l)[k] == l.receiver.msgs[0];
    assert l.sender.accepted[k..] == [l.sender.accepted[k]] + l.sender.accepted[k + 1..];
  }

  /** Worker `w` accepts or refuses a waiting request. */
  lemma DispatchedTracks(conns: map<Fd, Conn>, l: Link, capacity: nat, w: nat, p: Pair, stage: Stage)
    requires LinkTracks(conns, l, w)
    requires p.fd in conns && conns[p.fd].stage == Waiting && conns[p.fd].head == p.header
    requires stage == if |l.sender.fds| >= capacity then Refused(w) else Assigned(w)
    ensures LinkTracks(conns[p.fd := conns[p.fd].(stage := stage)], NextLink(l, capacity, LinkEvent.Dispatched(p)), w)
  {
    hide Tracks, LinkInv, NextLink, Untaken;
    UntakenGrows(l, capacity, p);
    var d := conns[p.fd].(stage := stage);
    assert Pair(d.head, p.fd) == p;
    if stage.Refused? {
      TracksOther(conns, p.fd, d, Untaken(l), Assigned(w));
      TracksEnter(conns, p.fd, d, l.sender.dropped, Refused(w));
    } else {
      TracksEnter(conns, p.fd, d, Untaken(l), Assigned(w));
      TracksOther(conns, p.fd, d, l.sender.dropped, Refused(w));
    }
    TracksOther(conns, p.fd, d, l.receiver.taken, Adopted(w));
  }

  lemma DispatchFirstKeeps(s: System, capacity: nat, w: nat)
    requires SysInv(s) && s.waiting != [] && w < |s.links|
    ensures SysInv(DispatchFirst(s, capacity, w))
  {
    hide Tracks, ConnInv, LinkTracks, NextLink;
    var p := s.waiting[0];
    var stage := if |s.links[w].sender.fds| >= capacity then Refused(w) else Assigned(w);
    TracksFirst(s.conns, s.waiting, Waiting);
    var d := s.conns[p.fd].(stage := stage);
    HandedOn(s.conns[p.fd], stage);
    TracksLeave(s.conns, d, s.waiting, Waiting);
    DispatchedTracks(s.conns, s.links[w], capacity, w, p, stage);
    forall v | 0 <= v < |s.links| && v != w ensures LinkTracks(s.conns[p.fd := d], s.links[v], v) {
      LinkTracksOther(s.conns, p.fd, d, s.links[v], v);
    }
  }

  lemma {:induction false} DispatchRestKeeps(s: System, capacity: nat, w: nat)
    requires SysInv(s) && w < |s.links|
    ensures SysInv(DispatchRest(s, capacity, w))
    decreases |s.waiting|
  {
    hide SysInv;
    if s.waiting == [] {
    } else {
      DispatchFirstKeeps(s, capacity, w);
      DispatchRestKeeps(DispatchFirst(s, capacity, w), capacity, w);
    }
  }

  lemma TakenTracks(conns: map<Fd, Conn>, l: Link, w: nat)
    requires LinkTracks(conns, l, w) && l.receiver.msgs != []
    ensures var p := l.receiver.msgs[0];
            && p.fd in conns && conns[p.fd].stage == Assigned(w) && conns[p.fd].head == p.header
            && LinkTracks(conns[p.fd := conns[p.fd].(stage := Adopted(w))], l.(receiver := TakeOne(l.receiver)), w)
  {
    hide Tracks, LinkInv, Untaken;
    var p := l.receiver.msgs[0];
    UntakenShrinks(l);
    TracksFirst(conns, Untaken(l), Assigned(w));
    var d := conns[p.fd].(stage := Adopted(w));
    assert Pair(d.head, p.fd) == p;
    assert Untaken(l)[1..] == Untaken(l.(receiver := TakeOne(l.receiver)));
    TracksLeave(conns, d, Untaken(l), Assigned(w));
    TracksEnter(conns, p.fd, d, l.receiver.taken, Adopted(w));
    TracksOther(conns, p.fd, d, l.sender.dropped, Refused(w));
  }

  /** Worker `w` takes its first pair: it is an accepted request, and it opens with a hello. */
  lemma TakeFirstKeeps(s: System, w: nat)
    requires SysInv(s) && w < |s.links| && s.links[w].receiver.msgs != []
    ensures SysInv(TakeFirst(s, w))
  {
    hide Tracks, ConnInv, LinkTracks, CheckHello, TakeOne, HelloHeader;
    var p := s.links[w].receiver.msgs[0];
    TakenTracks(s.conns, s.links[w], w);
    var d := s.conns[p.fd].(stage := Adopted(w));
    HandedOn(s.conns[p.fd], Adopted(w));
    HeadIsHello(s.conns[p.fd]);
    HelloIsAccepted();
    TracksOther(s.conns, p.fd, d, s.waiting, Waiting);
    forall v | 0 <= v < |s.links| && v != w ensures LinkTracks(s.conns[p.fd := d], s.links[v], v) {
      LinkTracksOther(s.conns, p.fd, d, s.links[v], v);
    }
  }

  /** The bound that the 32-bit length puts on a request. */
  predicate Fits(e: Event) {
    e.Queue? ==> |Bincode.PutCodeString(e.code)| < U32_MODULUS
  }

  lemma LastSendIsFree(s: System, w: nat)
    requires SysInv(s)
    ensures SysInv(s.(lastSend := w))
  {
    hide Tracks, ConnInv, LinkTracks;
  }

  lemma StepKeeps(s: System, capacity: nat, e: Event)
    requires SysInv(s) && Fits(e)
    ensures SysInv(Step(s, capacity, e))
  {
    hide SysInv;
    match e
    case Connect(fd) => if fd !in s.conns { ConnectKeeps(s, fd); }
    case Queue(fd, code) =>
      P.RequestFrameBound(code, 0);
      assert Faithful(P.REQUEST, EncodeRequest, P.CodeStringRequest(code));
      if fd in s.conns { MoveConnKeeps(s, fd, Channels.Send(P.CodeStringRequest(code))); }
    case ClientWrite(fd, n) => if fd in s.conns { MoveConnKeeps(s, fd, Channels.Write(n)); }
    case MasterRead(fd, n) => ReadHeadKeeps(s, fd, n);
    case NewWorker => NewWorkerKeeps(s);
    case DispatchQueue =>
      if s.links != [] {
        var w := NextIndex(s.lastSend, |s.links|);
        assert SysInv(s.(lastSend := w)) by { LastSendIsFree(s, w); }
        DispatchRestKeeps(s.(lastSend := w), capacity, w);
      }
    case Transfer(w, move) =>
      if w < |s.links| && !move.Dispatched? && !move.Take? { TransferKeeps(s, capacity, w, move); }
    case Adopt(w) => if w < |s.links| && s.links[w].receiver.msgs != [] { TakeFirstKeeps(s, w); }
    case WorkerRead(fd, n) =>
      if fd in s.conns && s.conns[fd].stage.Adopted? { MoveConnKeeps(s, fd, Channels.Read(n)); }
  }

  lemma {:induction false} RunSystemKeeps(capacity: nat, events: seq<Event>)
    requires forall e :: e in events ==> Fits(e)
    ensures SysInv(RunSystem(capacity, events))
  {
    if events == [] {
    } else {
      RunSystemKeeps(capacity, events[..|events| - 1]);
      StepKeeps(RunSystem(capacity, events[..|events| - 1]), capacity, events[|events| - 1]);
    }
  }

  // The main results.

  lemma HeadOfConn(c: Conn)
    requires ConnInv(c)
    ensures c.head <= HelloHeader()
    ensures c.head + c.ch.got <= HelloHeader() + Encoded(EncodeRequest, c.ch.sent)
    ensures |c.head| < P.REQUEST_HEADER_SIZE ==> c.ch.got == [] && c.ch.reader == Parsed([], [], None)
  {
    hide HelloHeader, Encoded, Faithful, EncodeRequest;
    var all := HelloHeader() + Encoded(EncodeRequest, c.ch.sent);
    assert c.ch.got + c.ch.wire + c.ch.out == c.ch.got + (c.ch.wire + c.ch.out);
    Associates(c.head, c.ch.got, c.ch.wire + c.ch.out);
    assert all[..|c.head|] == c.head && all[..|c.head|] == HelloHeader()[..|c.head|];
  }

  /** End to end, over every run: what the master took of a connection, followed by what its worker read,
      is a prefix of what its client put out; the master takes the hello and nothing else; the worker's
      requests are a prefix of the client's, without error; and once the master has the hello they are all
      of them exactly when nothing is left in the client's buffer or on the wire. */
  lemma RequestsArrive(capacity: nat, events: seq<Event>, fd: Fd)
    requires forall e :: e in events ==> Fits(e)
    requires fd in RunSystem(capacity, events).conns
    ensures var c := RunSystem(capacity, events).conns[fd];
            && c.head + c.ch.got <= HelloHeader() + Encoded(EncodeRequest, c.ch.sent)
            && c.head <= HelloHeader()
            && (c.ch.got != [] ==> c.head == HelloHeader())
            && c.ch.reader.error == None
            && c.ch.reader.msgs <= c.ch.sent
            && (|c.head| == P.REQUEST_HEADER_SIZE ==>
                  (c.ch.reader.msgs == c.ch.sent <==> c.ch.wire == [] && c.ch.out == []))
  {
    hide Tracks, ConnInv, LinkTracks, HelloHeader, Step;
    RunSystemKeeps(capacity, events);
    var c := RunSystem(capacity, events).conns[fd];
    HeadOfConn(c);
    HeadLength(c);
    if |c.head| == P.REQUEST_HEADER_SIZE {
      HeadIsHello(c);
      Delivery(P.REQUEST, EncodeRequest, c.ch);
    }
  }

  // A refused connection.

  /** A header in the queue or at a worker is not that of a refused connection. */
  lemma NotRefused(s: System, w: nat)
    requires SysInv(s)
    ensures s.waiting != [] ==> s.waiting[0].fd in s.conns && s.conns[s.waiting[0].fd].stage.Waiting?
    ensures w < |s.links| && s.links[w].receiver.msgs != [] ==>
              var fd := s.links[w].receiver.msgs[0].fd; fd in s.conns && s.conns[fd].stage.Assigned?
  {
    hide Tracks, ConnInv, LinkTracks;
    if s.waiting != [] {
      TracksFirst(s.conns, s.waiting, Waiting);
    }
    if w < |s.links| && s.links[w].receiver.msgs != [] {
      TakenTracks(s.conns, s.links[w], w);
    }
  }

  lemma {:induction false} DispatchLeavesRefused(s: System, capacity: nat, w: nat, fd: Fd)
    requires SysInv(s) && w < |s.links| && fd in s.conns && s.conns[fd].stage.Refused?
    ensures var t := DispatchRest(s, capacity, w); fd in t.conns && t.conns[fd].stage == s.conns[fd].stage
    decreases |s.waiting|
  {
    hide SysInv, NextLink;
    if s.waiting == [] {
    } else {
      NotRefused(s, w);
      DispatchFirstKeeps(s, capacity, w);
      DispatchLeavesRefused(DispatchFirst(s, capacity, w), capacity, w, fd);
    }
  }

  lemma StepLeavesRefused(s: System, capacity: nat, e: Event, fd: Fd)
    requires SysInv(s) && fd in s.conns && s.conns[fd].stage.Refused?
    ensures var t := Step(s, capacity, e); fd in t.conns && t.conns[fd].stage == s.conns[fd].stage
  {
    hide SysInv, NextLink, TakeOne, DispatchRest, Channels.Next, CheckHello;
    match e
    case DispatchQueue =>
      if s.links != [] {
        var w := NextIndex(s.lastSend, |s.links|);
        assert SysInv(s.(lastSend := w)) by { LastSendIsFree(s, w); }
        DispatchLeavesRefused(s.(lastSend := w), capacity, w, fd);
      }
    case Adopt(w) => NotRefused(s, w);
    case MasterRead(_, _) =>
    case Connect(_) =>
    case Queue(_, _) =>
    case ClientWrite(_, _) =>
    case NewWorker =>
    case Transfer(_, _) =>
    case WorkerRead(_, _) =>
  }

  lemma RefusedIsUnread(c: Conn)
    requires ConnInv(c) && c.stage.Refused?
    ensures c.ch.got == [] && c.ch.reader.msgs == []
  {
  }

  /** A request that a full descriptor queue has dropped stays dropped: however the run goes on, no worker
      ever takes the connection over or reads a byte of it. */
  lemma {:induction false} RefusedIsForever(capacity: nat, events: seq<Event>, later: seq<Event>, fd: Fd)
    requires forall e :: e in events + later ==> Fits(e)
    requires fd in RunSystem(capacity, events).conns && RunSystem(capacity, events).conns[fd].stage.Refused?
    ensures var t := RunSystem(capacity, events + later);
            && fd in t.conns && t.conns[fd].stage == RunSystem(capacity, events).conns[fd].stage
            && t.conns[fd].ch.got == [] && t.conns[fd].ch.reader.msgs == []
    decreases |later|
  {
    hide Tracks, LinkTracks, ConnInv, Step, Fits;
    RunSystemKeeps(capacity, events + later);
    if later == [] {
      assert events + later == events;
    } else {
      var most, last := later[..|later| - 1], later[|later| - 1];
      assert (events + later)[..|events + later| - 1] == events + most;
      assert forall e :: e in events + most ==> e in events + later;
      RefusedIsForever(capacity, events, most, fd);
      RunSystemKeeps(capacity, events + most);
      StepLeavesRefused(RunSystem(capacity, events + most), capacity, last, fd);
    }
    RefusedIsUnread(RunSystem(capacity, events + later).conns[fd]);
  }

  // Where each request is.

  /** A place where a complete header can be. */
  datatype Place = InQueue | AcceptedBy(worker: nat) | DroppedBy(worker: nat)

  ghost function Places(s: System, p: Pair): set<Place> {
    (if p in s.waiting then {InQueue} else {})
    + (set w | 0 <= w < |s.links| && p in s.links[w].sender.accepted :: AcceptedBy(w))
    + (set w | 0 <= w < |s.links| && p in s.links[w].sender.dropped :: DroppedBy(w))
  }

  function PlaceOf(stage: Stage): Place
    requires !stage.AtMaster?
  {
    match stage
    case Waiting => InQueue
    case Refused(w) => DroppedBy(w)
    case Assigned(w) => AcceptedBy(w)
    case Adopted(w) => AcceptedBy(w)
    case Rejected(w) => AcceptedBy(w)
  }

  lemma AcceptedIsTakenOrNot(l: Link, p: Pair)
    requires LinkInv(l)
    ensures p in l.sender.accepted <==> p in l.receiver.taken || p in Untaken(l)
  {
    assert Paired(l)[..|l.receiver.taken|] == l.receiver.taken;
    assert l.sender.accepted == l.receiver.taken + Untaken(l);
  }

  lemma LogsOfWorker(conns: map<Fd, Conn>, l: Link, w: nat, fd: Fd)
    requires LinkTracks(conns, l, w)
    requires fd in conns && |conns[fd].head| == P.REQUEST_HEADER_SIZE
    ensures var p, stage := Pair(conns[fd].head, fd), conns[fd].stage;
            && (p in l.sender.accepted <==> stage == Assigned(w) || stage == Adopted(w))
            && (p in l.sender.dropped <==> stage == Refused(w))
  {
    hide LinkInv, Untaken;
    AcceptedIsTakenOrNot(l, Pair(conns[fd].head, fd));
  }

  lemma NeverRejected(c: Conn)
    requires ConnInv(c)
    ensures !c.stage.Rejected?
  {
  }

  lemma OnePlace(s: System, fd: Fd)
    requires SysInv(s)
    requires fd in s.conns && |s.conns[fd].head| == P.REQUEST_HEADER_SIZE
    ensures !s.conns[fd].stage.AtMaster?
    ensures Places(s, Pair(s.conns[fd].head, fd)) == {PlaceOf(s.conns[fd].stage)}
  {
    hide ConnInv, LinkTracks;
    var p, stage := Pair(s.conns[fd].head, fd), s.conns[fd].stage;
    HeadLength(s.conns[fd]);
    assert StageExists(s, stage);
    NeverRejected(s.conns[fd]);
    forall w | 0 <= w < |s.links|
      ensures p in s.links[w].sender.accepted <==> stage == Assigned(w) || stage == Adopted(w)
      ensures p in s.links[w].sender.dropped <==> stage == Refused(w)
    {
      LogsOfWorker(s.conns, s.links[w], w, fd);
    }
  }

  /** Conservation of requests: at every point of every run, a header that the master has completed is in
      exactly one place, the queue, one worker's accepted log or one worker's drop log. */
  lemma EveryRequestHasOnePlace(capacity: nat, events: seq<Event>, fd: Fd)
    requires forall e :: e in events ==> Fits(e)
    requires fd in RunSystem(capacity, events).conns
    requires |RunSystem(capacity, events).conns[fd].head| == P.REQUEST_HEADER_SIZE
    ensures var s := RunSystem(capacity, events);
            && !s.conns[fd].stage.AtMaster?
            && Places(s, Pair(s.conns[fd].head, fd)) == {PlaceOf(s.conns[fd].stage)}
  {
    RunSystemKeeps(capacity, events);
    OnePlace(RunSystem(capacity, events), fd);
  }

  /** Each dispatch drains the queue when there are workers, and leaves it untouched when there are none. */
  lemma DispatchDrainsQueue(s: System, capacity: nat)
    ensures var t := Step(s, capacity, DispatchQueue);
            if s.links == [] then t == s else t.waiting == [] && t.lastSend == NextIndex(s.lastSend, |s.links|)
  {
  }

  /** What a dispatch does to the chosen worker is what `WorkerStreams.Dispatch` does, and no other worker
      is touched. */
  lemma {:induction false} DispatchIsBatch(s: System, capacity: nat, w: nat)
    requires w < |s.links|
    ensures DispatchRest(s, capacity, w).links
         == s.links[w := s.links[w].(sender := DispatchAll(s.links[w].sender, capacity, s.waiting))]
    decreases |s.waiting|
  {
    if s.waiting == [] {
    } else {
      DispatchIsBatch(DispatchFirst(s, capacity, w), capacity, w);
    }
  }

  // Order.

  /** `a` is `b` with some elements left out. */
  predicate IsSubseq(a: seq<Pair>, b: seq<Pair>) {
    a == [] ||
    (b != [] && ((a[|a| - 1] == b[|b| - 1] && IsSubseq(a[..|a| - 1], b[..|b| - 1])) || IsSubseq(a, b[..|b| - 1])))
  }

  lemma SubseqGrows(a: seq<Pair>, b: seq<Pair>, p: Pair)
    requires IsSubseq(a, b)
    ensures IsSubseq(a, b + [p]) && IsSubseq(a + [p], b + [p])
  {
    assert (b + [p])[..|b|] == b && (a + [p])[..|a|] == a;
  }

  function Dequeued(s: System): seq<Pair>
    requires |s.waiting| <= |s.completed|
  {
    s.completed[..|s.completed| - |s.waiting|]
  }

  /** The queue is the tail of the completed headers, and every worker's log is taken from what precedes it. */
  ghost predicate OrderInv(s: System) {
    && |s.waiting| <= |s.completed|
    && s.completed[|s.completed| - |s.waiting|..] == s.waiting
    && forall w :: 0 <= w < |s.links| ==> IsSubseq(s.links[w].sender.accepted, Dequeued(s))
  }

  lemma DispatchFirstKeepsOrder(s: System, capacity: nat, w: nat)
    requires OrderInv(s) && s.waiting != [] && w < |s.links|
    ensures OrderInv(DispatchFirst(s, capacity, w))
  {
    var t, p := DispatchFirst(s, capacity, w), s.waiting[0];
    assert s.completed[|s.completed| - |s.waiting|] == p;
    assert Dequeued(t) == Dequeued(s) + [p];
    forall v | 0 <= v < |t.links| ensures IsSubseq(t.links[v].sender.accepted, Dequeued(t)) {
      SubseqGrows(s.links[v].sender.accepted, Dequeued(s), p);
    }
  }

  lemma {:induction false} DispatchRestKeepsOrder(s: System, capacity: nat, w: nat)
    requires OrderInv(s) && w < |s.links|
    ensures OrderInv(DispatchRest(s, capacity, w))
    decreases |s.waiting|
  {
    if s.waiting == [] {
    } else {
      DispatchFirstKeepsOrder(s, capacity, w);
      DispatchRestKeepsOrder(DispatchFirst(s, capacity, w), capacity, w);
    }
  }

  lemma LogsStay(l: Link, capacity: nat, move: LinkEvent)
    requires !move.Dispatched?
    ensures NextLink(l, capacity, move).sender.accepted == l.sender.accepted
    ensures move.Take? && l.receiver.msgs != [] ==> NextLink(l, capacity, move) == l.(receiver := TakeOne(l.receiver))
  {
    hide TakeOne;
  }

  lemma EmptySubseq(b: seq<Pair>)
    ensures IsSubseq([], b)
  {
  }

  lemma StepKeepsOrder(s: System, capacity: nat, e: Event)
    requires OrderInv(s)
    ensures OrderInv(Step(s, capacity, e))
  {
    hide IsSubseq, NextLink, TakeOne, DispatchRest, Channels.Next;
    match e
    case MasterRead(fd, n) =>
      var t := ReadHead(s, fd, n);
      assert Dequeued(t) == Dequeued(s);
    case NewWorker =>
      assert IsSubseq([], Dequeued(s)) by { EmptySubseq(Dequeued(s)); }
    case DispatchQueue =>
      if s.links != [] {
        var w := NextIndex(s.lastSend, |s.links|);
        assert OrderInv(s.(lastSend := w));
        DispatchRestKeepsOrder(s.(lastSend := w), capacity, w);
      }
    case Connect(_) =>
    case Queue(_, _) =>
    case ClientWrite(_, _) =>
    case Transfer(w, move) =>
      if w < |s.links| && !move.Dispatched? && !move.Take? { LogsStay(s.links[w], capacity, move); }
    case Adopt(w) =>
      if w < |s.links| && s.links[w].receiver.msgs != [] { LogsStay(s.links[w], capacity, Take); }
    case WorkerRead(_, _) =>
  }

  /** Over every run each worker accepts requests in the order in which their headers were completed, and so
      does the queue keep them. */
  lemma {:induction false} RequestsStayInOrder(capacity: nat, events: seq<Event>)
    ensures OrderInv(RunSystem(capacity, events))
  {
    if events == [] {
    } else {
      RequestsStayInOrder(capacity, events[..|events| - 1]);
      StepKeepsOrder(RunSystem(capacity, events[..|events| - 1]), capacity, events[|events| - 1]);
    }
  }
}
