/** server/runmaster/mod.rs: the event loop of the master, that is its table of streams by token, the deferred
    insertions and removals, and the queue of handed-off connections. */
module MasterLoop {
  import opened Bytes
  import opened Io
  import opened WorkerLinks
  import P = Protocol

  const TOKEN_START := 3

  /** A stream of the table; of a client connection, what has been read of its header and its descriptor. */
  datatype Action =
    | MainListener
    | OutputListener
    | UnixListener
    | Client(head: bytes, fd: Fd)
    | Output
    | Worker
    | Stdout
    | Stderr

  /** The variables of the loop. `registered` is what poll watches, `ready` are the tokens of the current
      batch of events that have not been served, `outputs` are the tokens of the opened output streams, and
      `completed` lists the connections whose header has been read, with their tokens, and `handedOut` the
      requests that were dispatched. */
  datatype Master = Master(ioToken: Token, actions: map<Token, Action>, toInsert: seq<(Token, Action)>,
                           toRemove: seq<Token>, newRequests: seq<Pair>, workers: nat, outputs: set<Token>,
                           registered: set<Token>, ready: set<Token>, completed: seq<(Token, Pair)>,
                           handedOut: seq<Pair>)

  /** What the system answers while one event is served: a connection and whether poll takes it, a read, and
      failures. */
  datatype Answers = Answers(accepted: Option<Fd>, registers: bool, read: ReadOutcome, readFails: bool,
                             opensSession: bool, writeFails: bool)

  function Start(workers: nat): Master {
    var end := TOKEN_START + 2 * workers;
    var actions := map tk: Token | 0 <= tk < end ::
      if tk == 0 then MainListener else if tk == 1 then OutputListener else if tk == 2 then UnixListener
      else if tk % 2 == 1 then Stdout else Stderr;
    Master(end, actions, [], [], [], 0, {}, actions.Keys, {}, [], [])
  }

  function InsertAll(actions: map<Token, Action>, pending: seq<(Token, Action)>): map<Token, Action> {
    if pending == [] then actions
    else InsertAll(actions, pending[..|pending| - 1])[pending[|pending| - 1].0 := pending[|pending| - 1].1]
  }

  function Elements<T>(s: seq<T>): set<T> {
    set x | x in s
  }

  /** The head of a turn: removals, then insertions, then the dispatch of the queue. */
  function Begin(m: Master): Master {
    m.(actions := InsertAll(m.actions - Elements(m.toRemove), m.toInsert), toRemove := [], toInsert := [],
       newRequests := if m.workers > 0 then [] else m.newRequests,
       handedOut := if m.workers > 0 then m.handedOut + m.newRequests else m.handedOut)
  }

  /** Poll stops watching a stream, and its removal is put off. */
  function Drop(m: Master, tk: Token): Master {
    m.(registered := m.registered - {tk}, toRemove := m.toRemove + [tk])
  }

  /** The output streams whose interest could not be changed. */
  function Lose(m: Master, lost: seq<Token>): Master {
    if lost == [] then m
    else
      var n := Lose(m, lost[..|lost| - 1]);
      if lost[|lost| - 1] in n.outputs then Drop(n, lost[|lost| - 1]) else n
  }

  /** The descriptor of an accepted connection is none of those that are open. */
  predicate FreshFd(m: Master, fd: Fd) {
    && (forall tk :: tk in m.actions && m.actions[tk].Client? ==> m.actions[tk].fd != fd)
    && (forall i :: 0 <= i < |m.toInsert| && m.toInsert[i].1.Client? ==> m.toInsert[i].1.fd != fd)
  }

  function AcceptClient(m: Master, fd: Fd, registers: bool): Master {
    var n := if registers then m.(toInsert := m.toInsert + [(m.ioToken, Client([], fd))],
                                  registered := m.registered + {m.ioToken})
             else m;
    n.(ioToken := m.ioToken + 1)
  }

  function AcceptNow(m: Master, action: Action, registers: bool): Master {
    var n := if registers then m.(actions := m.actions[m.ioToken := action], registered := m.registered + {m.ioToken})
             else m;
    n.(ioToken := m.ioToken + 1)
  }

  function ReadClient(m: Master, tk: Token, head: bytes, fd: Fd, read: ReadOutcome): Master {
    if read.ReadFailed? || read.chunk == [] then Drop(m, tk)
    else
      var more := head + read.chunk;
      var n := m.(actions := m.actions[tk := Client(more, fd)]);
      if |more| != P.REQUEST_HEADER_SIZE then n
      else n.(registered := n.registered - {tk}, newRequests := n.newRequests + [Pair(more, fd)],
              completed := n.completed + [(tk, Pair(more, fd))])
  }

  /** The handler of one event, chosen by what the table holds under its token. The kernel never accepts a
      connection under a descriptor that is open, nor reads more into a header than it lacks; such answers
      are taken for no event. */
  function Handle(m: Master, tk: Token, a: Answers): Master {
    if tk !in m.actions then m else
    match m.actions[tk]
    case MainListener =>
      if a.accepted.None? || !FreshFd(m, a.accepted.value) then m else AcceptClient(m, a.accepted.value, a.registers)
    case OutputListener => if a.accepted.None? then m else AcceptNow(m, Output, a.registers)
    case UnixListener => if a.accepted.None? then m else AcceptNow(m, Worker, true).(workers := m.workers + 1)
    case Client(head, fd) =>
      if a.read.ReadBytes? && |head| + |a.read.chunk| > P.REQUEST_HEADER_SIZE then m
      else ReadClient(m, tk, head, fd, a.read)
    case Output =>
      var n := if a.readFails then Drop(m, tk) else m;
      var o := if a.opensSession then n.(outputs := n.outputs + {tk}) else n;
      if a.writeFails then Drop(o, tk) else o
    case _ => if a.readFails then Drop(m, tk) else m
  }

  /** A turn begins and polls, or the next event of the batch is served. Poll reports a token at most once
      per batch, and only while it is registered. */
  datatype Event = Turn(lost: seq<Token>, polled: set<Token>) | Serve(tk: Token, answers: Answers)

  function Next(m: Master, e: Event): Master {
    match e
    case Turn(lost, polled) =>
      var n := Lose(Begin(m), lost);
      n.(ready := polled * n.registered)
    case Serve(tk, a) => if tk !in m.ready then m else Handle(m.(ready := m.ready - {tk}), tk, a)
  }

  function RunMaster(workers: nat, events: seq<Event>): Master {
    if events == [] then Start(workers) else Next(RunMaster(workers, events[..|events| - 1]), events[|events| - 1])
  }

  // The invariant.

  /** Every token in use was given out before, each once. */
  ghost predicate TokensInv(m: Master) {
    && (forall tk :: tk in m.actions ==> tk < m.ioToken)
    && (forall i :: 0 <= i < |m.toInsert| ==> m.toInsert[i].0 < m.ioToken && m.toInsert[i].0 !in m.actions)
    && (forall i, j :: 0 <= i < j < |m.toInsert| ==> m.toInsert[i].0 != m.toInsert[j].0)
    && (forall tk :: tk in m.toRemove || tk in m.outputs ==> tk < m.ioToken)
    && (forall i :: 0 <= i < |m.toInsert| ==> m.toInsert[i].1.Client? && m.toInsert[i].1.head == [])
  }

  predicate IsPending(pending: seq<(Token, Action)>, tk: Token) {
    exists i :: 0 <= i < |pending| && pending[i].0 == tk
  }

  /** Poll watches only live streams, and none whose removal is due; the streams that are ready are in the
      table; the output streams have their own tokens. */
  ghost predicate PollInv(m: Master) {
    && (forall tk :: tk in m.registered ==> tk in m.actions || IsPending(m.toInsert, tk))
    && (forall tk :: tk in m.toRemove ==> tk !in m.registered && !IsPending(m.toInsert, tk))
    && (forall tk :: tk in m.ready ==> tk in m.registered && tk in m.actions)
    && (forall tk :: tk in m.outputs ==> !IsPending(m.toInsert, tk) && (tk in m.actions ==> m.actions[tk] == Output))
  }

  /** A connection whose header is complete stays in the table, whole, unwatched and not due for removal. */
  ghost predicate OwnedInv(m: Master) {
    && (forall c :: c in m.completed ==>
          && c.0 in m.actions && m.actions[c.0] == Client(c.1.header, c.1.fd)
          && c.0 !in m.toRemove && c.0 !in m.registered)
    && (forall p :: p in m.newRequests ==> exists tk :: (tk, p) in m.completed)
  }

  /** No two connections hold the same descriptor. */
  ghost predicate FdsInv(m: Master) {
    && (forall a, b :: a in m.actions && b in m.actions && a != b && m.actions[a].Client? && m.actions[b].Client? ==>
          m.actions[a].fd != m.actions[b].fd)
    && (forall a, i :: a in m.actions && m.actions[a].Client? && 0 <= i < |m.toInsert| && m.toInsert[i].1.Client? ==>
          m.actions[a].fd != m.toInsert[i].1.fd)
    && (forall i, j :: 0 <= i < j < |m.toInsert| && m.toInsert[i].1.Client? && m.toInsert[j].1.Client? ==>
          m.toInsert[i].1.fd != m.toInsert[j].1.fd)
  }

  ghost predicate MasterInv(m: Master) {
    TokensInv(m) && PollInv(m) && OwnedInv(m) && FdsInv(m)
  }

  // Turns.

  lemma {:induction false} InsertedOnly(actions: map<Token, Action>, pending: seq<(Token, Action)>, tk: Token)
    requires tk in InsertAll(actions, pending) && tk !in actions
    ensures exists i :: 0 <= i < |pending| && pending[i].0 == tk
  {
    if pending == [] {
    } else if tk == pending[|pending| - 1].0 {
    } else {
      InsertedOnly(actions, pending[..|pending| - 1], tk);
      var i :| 0 <= i < |pending| - 1 && pending[..|pending| - 1][i].0 == tk;
      assert pending[i].0 == tk;
    }
  }

  lemma {:induction false} InsertedStay(actions: map<Token, Action>, pending: seq<(Token, Action)>, tk: Token)
    requires forall i :: 0 <= i < |pending| ==> pending[i].0 != tk
    ensures tk in InsertAll(actions, pending) <==> tk in actions
    ensures tk in actions ==> InsertAll(actions, pending)[tk] == actions[tk]
  {
    if pending == [] {
    } else {
      InsertedStay(actions, pending[..|pending| - 1], tk);
    }
  }

  lemma {:induction false} InsertedAt(actions: map<Token, Action>, pending: seq<(Token, Action)>, i: nat)
    requires i < |pending|
    requires forall i, j :: 0 <= i < j < |pending| ==> pending[i].0 != pending[j].0
    ensures pending[i].0 in InsertAll(actions, pending) && InsertAll(actions, pending)[pending[i].0] == pending[i].1
    decreases |pending|
  {
    if i < |pending| - 1 {
      assert pending[..|pending| - 1][i] == pending[i];
      InsertedAt(actions, pending[..|pending| - 1], i);
    }
  }

  /** What insertion does: the table gains the pending streams, under tokens that it did not hold. */
  lemma InsertAllAdds(actions: map<Token, Action>, pending: seq<(Token, Action)>)
    requires forall i :: 0 <= i < |pending| ==> pending[i].0 !in actions
    requires forall i, j :: 0 <= i < j < |pending| ==> pending[i].0 != pending[j].0
    ensures var t := InsertAll(actions, pending);
            && (forall tk :: tk in actions ==> tk in t && t[tk] == actions[tk])
            && (forall i :: 0 <= i < |pending| ==> pending[i].0 in t && t[pending[i].0] == pending[i].1)
            && (forall tk :: tk in t && tk !in actions ==> exists i :: 0 <= i < |pending| && pending[i].0 == tk)
  {
    hide InsertAll;
    var t := InsertAll(actions, pending);
    forall tk | tk in actions ensures tk in t && t[tk] == actions[tk] {
      InsertedStay(actions, pending, tk);
    }
    forall i | 0 <= i < |pending| ensures pending[i].0 in t && t[pending[i].0] == pending[i].1 {
      InsertedAt(actions, pending, i);
    }
    forall tk | tk in t && tk !in actions ensures exists i :: 0 <= i < |pending| && pending[i].0 == tk {
      InsertedOnly(actions, pending, tk);
    }
  }

  lemma BeginInserts(m: Master)
    requires TokensInv(m)
    ensures var n := Begin(m);
            && (forall tk :: tk in m.actions && tk !in m.toRemove ==> tk in n.actions && n.actions[tk] == m.actions[tk])
            && (forall i :: 0 <= i < |m.toInsert| ==>
                  m.toInsert[i].0 in n.actions && n.actions[m.toInsert[i].0] == m.toInsert[i].1)
            && (forall tk :: tk in n.actions ==> (tk in m.actions && tk !in m.toRemove) || IsPending(m.toInsert, tk))
  {
    InsertAllAdds(m.actions - Elements(m.toRemove), m.toInsert);
  }

  lemma BeginRest(m: Master)
    ensures Begin(m).toInsert == [] && Begin(m).toRemove == []
    ensures Begin(m).registered == m.registered && Begin(m).outputs == m.outputs && Begin(m).ioToken == m.ioToken
    ensures Begin(m).completed == m.completed
    ensures Begin(m).newRequests == m.newRequests || Begin(m).newRequests == []
  {
  }

  lemma BeginKeepsTokens(m: Master)
    requires TokensInv(m) && PollInv(m)
    ensures TokensInv(Begin(m)) && PollInv(Begin(m).(ready := {}))
  {
    hide InsertAll;
    BeginInserts(m);
    hide Begin;
    var n := Begin(m);
    assert n.toInsert == [] && n.toRemove == [] && n.registered == m.registered && n.outputs == m.outputs by {
      BeginRest(m);
    }
    assert n.ioToken == m.ioToken by { BeginRest(m); }
    forall tk | tk in n.registered ensures tk in n.actions {
      if IsPending(m.toInsert, tk) {
        var i :| 0 <= i < |m.toInsert| && m.toInsert[i].0 == tk;
      }
    }
  }

  lemma BeginKeepsOwned(m: Master)
    requires TokensInv(m) && OwnedInv(m)
    ensures OwnedInv(Begin(m))
  {
    hide Begin;
    BeginInserts(m);
    BeginRest(m);
  }

  lemma BeginKeepsFds(m: Master)
    requires TokensInv(m) && FdsInv(m)
    ensures FdsInv(Begin(m))
  {
    hide Begin;
    BeginInserts(m);
    BeginRest(m);
    var n := Begin(m);
    forall a, b | a in n.actions && b in n.actions && a != b && n.actions[a].Client? && n.actions[b].Client?
      ensures n.actions[a].fd != n.actions[b].fd
    {
      if IsPending(m.toInsert, a) {
        var i :| 0 <= i < |m.toInsert| && m.toInsert[i].0 == a;
        if IsPending(m.toInsert, b) {
          var j :| 0 <= j < |m.toInsert| && m.toInsert[j].0 == b;
        }
      } else if IsPending(m.toInsert, b) {
        var j :| 0 <= j < |m.toInsert| && m.toInsert[j].0 == b;
      }
    }
  }

  lemma DropKeeps(m: Master, tk: Token)
    requires MasterInv(m)
    requires tk !in m.ready && tk < m.ioToken && !IsPending(m.toInsert, tk)
    requires forall c :: c in m.completed ==> c.0 != tk
    ensures MasterInv(Drop(m, tk))
  {
    var n := Drop(m, tk);
  }

  lemma {:induction false} LoseKeeps(m: Master, lost: seq<Token>)
    requires MasterInv(m) && m.ready == {}
    ensures MasterInv(Lose(m, lost)) && Lose(m, lost).ready == {} && Lose(m, lost).toInsert == m.toInsert
  {
    if lost == [] {
    } else {
      LoseKeeps(m, lost[..|lost| - 1]);
      var n, tk := Lose(m, lost[..|lost| - 1]), lost[|lost| - 1];
      if tk in n.outputs {
        forall c | c in n.completed ensures c.0 != tk {
          assert n.actions[c.0].Client?;
        }
        DropKeeps(n, tk);
      }
    }
  }

  lemma {:induction false} LoseReady(m: Master, lost: seq<Token>)
    ensures Lose(m.(ready := {}), lost) == Lose(m, lost).(ready := {})
  {
    if lost == [] {
    } else {
      LoseReady(m, lost[..|lost| - 1]);
    }
  }

  lemma TurnKeeps(m: Master, lost: seq<Token>, polled: set<Token>)
    requires MasterInv(m)
    ensures MasterInv(Next(m, Turn(lost, polled)))
  {
    hide Begin, Lose;
    BeginKeepsTokens(m);
    BeginKeepsOwned(m);
    BeginKeepsFds(m);
    BeginRest(m);
    var b := Begin(m).(ready := {});
    assert TokensInv(b) && OwnedInv(b) && FdsInv(b);
    LoseKeeps(b, lost);
    LoseReady(Begin(m), lost);
    var n := Next(m, Turn(lost, polled));
    assert n == Lose(b, lost).(ready := polled * Lose(b, lost).registered);
    assert n.toInsert == [];
  }

  // Events.

  lemma AcceptClientKeepsFds(m: Master, fd: Fd, registers: bool)
    requires MasterInv(m) && FreshFd(m, fd)
    ensures OwnedInv(AcceptClient(m, fd, registers)) && FdsInv(AcceptClient(m, fd, registers))
  {
    hide PollInv;
  }

  lemma AcceptClientKeeps(m: Master, fd: Fd, registers: bool)
    requires MasterInv(m) && FreshFd(m, fd)
    ensures MasterInv(AcceptClient(m, fd, registers))
  {
    hide OwnedInv, FdsInv, FreshFd;
    var n := AcceptClient(m, fd, registers);
    assert OwnedInv(n) && FdsInv(n) by { AcceptClientKeepsFds(m, fd, registers); }
    forall t ensures IsPending(n.toInsert, t) <==> IsPending(m.toInsert, t) || (registers && t == m.ioToken) {
      if registers {
        assert n.toInsert[|m.toInsert|].0 == m.ioToken;
        if IsPending(m.toInsert, t) {
          var i :| 0 <= i < |m.toInsert| && m.toInsert[i].0 == t;
          assert n.toInsert[i].0 == t;
        }
      }
    }
  }

  lemma AcceptNowKeeps(m: Master, action: Action, registers: bool)
    requires MasterInv(m) && (action == Output || action == Worker)
    ensures MasterInv(AcceptNow(m, action, registers))
  {
    var n := AcceptNow(m, action, registers);
    assert !IsPending(m.toInsert, m.ioToken);
  }

  lemma GrowKeeps(m: Master, tk: Token, head: bytes)
    requires MasterInv(m) && tk in m.registered && tk in m.actions && m.actions[tk].Client?
    ensures MasterInv(m.(actions := m.actions[tk := Client(head, m.actions[tk].fd)]))
  {
  }

  /** The header is whole: the connection is queued and no longer watched. */
  lemma CompleteKeeps(m: Master, tk: Token)
    requires MasterInv(m) && tk in m.registered && tk in m.actions && tk !in m.ready
    requires m.actions[tk].Client? && |m.actions[tk].head| == P.REQUEST_HEADER_SIZE
    ensures var p := Pair(m.actions[tk].head, m.actions[tk].fd);
            MasterInv(m.(registered := m.registered - {tk}, newRequests := m.newRequests + [p],
                         completed := m.completed + [(tk, p)]))
  {
    var p := Pair(m.actions[tk].head, m.actions[tk].fd);
    var n := m.(registered := m.registered - {tk}, newRequests := m.newRequests + [p],
                completed := m.completed + [(tk, p)]);
    assert TokensInv(n) && PollInv(n) && FdsInv(n);
    forall q | q in n.newRequests ensures exists t :: (t, q) in n.completed {
      if q in m.newRequests {
        var t :| (t, q) in m.completed;
        assert (t, q) in n.completed;
      } else {
        assert (tk, q) in n.completed;
      }
    }
  }

  /** A stream that poll reported can be dropped: it is not a completed connection. */
  lemma DropRegistered(m: Master, tk: Token)
    requires MasterInv(m) && tk in m.registered && tk in m.actions && tk !in m.ready
    ensures MasterInv(Drop(m, tk))
  {
    assert !IsPending(m.toInsert, tk);
    DropKeeps(m, tk);
  }

  lemma ReadClientKeeps(m: Master, tk: Token, read: ReadOutcome)
    requires MasterInv(m) && tk in m.registered && tk in m.actions && tk !in m.ready
    requires m.actions[tk].Client?
    requires read.ReadBytes? ==> |m.actions[tk].head| + |read.chunk| <= P.REQUEST_HEADER_SIZE
    ensures MasterInv(ReadClient(m, tk, m.actions[tk].head, m.actions[tk].fd, read))
  {
    var head, fd := m.actions[tk].head, m.actions[tk].fd;
    if read.ReadFailed? || read.chunk == [] {
      DropRegistered(m, tk);
    } else {
      var more := head + read.chunk;
      var n := m.(actions := m.actions[tk := Client(more, fd)]);
      assert MasterInv(n) by { GrowKeeps(m, tk, more); }
      if |more| == P.REQUEST_HEADER_SIZE {
        CompleteKeeps(n, tk);
      }
    }
  }

  lemma OpenKeeps(m: Master, tk: Token)
    requires MasterInv(m) && tk in m.actions && m.actions[tk] == Output
    ensures MasterInv(m.(outputs := m.outputs + {tk}))
  {
    var n := m.(outputs := m.outputs + {tk});
    assert !IsPending(m.toInsert, tk);
  }

  lemma OutputKeeps(m: Master, tk: Token, a: Answers)
    requires MasterInv(m) && tk in m.registered && tk in m.actions && tk !in m.ready
    requires m.actions[tk] == Output
    ensures MasterInv(Handle(m, tk, a))
  {
    assert !IsPending(m.toInsert, tk) && forall c :: c in m.completed ==> c.0 != tk;
    var n := if a.readFails then Drop(m, tk) else m;
    if a.readFails {
      DropKeeps(m, tk);
    }
    var o := if a.opensSession then n.(outputs := n.outputs + {tk}) else n;
    assert MasterInv(o) by { OpenKeeps(n, tk); }
    if a.writeFails {
      DropKeeps(o, tk);
    }
  }

  lemma MoreWorkers(m: Master, workers: nat)
    requires MasterInv(m)
    ensures MasterInv(m.(workers := workers))
  {
    var n := m.(workers := workers);
  }

  lemma HandleKeeps(m: Master, tk: Token, a: Answers)
    requires MasterInv(m) && tk in m.registered && tk in m.actions && tk !in m.ready
    ensures MasterInv(Handle(m, tk, a))
  {
    hide MasterInv, FreshFd, AcceptClient, AcceptNow, ReadClient, Drop;
    match m.actions[tk]
    case MainListener =>
      if a.accepted.Some? && FreshFd(m, a.accepted.value) { AcceptClientKeeps(m, a.accepted.value, a.registers); }
    case OutputListener => if a.accepted.Some? { AcceptNowKeeps(m, Output, a.registers); }
    case UnixListener =>
      if a.accepted.Some? {
        AcceptNowKeeps(m, Worker, true);
        MoreWorkers(AcceptNow(m, Worker, true), m.workers + 1);
      }
    case Client(head, fd) =>
      if !(a.read.ReadBytes? && |head| + |a.read.chunk| > P.REQUEST_HEADER_SIZE) { ReadClientKeeps(m, tk, a.read); }
    case Output => OutputKeeps(m, tk, a);
    case _ => if a.readFails { DropRegistered(m, tk); }
  }

  lemma FewerReady(m: Master, tk: Token)
    requires MasterInv(m)
    ensures MasterInv(m.(ready := m.ready - {tk}))
    ensures tk in m.ready ==> tk in m.registered && tk in m.actions
  {
    var n := m.(ready := m.ready - {tk});
  }

  lemma ServeKeeps(m: Master, tk: Token, a: Answers)
    requires MasterInv(m)
    ensures MasterInv(Next(m, Serve(tk, a)))
  {
    hide MasterInv, Handle;
    if tk in m.ready {
      FewerReady(m, tk);
      HandleKeeps(m.(ready := m.ready - {tk}), tk, a);
    }
  }

  lemma StartInv(workers: nat)
    ensures MasterInv(Start(workers))
  {
  }

  lemma {:induction false} RunMasterKeeps(workers: nat, events: seq<Event>)
    ensures MasterInv(RunMaster(workers, events))
  {
    hide MasterInv;
    if events == [] {
      StartInv(workers);
    } else {
      var m := RunMaster(workers, events[..|events| - 1]);
      RunMasterKeeps(workers, events[..|events| - 1]);
      match events[|events| - 1]
      case Turn(lost, polled) => TurnKeeps(m, lost, polled);
      case Serve(tk, a) => ServeKeeps(m, tk, a);
    }
  }

  // What the parts of a turn do.

  /** The table at the start: three listeners, and then a pipe for the output and one for the errors of each
      worker, all of them watched. */
  lemma StartTable(workers: nat, tk: Token)
    ensures var m := Start(workers);
            && (tk in m.actions <==> tk < m.ioToken) && (tk in m.registered <==> tk < m.ioToken)
            && m.ioToken == 3 + 2 * workers && m.workers == 0
            && (tk in m.actions ==>
                  m.actions[tk] == (match tk
                                    case 0 => MainListener
                                    case 1 => OutputListener
                                    case 2 => UnixListener
                                    case _ => if (tk - 3) % 2 == 0 then Stdout else Stderr))
  {
  }

  /** A turn hands out the whole queue when there are workers, and else nothing; it leaves nothing pending. */
  lemma TurnHandsOut(m: Master)
    ensures var n := Begin(m);
            && n.toInsert == [] && n.toRemove == [] && n.workers == m.workers && n.ioToken == m.ioToken
            && n.handedOut + n.newRequests == m.handedOut + m.newRequests
            && (m.workers > 0 ==> n.newRequests == []) && (m.workers == 0 ==> n.handedOut == m.handedOut)
            && n.completed == m.completed && n.outputs == m.outputs && n.registered == m.registered
  {
  }

  /** An output stream whose interest cannot be changed is no longer watched and due for removal; no other stream
      is touched. */
  lemma {:induction false} LostAreDropped(m: Master, lost: seq<Token>, tk: Token)
    ensures var n := Lose(m, lost);
            && (tk in n.registered <==> tk in m.registered && !(tk in lost && tk in m.outputs))
            && (tk in n.toRemove <==> tk in m.toRemove || (tk in lost && tk in m.outputs))
            && n.outputs == m.outputs && n.actions == m.actions && n.toInsert == m.toInsert
            && n.newRequests == m.newRequests && n.completed == m.completed && n.handedOut == m.handedOut
  {
    if lost == [] {
    } else {
      var most, last := lost[..|lost| - 1], lost[|lost| - 1];
      LostAreDropped(m, most, tk);
      LostAreDropped(m, most, last);
      assert lost == most + [last];
    }
  }

  /** The batch of a turn: what poll reports of the streams that it watches. */
  lemma TurnPolls(m: Master, lost: seq<Token>, polled: set<Token>, tk: Token)
    ensures var n := Next(m, Turn(lost, polled));
            tk in n.ready <==> tk in polled && tk in m.registered && !(tk in lost && tk in m.outputs)
  {
    hide Begin, Lose;
    BeginRest(m);
    LostAreDropped(Begin(m), lost, tk);
  }

  // What the handlers do.

  lemma FreshStill(m: Master, tk: Token, fd: Fd)
    ensures FreshFd(m.(ready := m.ready - {tk}), fd) <==> FreshFd(m, fd)
  {
  }

  /** An accepted client that poll takes is pending, watched, under the next token, with nothing read; one that it
      does not take leaves no trace but the token. */
  lemma ClientIsAccepted(m: Master, tk: Token, a: Answers)
    requires tk in m.ready && tk in m.actions && m.actions[tk] == MainListener
    requires a.accepted.Some? && FreshFd(m, a.accepted.value)
    ensures var n := Next(m, Serve(tk, a));
            && n.ioToken == m.ioToken + 1 && n.actions == m.actions
            && (a.registers ==>
                  && |n.toInsert| == |m.toInsert| + 1 && m.toInsert <= n.toInsert
                  && n.toInsert[|m.toInsert|] == (m.ioToken, Client([], a.accepted.value))
                  && m.ioToken in n.registered && n.registered - {m.ioToken} <= m.registered <= n.registered)
            && (!a.registers ==> n.toInsert == m.toInsert && n.registered == m.registered)
  {
    hide FreshFd;
    FreshStill(m, tk, a.accepted.value);
  }

  /** An accepted output stream or worker is in the table at once, watched, under the next token; a worker joins
      the pool. */
  lemma StreamIsAccepted(m: Master, tk: Token, a: Answers)
    requires tk in m.ready && tk in m.actions && (m.actions[tk] == OutputListener || m.actions[tk] == UnixListener)
    requires a.accepted.Some? && m.ioToken !in m.actions
    ensures var n, worker := Next(m, Serve(tk, a)), m.actions[tk] == UnixListener;
            && n.ioToken == m.ioToken + 1 && n.toInsert == m.toInsert
            && n.workers == m.workers + (if worker then 1 else 0)
            && (a.registers || worker ==>
                  && m.ioToken in n.actions && n.actions[m.ioToken] == (if worker then Worker else Output)
                  && m.ioToken in n.registered && n.actions - {m.ioToken} == m.actions)
            && (!a.registers && !worker ==> n.actions == m.actions && n.registered == m.registered)
  {
    assert m.actions - {m.ioToken} == m.actions;
  }

  /** A read of a client that fails, or finds its end, leaves the stream unwatched and due for removal. */
  lemma ClientReadFails(m: Master, tk: Token, a: Answers)
    requires tk in m.ready && tk in m.actions && m.actions[tk].Client? && (a.read.ReadFailed? || a.read.chunk == [])
    requires |m.actions[tk].head| <= P.REQUEST_HEADER_SIZE
    ensures var n := Next(m, Serve(tk, a));
            && tk !in n.registered && n.registered + {tk} == m.registered + {tk} && tk in n.toRemove
            && n.actions == m.actions && n.newRequests == m.newRequests && n.completed == m.completed
  {
  }

  /** Any other read adds to the header; with the eighth byte the connection is queued, with its descriptor and
      behind the others, and no longer watched. */
  lemma ClientReads(m: Master, tk: Token, a: Answers)
    requires tk in m.ready && tk in m.actions && m.actions[tk].Client? && a.read.ReadBytes? && a.read.chunk != []
    requires |m.actions[tk].head| + |a.read.chunk| <= P.REQUEST_HEADER_SIZE
    ensures var n, c := Next(m, Serve(tk, a)), m.actions[tk];
            && tk in n.actions && n.actions[tk] == Client(c.head + a.read.chunk, c.fd)
            && n.actions - {tk} == m.actions - {tk} && n.toRemove == m.toRemove
            && (|c.head| + |a.read.chunk| < P.REQUEST_HEADER_SIZE ==>
                  n.newRequests == m.newRequests && n.registered == m.registered)
            && (|c.head| + |a.read.chunk| == P.REQUEST_HEADER_SIZE ==>
                  && |n.newRequests| == |m.newRequests| + 1 && m.newRequests <= n.newRequests
                  && n.newRequests[|m.newRequests|] == Pair(c.head + a.read.chunk, c.fd)
                  && tk !in n.registered && n.registered + {tk} == m.registered + {tk})
  {
  }

  /** A failed call of any other stream leaves it unwatched and due for removal; and an output stream that opens
      its session is one from then on, whether its calls fail or not. */
  lemma OthersAreServed(m: Master, tk: Token, a: Answers)
    requires tk in m.ready && tk in m.actions && m.actions[tk] in {Output, Worker, Stdout, Stderr}
    ensures var n := Next(m, Serve(tk, a)); var fails := a.readFails || (m.actions[tk] == Output && a.writeFails);
            && (fails ==> tk !in n.registered && n.registered + {tk} == m.registered + {tk} && tk in n.toRemove)
            && (!fails ==> n.registered == m.registered && n.toRemove == m.toRemove)
            && n.outputs == m.outputs + (if m.actions[tk] == Output && a.opensSession then {tk} else {})
            && n.actions == m.actions && n.newRequests == m.newRequests && n.ioToken == m.ioToken
  {
    assert m.outputs + {} == m.outputs;
  }

  // Every completed header is queued, and handed out in its turn.

  function Requests(completed: seq<(Token, Pair)>): seq<Pair> {
    seq(|completed|, i requires 0 <= i < |completed| => completed[i].1)
  }

  lemma AcceptsQueueNothing(m: Master, tk: Token, a: Answers)
    requires tk in m.actions && m.actions[tk] in {MainListener, OutputListener, UnixListener}
    ensures var n := Handle(m, tk, a);
            n.completed == m.completed && n.newRequests == m.newRequests && n.handedOut == m.handedOut
  {
    hide FreshFd;
  }

  lemma HandleQueues(m: Master, tk: Token, a: Answers)
    requires Requests(m.completed) == m.handedOut + m.newRequests
    ensures var n := Handle(m, tk, a); Requests(n.completed) == n.handedOut + n.newRequests
  {
    hide FreshFd, AcceptClient, AcceptNow;
    if tk in m.actions {
      match m.actions[tk]
      case MainListener => AcceptsQueueNothing(m, tk, a);
      case OutputListener => AcceptsQueueNothing(m, tk, a);
      case UnixListener => AcceptsQueueNothing(m, tk, a);
      case Client(head, fd) =>
        var n := Handle(m, tk, a);
        if n.completed != m.completed {
          var p := Pair(head + a.read.chunk, fd);
          assert Requests(n.completed) == Requests(m.completed) + [p];
          Associates(m.handedOut, m.newRequests, [p]);
        }
      case Output =>
      case _ =>
    }
  }

  /** In every reachable state, the requests that were handed out and then those that are queued are those of the
      headers completed, each once and in the order of completion. */
  lemma {:induction false} CompletedAreQueued(workers: nat, events: seq<Event>)
    ensures var m := RunMaster(workers, events); Requests(m.completed) == m.handedOut + m.newRequests
  {
    if events == [] {
    } else {
      var m := RunMaster(workers, events[..|events| - 1]);
      CompletedAreQueued(workers, events[..|events| - 1]);
      hide RunMaster, Requests, Begin, Lose, Handle;
      match events[|events| - 1]
      case Turn(lost, polled) =>
        TurnHandsOut(m);
        LostAreDropped(Begin(m), lost, 0);
      case Serve(tk, a) => HandleQueues(m.(ready := m.ready - {tk}), tk, a);
    }
  }

  // The main results.

  /** In every reachable state each queued request belongs to a connection that is still in the table with its
      whole header, that is not due for removal and that no event will touch; so its descriptor is open. The
      same holds of every connection ever completed, queued, dispatched or not, and no other connection
      shares the descriptor. */
  lemma HandedOffStaysOwned(workers: nat, events: seq<Event>)
    ensures var m := RunMaster(workers, events);
            && (forall c :: c in m.completed ==>
                  && c.0 in m.actions && m.actions[c.0] == Client(c.1.header, c.1.fd)
                  && c.0 !in m.toRemove && c.0 !in m.registered && c.0 !in m.ready)
            && (forall p :: p in m.newRequests ==> exists tk :: (tk, p) in m.completed)
            && (forall a, b :: a in m.actions && b in m.actions && a != b
                               && m.actions[a].Client? && m.actions[b].Client? ==>
                  m.actions[a].fd != m.actions[b].fd)
  {
    RunMasterKeeps(workers, events);
  }

  /** In every reachable state the next token is unused, and the pending streams have tokens of their own; so
      the next turn inserts each of them beside the streams that stay, and replaces none. */
  lemma TokensAreFresh(workers: nat, events: seq<Event>)
    ensures var m := RunMaster(workers, events); var n := Begin(m);
            && m.ioToken !in m.actions && !IsPending(m.toInsert, m.ioToken) && m.ioToken !in m.toRemove
            && (forall i :: 0 <= i < |m.toInsert| ==> m.toInsert[i].0 !in m.actions)
            && (forall i, j :: 0 <= i < j < |m.toInsert| ==> m.toInsert[i].0 != m.toInsert[j].0)
            && (forall i :: 0 <= i < |m.toInsert| ==>
                  m.toInsert[i].0 in n.actions && n.actions[m.toInsert[i].0] == m.toInsert[i].1)
            && (forall tk :: tk in m.actions && tk !in m.toRemove ==> tk in n.actions && n.actions[tk] == m.actions[tk])
  {
    RunMasterKeeps(workers, events);
    var m := RunMaster(workers, events);
    hide RunMaster, Begin;
    BeginInserts(m);
  }

  // The loop itself.

  /** What the kernel guarantees of its answers. */
  predicate Honest(m: Master, tk: Token, a: Answers) {
    && (a.accepted.Some? ==> FreshFd(m, a.accepted.value))
    && (tk in m.actions && m.actions[tk].Client? && a.read.ReadBytes? ==>
          |m.actions[tk].head| + |a.read.chunk| <= P.REQUEST_HEADER_SIZE)
  }

  lemma HonestStill(m: Master, tk: Token, a: Answers)
    requires Honest(m, tk, a)
    ensures Honest(m.(ready := m.ready - {tk}), tk, a)
  {
  }

  predicate HonestBatch(m: Master, batch: seq<(Token, Answers)>)
    decreases |batch|
  {
    batch == [] ||
    (Honest(m, batch[0].0, batch[0].1) && HonestBatch(Next(m, Serve(batch[0].0, batch[0].1)), batch[1..]))
  }

  function ServeAll(m: Master, batch: seq<(Token, Answers)>): Master
    decreases |batch|
  {
    if batch == [] then m else ServeAll(Next(m, Serve(batch[0].0, batch[0].1)), batch[1..])
  }

  class Loop {
    var ioToken: Token
    var actions: map<Token, Action>
    var toInsert: seq<(Token, Action)>
    var toRemove: seq<Token>
    var newRequests: seq<Pair>
    var workers: nat
    var outputs: set<Token>
    var registered: set<Token>
    var ready: set<Token>
    ghost var completed: seq<(Token, Pair)>
    ghost var handedOut: seq<Pair>

    ghost function View(): Master
      reads this
    {
      Master(ioToken, actions, toInsert, toRemove, newRequests, workers, outputs, registered, ready, completed,
             handedOut)
    }

    constructor (n: nat)
      ensures View() == Start(n)
    {
      var start := Start(n);
      ioToken, actions, registered := start.ioToken, start.actions, start.registered;
      toInsert, toRemove, newRequests, workers, outputs, ready, completed, handedOut := [], [], [], 0, {}, {}, [], [];
    }

    method RemoveStreams()
      modifies `actions, `toRemove
      ensures actions == old(actions) - Elements(old(toRemove)) && toRemove == []
    {
      for n := 0 to |toRemove|
        invariant toRemove == old(toRemove)
        invariant actions == old(actions) - Elements(toRemove[..n])
      {
        actions := actions - {toRemove[n]};
        assert toRemove[..n + 1] == toRemove[..n] + [toRemove[n]];
      }
      assert toRemove[..|toRemove|] == toRemove;
      toRemove := [];
    }

    method InsertStreams()
      modifies `actions, `toInsert
      ensures actions == InsertAll(old(actions), old(toInsert)) && toInsert == []
    {
      for n := 0 to |toInsert|
        invariant toInsert == old(toInsert)
        invariant actions == InsertAll(old(actions), toInsert[..n])
      {
        actions := actions[toInsert[n].0 := toInsert[n].1];
        assert toInsert[..n + 1][..n] == toInsert[..n];
      }
      assert toInsert[..|toInsert|] == toInsert;
      toInsert := [];
    }

    method BeginTurn() returns (batch: seq<Pair>)
      modifies this
      ensures View() == Begin(old(View()))
      ensures batch + newRequests == old(newRequests) && handedOut == old(handedOut) + batch
    {
      RemoveStreams();
      InsertStreams();
      batch := if workers > 0 then newRequests else [];
      handedOut := handedOut + batch;
      newRequests := if workers > 0 then [] else newRequests;
    }

    method DropStream(tk: Token)
      modifies `registered, `toRemove
      ensures View() == Drop(old(View()), tk)
    {
      registered := registered - {tk};
      toRemove := toRemove + [tk];
    }

    /** The eighth byte of a header queues the connection, and poll stops watching it. */
    method ReadHeader(tk: Token, head: bytes, fd: Fd, read: ReadOutcome)
      modifies this
      ensures View() == ReadClient(old(View()), tk, head, fd, read)
    {
      if read.ReadFailed? || read.chunk == [] {
        DropStream(tk);
        return;
      }
      var more := head + read.chunk;
      actions := actions[tk := Client(more, fd)];
      if |more| == P.REQUEST_HEADER_SIZE {
        registered := registered - {tk};
        newRequests := newRequests + [Pair(more, fd)];
        completed := completed + [(tk, Pair(more, fd))];
      }
    }

    method AcceptStream(action: Action, registers: bool)
      modifies this
      ensures View() == AcceptNow(old(View()), action, registers)
    {
      if registers {
        actions := actions[ioToken := action];
        registered := registered + {ioToken};
      }
      ioToken := ioToken + 1;
    }

    /** The handler of an event. The kernel gives a new connection a descriptor that is not open, and the read
        of a header never returns more than the header lacks. */
    method ServeEvent(tk: Token, a: Answers)
      requires Honest(View(), tk, a)
      modifies this
      ensures View() == Handle(old(View()), tk, a)
    {
      hide FreshFd;
      if tk !in actions {
        return;
      }
      match actions[tk]
      case MainListener =>
        if a.accepted.Some? {
          if a.registers {
            toInsert := toInsert + [(ioToken, Client([], a.accepted.value))];
            registered := registered + {ioToken};
          }
          ioToken := ioToken + 1;
        }
      case OutputListener =>
        if a.accepted.Some? {
          AcceptStream(Output, a.registers);
        }
      case UnixListener =>
        if a.accepted.Some? {
          AcceptStream(Worker, true);
          workers := workers + 1;
        }
      case Client(head, fd) => ReadHeader(tk, head, fd, a.read);
      case Output =>
        if a.readFails {
          DropStream(tk);
        }
        if a.opensSession {
          outputs := outputs + {tk};
        }
        if a.writeFails {
          DropStream(tk);
        }
      case _ =>
        if a.readFails {
          DropStream(tk);
        }
    }

    method LoseOutputs(lost: seq<Token>)
      modifies `registered, `toRemove
      ensures View() == Lose(old(View()), lost)
    {
      for n := 0 to |lost|
        invariant View() == Lose(old(View()), lost[..n])
      {
        assert lost[..n + 1][..n] == lost[..n];
        if lost[n] in outputs {
          DropStream(lost[n]);
        }
      }
      assert lost[..|lost|] == lost;
    }

    /** A turn up to poll. */
    method TakeTurn(lost: seq<Token>, polled: set<Token>)
      requires MasterInv(View())
      modifies this
      ensures View() == Next(old(View()), Turn(lost, polled)) && MasterInv(View())
    {
      hide MasterInv, Begin, Lose;
      TurnKeeps(View(), lost, polled);
      var _ := BeginTurn();
      LoseOutputs(lost);
      ready := polled * registered;
    }

    /** One event of the batch that poll returned. */
    method TakeEvent(tk: Token, a: Answers)
      requires MasterInv(View()) && Honest(View(), tk, a)
      modifies this
      ensures View() == Next(old(View()), Serve(tk, a)) && MasterInv(View())
    {
      hide MasterInv, FreshFd, Handle;
      ServeKeeps(View(), tk, a);
      if tk !in ready {
        return;
      }
      HonestStill(View(), tk, a);
      ready := ready - {tk};
      ServeEvent(tk, a);
    }

    /** One round of the loop, from the removals to the last event of the batch. */
    method Round(lost: seq<Token>, polled: set<Token>, batch: seq<(Token, Answers)>)
      requires MasterInv(View()) && HonestBatch(Next(View(), Turn(lost, polled)), batch)
      modifies this
      ensures View() == ServeAll(Next(old(View()), Turn(lost, polled)), batch) && MasterInv(View())
    {
      hide MasterInv, Next, Honest;
      TakeTurn(lost, polled);
      ghost var polledState := View();
      var n := 0;
      while n < |batch|
        invariant n <= |batch| && MasterInv(View())
        invariant HonestBatch(View(), batch[n..])
        invariant ServeAll(View(), batch[n..]) == ServeAll(polledState, batch)
      {
        assert batch[n..][0] == batch[n] && batch[n..][1..] == batch[n + 1..];
        TakeEvent(batch[n].0, batch[n].1);
        n := n + 1;
      }
    }
  }
}
