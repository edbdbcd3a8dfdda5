/** client/client/mod.rs: the loop of the client's background thread, that is its table of pending futures and
    its interest in the main stream. */
module ClientLoop {
  import opened Bytes
  import opened Io
  import opened Framing
  import Bincode
  import P = Protocol
  import M = ClientMainStream

  type Id = bytes

  /** A submission brings the sending end of a new channel, here the number `future`. */
  datatype Happening = Submitted(id: Id, future: nat) | Answered(id: Id, result: Bincode.PythonResult)

  /** The pending table, and the values sent so far on each channel. */
  datatype Futures = Futures(pending: map<Id, nat>, channels: map<nat, seq<Bincode.PythonResult>>)

  function Apply(f: Futures, h: Happening): Futures {
    match h
    case Submitted(id, future) => Futures(f.pending[id := future], f.channels[future := []])
    case Answered(id, result) =>
      if id !in f.pending then f else
      var future := f.pending[id];
      var sent := if future in f.channels then f.channels[future] else [];
      Futures(f.pending - {id}, f.channels[future := sent + [result]])
  }

  function RunFutures(log: seq<Happening>): Futures {
    if log == [] then Futures(map[], map[]) else Apply(RunFutures(log[..|log| - 1]), log[|log| - 1])
  }

  /** What becomes of a submission of `id`, given what happens after it: the first later happening with the
      same id decides. */
  datatype Fate = Open | Replaced | Settled(result: Bincode.PythonResult)

  function FateOf(later: seq<Happening>, id: Id): Fate {
    if later == [] then Open
    else if later[0].id == id then
      (match later[0] case Submitted(_, _) => Replaced case Answered(_, result) => Settled(result))
    else FateOf(later[1..], id)
  }

  function ValuesOf(fate: Fate): seq<Bincode.PythonResult> {
    match fate case Settled(result) => [result] case _ => []
  }

  lemma {:induction false} FateOneMore(later: seq<Happening>, h: Happening, id: Id)
    ensures FateOf(later + [h], id) ==
            if FateOf(later, id) != Open then FateOf(later, id) else FateOf([h], id)
  {
    if later == [] {
      assert later + [h] == [h];
    } else {
      assert (later + [h])[1..] == later[1..] + [h];
      FateOneMore(later[1..], h, id);
    }
  }

  /** Every submission creates its own channel. */
  ghost predicate FreshFutures(log: seq<Happening>) {
    forall i, j :: 0 <= i < j < |log| && log[i].Submitted? && log[j].Submitted? ==> log[i].future != log[j].future
  }

  ghost predicate SubmissionInv(log: seq<Happening>, f: Futures, i: nat)
    requires i < |log| && log[i].Submitted?
  {
    var id, future, fate := log[i].id, log[i].future, FateOf(log[i + 1..], log[i].id);
    && future in f.channels && f.channels[future] == ValuesOf(fate)
    && (fate == Open <==> id in f.pending && f.pending[id] == future)
  }

  ghost predicate FuturesInv(log: seq<Happening>, f: Futures) {
    && (forall i :: 0 <= i < |log| && log[i].Submitted? ==> SubmissionInv(log, f, i))
    && (forall id :: id in f.pending ==> exists i :: 0 <= i < |log| && log[i] == Submitted(id, f.pending[id]))
    && (forall future :: future in f.channels ==>
          exists i :: 0 <= i < |log| && log[i].Submitted? && log[i].future == future)
  }

  /** One more happening, seen from one earlier submission. */
  lemma EarlierSubmission(log: seq<Happening>, f: Futures, h: Happening, i: nat)
    requires i < |log| && log[i].Submitted? && SubmissionInv(log, f, i)
    requires h.Submitted? ==> h.future != log[i].future
    requires h.Answered? && h.id in f.pending && h.id != log[i].id ==> f.pending[h.id] != log[i].future
    ensures SubmissionInv(log + [h], Apply(f, h), i)
  {
    assert (log + [h])[i + 1..] == log[i + 1..] + [h];
    FateOneMore(log[i + 1..], h, log[i].id);
  }

  lemma PendingIsFresh(log: seq<Happening>, f: Futures, i: nat, other: Id)
    requires FreshFutures(log) && FuturesInv(log, f)
    requires i < |log| && log[i].Submitted?
    requires other in f.pending && other != log[i].id
    ensures f.pending[other] != log[i].future
  {
    var j :| 0 <= j < |log| && log[j] == Submitted(other, f.pending[other]);
  }

  lemma FreshPrefix(log: seq<Happening>, h: Happening)
    requires FreshFutures(log + [h])
    ensures FreshFutures(log)
  {
    forall i, j | 0 <= i < j < |log| && log[i].Submitted? && log[j].Submitted? ensures log[i].future != log[j].future {
      assert (log + [h])[i] == log[i] && (log + [h])[j] == log[j];
    }
  }

  lemma PendingHasChannel(log: seq<Happening>, f: Futures)
    requires FuturesInv(log, f)
    ensures forall id :: id in f.pending ==> f.pending[id] in f.channels
  {
    forall id | id in f.pending ensures f.pending[id] in f.channels {
      var i :| 0 <= i < |log| && log[i] == Submitted(id, f.pending[id]);
      assert SubmissionInv(log, f, i);
    }
  }

  lemma ApplyKeeps(log: seq<Happening>, f: Futures, h: Happening)
    requires FreshFutures(log + [h]) && FuturesInv(log, f)
    ensures FuturesInv(log + [h], Apply(f, h))
  {
    var log', f' := log + [h], Apply(f, h);
    forall i | 0 <= i < |log'| && log'[i].Submitted? ensures SubmissionInv(log', f', i) {
      if i < |log| {
        assert log'[i] == log[i] && log'[|log|] == h;
        if h.Answered? && h.id in f.pending && h.id != log[i].id {
          FreshPrefix(log, h);
          PendingIsFresh(log, f, i, h.id);
        }
        EarlierSubmission(log, f, h, i);
      } else {
        assert log'[i + 1..] == [];
      }
    }
    forall id | id in f'.pending ensures exists i :: 0 <= i < |log'| && log'[i] == Submitted(id, f'.pending[id]) {
      if id in f.pending && f.pending[id] == f'.pending[id] {
        var i :| 0 <= i < |log| && log[i] == Submitted(id, f.pending[id]);
        assert log'[i] == log[i];
      } else {
        assert log'[|log|] == h;
      }
    }
    forall future | future in f'.channels
      ensures exists i :: 0 <= i < |log'| && log'[i].Submitted? && log'[i].future == future
    {
      if future in f.channels {
        var i :| 0 <= i < |log| && log[i].Submitted? && log[i].future == future;
        assert log'[i] == log[i];
      } else {
        assert log'[|log|] == h;
        PendingHasChannel(log, f);
      }
    }
  }

  lemma {:induction false} RunFuturesKeeps(log: seq<Happening>)
    requires FreshFutures(log)
    ensures FuturesInv(log, RunFutures(log))
  {
    if log == [] {
    } else {
      var most, last := log[..|log| - 1], log[|log| - 1];
      assert log == most + [last];
      FreshPrefix(most, last);
      RunFuturesKeeps(most);
      ApplyKeeps(most, RunFutures(most), last);
    }
  }

  /** Settlement, for every order of submissions and responses: a future receives at most one value, the
      result of the first response with its id that comes after its submission, unless the id is submitted
      again before that, when it receives none. Nothing else reaches it. */
  lemma FirstResponseSettles(log: seq<Happening>, i: nat)
    requires FreshFutures(log)
    requires i < |log| && log[i].Submitted?
    ensures var f := RunFutures(log);
            && log[i].future in f.channels
            && f.channels[log[i].future] == ValuesOf(FateOf(log[i + 1..], log[i].id))
  {
    RunFuturesKeeps(log);
    assert SubmissionInv(log, RunFutures(log), i);
  }

  ghost predicate DistinctIds(log: seq<Happening>) {
    forall i, j :: 0 <= i < j < |log| && log[i].Submitted? && log[j].Submitted? ==> log[i].id != log[j].id
  }

  lemma {:induction false} NeverReplaced(later: seq<Happening>, id: Id)
    requires forall h :: h in later && h.Submitted? ==> h.id != id
    ensures FateOf(later, id) != Replaced
  {
    if later == [] {
    } else if later[0].id != id {
      NeverReplaced(later[1..], id);
    }
  }

  /** With distinct ids, the submitted ids are the disjoint union of the pending and the settled ones. */
  lemma PendingOrSettled(log: seq<Happening>)
    requires FreshFutures(log) && DistinctIds(log)
    ensures var f := RunFutures(log);
            && (forall i :: 0 <= i < |log| && log[i].Submitted? ==>
                  && log[i].future in f.channels
                  && (log[i].id in f.pending <==> f.channels[log[i].future] == []))
            && (forall id :: id in f.pending ==> exists i :: 0 <= i < |log| && log[i] == Submitted(id, f.pending[id]))
  {
    hide RunFutures, FateOf;
    RunFuturesKeeps(log);
    var f := RunFutures(log);
    forall i | 0 <= i < |log| && log[i].Submitted?
      ensures log[i].future in f.channels && (log[i].id in f.pending <==> f.channels[log[i].future] == [])
    {
      assert SubmissionInv(log, f, i);
      NeverReplaced(log[i + 1..], log[i].id);
      if log[i].id in f.pending {
        var j :| 0 <= j < |log| && log[j] == Submitted(log[i].id, f.pending[log[i].id]);
        assert j == i;
      }
    }
  }

  // The loop.

  datatype EvalCode = EvalCode(id: Bincode.Utf8, code: Bincode.Utf8, locals: bytes, globals: bytes, future: nat)

  function Submissions(codes: seq<EvalCode>): seq<Happening> {
    seq(|codes|, i requires 0 <= i < |codes| => Submitted(codes[i].id, codes[i].future))
  }

  function FrameOf(c: EvalCode): bytes {
    M.CodeFrame(Bincode.CodeString(c.id, c.code, c.locals, c.globals))
  }

  function CodeFrames(codes: seq<EvalCode>): seq<bytes> {
    seq(|codes|, i requires 0 <= i < |codes| => FrameOf(codes[i]))
  }

  lemma OneMoreCode(codes: seq<EvalCode>, n: nat)
    requires n < |codes|
    ensures Submissions(codes[..n + 1]) == Submissions(codes[..n]) + [Submitted(codes[n].id, codes[n].future)]
    ensures Flatten(CodeFrames(codes[..n + 1])) == Flatten(CodeFrames(codes[..n])) + FrameOf(codes[n])
  {
    assert CodeFrames(codes[..n + 1]) == CodeFrames(codes[..n]) + [FrameOf(codes[n])];
    FlattenOne(CodeFrames(codes[..n]), FrameOf(codes[n]));
  }

  /** The length of a submission fits its header. */
  predicate CodeFits(c: EvalCode) {
    32 + |c.id| + |c.code| + |c.locals| + |c.globals| < U32_MODULUS
  }

  predicate AsksFor(m: P.RequestMessage, c: EvalCode) {
    && m.CodeStringRequest? && m.codeString.futureId == c.id && m.codeString.code == c.code
    && m.codeString.locals == c.locals && m.codeString.globals == c.globals
  }

  /** What a worker reads out of `stream`: one request for each of the codes, field by field, and nothing else. */
  ghost predicate Decodes(stream: bytes, codes: seq<EvalCode>) {
    var p := Parse(P.REQUEST, stream);
    && p.error == None && p.rest == [] && |p.msgs| == |codes|
    && forall i :: 0 <= i < |codes| ==> AsksFor(p.msgs[i], codes[i])
  }

  lemma CodeDecodes(c: EvalCode)
    requires CodeFits(c)
    ensures var s := NextFrame(P.REQUEST, FrameOf(c)); s.Frame? && s.size == |FrameOf(c)| && AsksFor(s.msg, c)
  {
    P.RequestFrameBound(Bincode.CodeString(c.id, c.code, c.locals, c.globals), 0);
  }

  /** The codes that a client frames are the codes that a worker is asked to run. */
  lemma CodesDecode(codes: seq<EvalCode>)
    requires forall c :: c in codes ==> CodeFits(c)
    ensures Decodes(Flatten(CodeFrames(codes)), codes)
  {
    hide FrameOf, NextFrame, Parse, Flatten, CodeFits, AsksFor;
    var frames := CodeFrames(codes);
    forall i | 0 <= i < |codes|
      ensures var s := NextFrame(P.REQUEST, frames[i]); s.Frame? && s.size == |frames[i]| && AsksFor(s.msg, codes[i])
    {
      CodeDecodes(codes[i]);
    }
    var msgs := seq(|codes|, i requires 0 <= i < |codes| => NextFrame(P.REQUEST, frames[i]).msg);
    ReaderOfFrames(P.REQUEST, frames, msgs, Flatten(frames));
    ReaderHoldsRest(P.REQUEST, frames, msgs, Flatten(frames));
    assert frames[..|frames|] == frames;
  }

  /** The ids that are pending after `codes` were taken: those of before, and those of the codes, each with the
      future of the last code that has it. */
  ghost predicate Registered(before: map<Id, nat>, after: map<Id, nat>, codes: seq<EvalCode>) {
    && (forall id :: id in after <==> id in before || exists i :: 0 <= i < |codes| && codes[i].id == id)
    && (forall i :: 0 <= i < |codes| && (forall j :: i < j < |codes| ==> codes[j].id != codes[i].id) ==>
          after[codes[i].id] == codes[i].future)
    && (forall id :: id in before && (forall i :: 0 <= i < |codes| ==> codes[i].id != id) ==> after[id] == before[id])
  }

  lemma NoneRegistered(before: map<Id, nat>, codes: seq<EvalCode>)
    ensures Registered(before, before, codes[..0])
  {
  }

  lemma RegisterOne(before: map<Id, nat>, after: map<Id, nat>, codes: seq<EvalCode>, n: nat)
    requires n < |codes| && Registered(before, after, codes[..n])
    ensures Registered(before, after[codes[n].id := codes[n].future], codes[..n + 1])
  {
    var all, now := codes[..n + 1], after[codes[n].id := codes[n].future];
    assert all[n] == codes[n] && forall i :: 0 <= i < n ==> all[i] == codes[..n][i];
    forall i | 0 <= i <= n && (forall j :: i < j <= n ==> all[j].id != all[i].id)
      ensures all[i].id in now && now[all[i].id] == all[i].future
    {
      if i < n {
        assert all[n].id != all[i].id;
        assert codes[..n][i] == all[i];
      }
    }
    forall id | id in before && forall i :: 0 <= i <= n ==> all[i].id != id
      ensures id in now && now[id] == before[id]
    {
      assert all[n].id != id;
      assert forall i :: 0 <= i < n ==> codes[..n][i].id != id;
    }
  }

  lemma NothingToFlatten()
    ensures Flatten([]) == []
  {
  }

  /** The responses among the happenings, in order. */
  function AnswersIn(log: seq<Happening>): seq<Happening> {
    if log == [] then []
    else AnswersIn(log[..|log| - 1]) + (if log[|log| - 1].Answered? then [log[|log| - 1]] else [])
  }

  lemma OneMoreHappening(log: seq<Happening>, h: Happening)
    ensures RunFutures(log + [h]) == Apply(RunFutures(log), h)
    ensures AnswersIn(log + [h]) == AnswersIn(log) + (if h.Answered? then [h] else [])
  {
    assert (log + [h])[..|log|] == log;
  }

  function Answer(m: P.ResponseMessage): Happening
    requires !m.HelloResponse?
  {
    Answered(m.code.futureId, m.code.pyResult)
  }

  function Answers(msgs: seq<P.ResponseMessage>): seq<Happening>
    requires forall m :: m in msgs ==> !m.HelloResponse?
  {
    seq(|msgs|, i requires 0 <= i < |msgs| => Answer(msgs[i]))
  }

  /** The id by which a response is looked up; a hello would be looked up under a name of six zeros. */
  function FutureId(m: P.ResponseMessage): Id {
    if m.HelloResponse? then [48, 48, 48, 48, 48, 48] else m.code.futureId
  }

  /** A read of the main stream goes on with the messages of the bytes received. */
  lemma ReadOn(received: bytes, chunk: bytes, settled: seq<P.ResponseMessage>, queued: seq<P.ResponseMessage>,
               held: bytes)
    requires Parse(P.RESPONSE, received).msgs == settled + queued && Parse(P.RESPONSE, received).rest == held
    ensures var after := Feed(P.RESPONSE, Parsed(queued, held, None), chunk);
            && Parse(P.RESPONSE, received + chunk).msgs == settled + after.msgs
            && Parse(P.RESPONSE, received + chunk).rest == after.rest
  {
    hide Parse;
    ParseAppend(P.RESPONSE, received, chunk);
    var more := Parse(P.RESPONSE, held + chunk).msgs;
    assert settled + queued + more == settled + (queued + more);
  }

  lemma {:induction false} AnswersAppend(a: seq<Happening>, b: seq<Happening>)
    ensures AnswersIn(a + b) == AnswersIn(a) + AnswersIn(b)
  {
    if b == [] {
      assert a + b == a;
    } else {
      var most, last := b[..|b| - 1], b[|b| - 1];
      AnswersAppend(a, most);
      assert a + b == (a + most) + [last];
      OneMoreHappening(a + most, last);
      OneMoreHappening(most, last);
      assert most + [last] == b;
    }
  }

  /** The first of `answers` with the id `id`, if there is one. */
  ghost predicate FirstWith(answers: seq<Happening>, id: Id, k: nat) {
    && k < |answers| && answers[k].id == id && forall j :: 0 <= j < k ==> answers[j].id != id
  }

  /** A submission that is not replaced is decided by the first response after it. */
  lemma {:induction false} FateIsFirstAnswer(later: seq<Happening>, id: Id, k: nat)
    requires FateOf(later, id) != Replaced && FirstWith(AnswersIn(later), id, k)
    ensures AnswersIn(later)[k].Answered? && FateOf(later, id) == Settled(AnswersIn(later)[k].result)
  {
    assert later != [];
    AnswersAppend([later[0]], later[1..]);
    assert [later[0]] + later[1..] == later;
    OneMoreHappening([], later[0]);
    assert [] + [later[0]] == [later[0]];
    var rest := AnswersIn(later[1..]);
    if later[0].Submitted? {
      assert AnswersIn(later) == rest;
      FateIsFirstAnswer(later[1..], id, k);
    } else {
      assert AnswersIn(later) == [later[0]] + rest;
      if k > 0 {
        assert AnswersIn(later)[0].id != id;
        assert forall j :: 0 <= j < k - 1 ==> AnswersIn(later)[j + 1] == rest[j];
        FateIsFirstAnswer(later[1..], id, k - 1);
      }
    }
  }

  /** A submission is settled only by a response after it. */
  lemma {:induction false} SettledByAnswer(later: seq<Happening>, id: Id) returns (k: nat)
    requires FateOf(later, id).Settled?
    ensures FirstWith(AnswersIn(later), id, k)
  {
    AnswersAppend([later[0]], later[1..]);
    assert [later[0]] + later[1..] == later;
    OneMoreHappening([], later[0]);
    assert [] + [later[0]] == [later[0]];
    if later[0].id == id {
      k := 0;
    } else {
      k := SettledByAnswer(later[1..], id);
      if later[0].Answered? {
        k := k + 1;
      }
    }
  }

  class Loop {
    const main: M.MainStream
    var pending: map<Id, nat>
    var channels: map<nat, seq<Bincode.PythonResult>>
    var registered: Interest
    ghost var log: seq<Happening>
    ghost var received: bytes
    ghost var settled: seq<P.ResponseMessage>

    ghost function View(): Futures
      reads this
    {
      Futures(pending, channels)
    }

    /** The tables are those of the log, and poll knows the interest that the stream has stored. The responses
        of the log, and then those that are queued, are the messages of the bytes that have been received. */
    ghost predicate Valid()
      reads this, main
    {
      && main.Valid() && View() == RunFutures(log) && registered == main.interest
      && (forall m :: m in settled ==> !m.HelloResponse?)
      && AnswersIn(log) == Answers(settled)
      && Parse(P.RESPONSE, received).msgs == settled + main.respMsgs
      && Parse(P.RESPONSE, received).rest == main.inbuffer
    }

    constructor ()
      ensures Valid() && fresh(main)
      ensures log == [] && received == [] && main.outbuffer == [] && main.respMsgs == []
    {
      main := new M.MainStream(ReadOnly);
      pending, channels, registered, log, received, settled := map[], map[], ReadOnly, [], [], [];
    }

    /** Everything received from the code channel is registered and queued, in order. */
    method TakeCode(codes: seq<EvalCode>)
      requires Valid()
      modifies `pending, `channels, `log, main`outbuffer
      ensures Valid()
      ensures log == old(log) + Submissions(codes)
      ensures main.outbuffer == old(main.outbuffer) + Flatten(CodeFrames(codes))
      ensures old(main.outbuffer) <= main.outbuffer
      ensures (forall c :: c in codes ==> CodeFits(c)) ==> Decodes(main.outbuffer[|old(main.outbuffer)|..], codes)
      ensures Registered(old(pending), pending, codes)
    {
      hide M.CodeFrame, Flatten, RunFutures, Parse, AnswersIn, CodeFits, Decodes, Registered, AsksFor;
      NoneRegistered(pending, codes);
      assert CodeFrames(codes[..0]) == [] && Submissions(codes[..0]) == [];
      assert Flatten([]) == [] by { NothingToFlatten(); }
      for n := 0 to |codes|
        invariant Valid()
        invariant log == old(log) + Submissions(codes[..n])
        invariant main.outbuffer == old(main.outbuffer) + Flatten(CodeFrames(codes[..n]))
        invariant Registered(old(pending), pending, codes[..n])
      {
        var c := codes[n];
        OneMoreCode(codes, n);
        RegisterOne(old(pending), pending, codes, n);
        OneMoreHappening(log, Submitted(c.id, c.future));
        Associates(old(main.outbuffer), Flatten(CodeFrames(codes[..n])), FrameOf(c));
        pending, channels := pending[c.id := c.future], channels[c.future := []];
        log := log + [Submitted(c.id, c.future)];
        main.QueueSourceCode(c.id, c.code, c.locals, c.globals);
      }
      assert codes[..|codes|] == codes;
      if forall c :: c in codes ==> CodeFits(c) {
        CodesDecode(codes);
      }
    }

    /** Every queued response is looked up, and its result sent if its id is pending. The arm for a hello,
        which would forget a future without settling it, is never reached. */
    method Settle()
      requires Valid()
      modifies `pending, `channels, `log, `settled, main`respMsgs
      ensures Valid() && main.respMsgs == []
      ensures log == old(log) + Answers(old(main.respMsgs))
    {
      hide RunFutures, Parse, AnswersIn;
      ghost var n := 0;
      ghost var all := main.respMsgs;
      while main.respMsgs != []
        invariant Valid() && n <= |all| && main.respMsgs == all[n..]
        invariant log == old(log) + Answers(all[..n])
        decreases |main.respMsgs|
      {
        var msg := main.NextRespMsg();
        assert msg.value == all[n];
        n := n + 1;
        assert Answers(all[..n]) == Answers(all[..n - 1]) + [Answer(msg.value)];
        OneMoreHappening(log, Answer(msg.value));
        log := log + [Answer(msg.value)];
        assert settled + ([msg.value] + main.respMsgs) == settled + [msg.value] + main.respMsgs;
        settled := settled + [msg.value];
        var id := FutureId(msg.value);
        if id in pending {
          var future := pending[id];
          pending := pending - {id};
          match msg.value
          case CodePickleResponse(p) => Send(future, p.pyResult);
          case CodeStringResponse(p) => Send(future, p.pyResult);
          case HelloResponse(_) => assert false;
        }
      }
    }

    method Send(future: nat, result: Bincode.PythonResult)
      modifies `channels
      ensures var sent := if future in old(channels) then old(channels)[future] else [];
              channels == old(channels)[future := sent + [result]]
    {
      channels := channels[future := (if future in channels then channels[future] else []) + [result]];
    }

    method SyncInterest()
      requires Valid()
      modifies `registered, main`interest
      ensures Valid()
      ensures registered.IsWritable() <==> main.HasOutData()
    {
      if main.interest == ReadOnly && main.HasOutData() {
        main.SetInterest(ReadWrite);
        registered := main.interest;
      } else if main.interest.IsWritable() && !main.HasOutData() {
        main.SetInterest(ReadOnly);
        registered := main.interest;
      }
    }

    /** The part of a turn that leads up to poll. Whenever the loop blocks there, it waits for writability
        exactly when it has something to write, and every response in the bytes received is settled. */
    method BeforePoll(codes: seq<EvalCode>)
      requires Valid()
      modifies `pending, `channels, `log, `settled, `registered, main`outbuffer, main`respMsgs, main`interest
      ensures Valid() && main.respMsgs == []
      ensures settled == Parse(P.RESPONSE, received).msgs && AnswersIn(log) == Answers(settled)
      ensures log == old(log) + Submissions(codes) + Answers(old(main.respMsgs))
      ensures main.outbuffer == old(main.outbuffer) + Flatten(CodeFrames(codes))
      ensures (forall c :: c in codes ==> CodeFits(c)) ==> Decodes(main.outbuffer[|old(main.outbuffer)|..], codes)
      ensures registered == main.interest && (registered.IsWritable() <==> main.outbuffer != [])
    {
      hide Parse, AnswersIn, RunFutures, Decodes, CodeFits, Registered, Flatten;
      TakeCode(codes);
      Settle();
      assert settled + [] == settled;
      SyncInterest();
    }

    /** An event of the main stream: write if it is writable, and read in any case. */
    method OnMainStream(writable: bool, w: WriteOutcome, r: ReadOutcome) returns (status: Status<P.Error>)
      requires Valid()
      requires w.Wrote? ==> w.count <= |main.outbuffer|
      modifies `received, main`outbuffer, main`inbuffer, main`respMsgs
      ensures Valid()
      ensures received == old(received) +
              if (!writable || (w.Wrote? && w.flushed)) && r.ReadBytes? then r.chunk else []
      ensures main.outbuffer ==
              if writable && w.Wrote? && w.flushed then old(main.outbuffer)[w.count..] else old(main.outbuffer)
      ensures writable && !(w.Wrote? && w.flushed) ==>
                status == IoError && main.respMsgs == old(main.respMsgs) && main.inbuffer == old(main.inbuffer)
      ensures !writable || (w.Wrote? && w.flushed) ==>
                var before := Parsed(old(main.respMsgs), old(main.inbuffer), None);
                var after := if r.ReadBytes? && r.chunk != [] then Feed(P.RESPONSE, before, r.chunk) else before;
                && main.respMsgs == after.msgs && main.inbuffer == after.rest
                && status == (if r.ReadFailed? then IoError else if r.chunk == [] then Closed
                              else if after.error.Some? then Status.Protocol(after.error.value) else Done)
    {
      hide Parse, AnswersIn, RunFutures;
      assert received + [] == received;
      if writable {
        status := main.Write(w);
        if status != Done {
          return;
        }
      }
      status := main.Read(r);
      if r.ReadBytes? && r.chunk != [] {
        ReadOn(received, r.chunk, settled, old(main.respMsgs), old(main.inbuffer));
        received := received + r.chunk;
      }
    }
  }

  /** `msgs[j]` is the first message from `n` on that has the id `id`. */
  ghost predicate FirstResponse(msgs: seq<P.ResponseMessage>, n: nat, id: Id, j: int) {
    && n <= j < |msgs| && !msgs[j].HelloResponse? && msgs[j].code.futureId == id
    && forall k :: n <= k < j ==> !msgs[k].HelloResponse? && msgs[k].code.futureId != id
  }

  lemma AnswersAreResponses(msgs: seq<P.ResponseMessage>, n: nat, id: Id, k: nat)
    requires (forall m :: m in msgs ==> !m.HelloResponse?) && n <= |msgs|
    ensures FirstWith(Answers(msgs)[n..], id, k) <==> FirstResponse(msgs, n, id, n + k)
    ensures n + k < |msgs| ==> Answers(msgs)[n..][k].result == msgs[n + k].code.pyResult
  {
    var answers := Answers(msgs)[n..];
    assert forall j :: 0 <= j < |answers| ==> answers[j].id == msgs[n + j].code.futureId;
    if FirstWith(answers, id, k) {
      forall j | n <= j < n + k ensures msgs[j].code.futureId != id {
        assert answers[j - n].id != id;
      }
    }
  }

  /** The value that a future receives, in the messages of the bytes received alone: the result of the first of
      them that has its id and is looked up after its submission. It never receives another one, and it receives
      this one unless its id is submitted again. */
  lemma ResponseIsReceived(l: Loop, i: nat)
    requires l.Valid() && FreshFutures(l.log)
    requires i < |l.log| && l.log[i].Submitted?
    ensures var msgs, n := Parse(P.RESPONSE, l.received).msgs, |AnswersIn(l.log[..i + 1])|;
            var id, future := l.log[i].id, l.log[i].future;
            && future in l.channels && l.settled <= msgs
            && (l.channels[future] != [] ==>
                  exists j :: FirstResponse(l.settled, n, id, j) && l.channels[future] == [msgs[j].code.pyResult])
            && ((forall k :: i < k < |l.log| && l.log[k].Submitted? ==> l.log[k].id != id) ==>
                  forall j :: FirstResponse(l.settled, n, id, j) ==> l.channels[future] == [msgs[j].code.pyResult])
  {
    hide Parse, RunFutures, AnswersIn, FateOf, FirstWith;
    var n, id, later := |AnswersIn(l.log[..i + 1])|, l.log[i].id, l.log[i + 1..];
    FirstResponseSettles(l.log, i);
    assert l.log[..i + 1] + later == l.log;
    AnswersAppend(l.log[..i + 1], later);
    assert AnswersIn(later) == Answers(l.settled)[n..];
    if l.channels[l.log[i].future] != [] {
      var k := SettledByAnswer(later, id);
      FateIsFirstAnswer(later, id, k);
      AnswersAreResponses(l.settled, n, id, k);
    }
    if forall k :: i < k < |l.log| && l.log[k].Submitted? ==> l.log[k].id != id {
      NeverReplaced(later, id);
      forall j | FirstResponse(l.settled, n, id, j)
        ensures l.channels[l.log[i].future] == [l.settled[j].code.pyResult]
      {
        AnswersAreResponses(l.settled, n, id, j - n);
        FateIsFirstAnswer(later, id, j - n);
      }
    }
  }
}
