/** A byte channel from a producer that appends whole frames to a buffer, through partial writes, a FIFO
    wire and partial reads, to a reader that runs the deframing loop. */
module Channels {
  import opened Bytes
  import opened Framing

  datatype Event<M> = Send(msg: M) | Write(count: nat) | Read(count: nat)

  /** `sent` and `got` are the history; `out` and `reader` are the two ends; `wire` is in between. */
  datatype Channel<M, E> = Channel(sent: seq<M>, out: bytes, wire: bytes, got: bytes, reader: Parsed<M, E>)

  function Empty<M, E>(): Channel<M, E> {
    Channel([], [], [], [], Parsed([], [], None))
  }

  function Next<M, E>(c: Codec<M, E>, encode: M -> bytes, ch: Channel<M, E>, e: Event<M>): Channel<M, E> {
    match e
    case Send(m) => ch.(sent := ch.sent + [m], out := ch.out + encode(m))
    case Write(n) =>
      var k := Min(n, |ch.out|);
      ch.(out := ch.out[k..], wire := ch.wire + ch.out[..k])
    case Read(n) =>
      var k := Min(n, |ch.wire|);
      if k == 0 then ch
      else ch.(wire := ch.wire[k..], got := ch.got + ch.wire[..k], reader := Feed(c, ch.reader, ch.wire[..k]))
  }

  function Run<M, E>(c: Codec<M, E>, encode: M -> bytes, events: seq<Event<M>>): Channel<M, E> {
    if events == [] then Empty()
    else Next(c, encode, Run(c, encode, events[..|events| - 1]), events[|events| - 1])
  }

  function FramesOf<M>(encode: M -> bytes, msgs: seq<M>): seq<bytes> {
    seq(|msgs|, i requires 0 <= i < |msgs| => encode(msgs[i]))
  }

  function Encoded<M>(encode: M -> bytes, msgs: seq<M>): bytes {
    Flatten(FramesOf(encode, msgs))
  }

  /** The encoder and the codec agree on `m`. */
  predicate Faithful<M(==), E(==)>(c: Codec<M, E>, encode: M -> bytes, m: M) {
    NextFrame(c, encode(m)) == Frame(|encode(m)|, m)
  }

  ghost predicate Inv<M, E>(c: Codec<M, E>, encode: M -> bytes, ch: Channel<M, E>) {
    && (forall i :: 0 <= i < |ch.sent| ==> Faithful(c, encode, ch.sent[i]))
    && ch.got + ch.wire + ch.out == Encoded(encode, ch.sent)
    && ch.reader == Parse(c, ch.got)
  }

  lemma EncodedOne<M>(encode: M -> bytes, msgs: seq<M>, m: M)
    ensures Encoded(encode, msgs + [m]) == Encoded(encode, msgs) + encode(m)
  {
    assert FramesOf(encode, msgs + [m]) == FramesOf(encode, msgs) + [encode(m)];
    FlattenOne(FramesOf(encode, msgs), encode(m));
  }

  lemma NextKeepsInv<M, E>(c: Codec<M, E>, encode: M -> bytes, ch: Channel<M, E>, e: Event<M>)
    requires Inv(c, encode, ch)
    requires e.Send? ==> Faithful(c, encode, e.msg)
    ensures Inv(c, encode, Next(c, encode, ch, e))
  {
    match e
    case Send(m) =>
      EncodedOne(encode, ch.sent, m);
      Associates(ch.got + ch.wire, ch.out, encode(m));
    case Write(n) =>
      var k := Min(n, |ch.out|);
      assert ch.got + (ch.wire + ch.out[..k]) + ch.out[k..] == ch.got + ch.wire + ch.out;
    case Read(n) =>
      var k := Min(n, |ch.wire|);
      assert ch.got + ch.wire[..k] + ch.wire[k..] + ch.out == ch.got + ch.wire + ch.out;
      ParseAppend(c, ch.got, ch.wire[..k]);
  }

  lemma {:induction false} RunKeepsInv<M, E>(c: Codec<M, E>, encode: M -> bytes, events: seq<Event<M>>)
    requires forall e :: e in events && e.Send? ==> Faithful(c, encode, e.msg)
    ensures Inv(c, encode, Run(c, encode, events))
  {
    if events == [] {
    } else {
      RunKeepsInv(c, encode, events[..|events| - 1]);
      NextKeepsInv(c, encode, Run(c, encode, events[..|events| - 1]), events[|events| - 1]);
    }
  }

  /** What the invariant means to the user of the channel: the messages delivered are a prefix of those
      sent, no byte is lost or duplicated on the way, and everything has arrived exactly when the
      producer's buffer and the wire are empty. */
  lemma Delivery<M, E>(c: Codec<M, E>, encode: M -> bytes, ch: Channel<M, E>)
    requires Inv(c, encode, ch)
    ensures ch.reader.error == None
    ensures ch.reader.msgs <= ch.sent
    ensures Encoded(encode, ch.reader.msgs) + ch.reader.rest + ch.wire + ch.out == Encoded(encode, ch.sent)
    ensures ch.reader.msgs == ch.sent <==> ch.wire == [] && ch.out == []
    ensures ch.wire == [] && ch.out == [] ==> ch.reader.rest == []
  {
    var frames := FramesOf(encode, ch.sent);
    assert ch.got + ch.wire + ch.out == ch.got + (ch.wire + ch.out);
    forall i | 0 <= i < |frames| ensures NextFrame(c, frames[i]) == Frame(|frames[i]|, ch.sent[i]) {
      assert Faithful(c, encode, ch.sent[i]);
    }
    ReaderOfFrames(c, frames, ch.sent, ch.got);
    ReaderHoldsRest(c, frames, ch.sent, ch.got);
    assert FramesOf(encode, ch.reader.msgs) == frames[..|ch.reader.msgs|];
    if ch.reader.msgs == ch.sent {
      assert |ch.got| == |ch.got| + |ch.reader.rest| + |ch.wire| + |ch.out|;
    }
  }

  lemma RunDelivers<M, E>(c: Codec<M, E>, encode: M -> bytes, events: seq<Event<M>>)
    requires forall e :: e in events && e.Send? ==> Faithful(c, encode, e.msg)
    ensures var ch := Run(c, encode, events);
            && ch.reader.error == None
            && ch.reader.msgs <= ch.sent
            && Encoded(encode, ch.reader.msgs) + ch.reader.rest + ch.wire + ch.out == Encoded(encode, ch.sent)
            && (ch.reader.msgs == ch.sent <==> ch.wire == [] && ch.out == [])
  {
    RunKeepsInv(c, encode, events);
    Delivery(c, encode, Run(c, encode, events));
  }

  // Progress.

  /** What a send moves: the message joins those sent, and exactly its frame waits behind what waited before. */
  lemma SendMoves<M, E>(c: Codec<M, E>, encode: M -> bytes, ch: Channel<M, E>, m: M)
    ensures var t := Next(c, encode, ch, Send(m));
            && t.sent == ch.sent + [m] && |t.out| == |ch.out| + |encode(m)|
            && ch.out <= t.out && t.out[|ch.out|..] == encode(m)
            && t.wire == ch.wire && t.got == ch.got && t.reader == ch.reader
  {
  }

  /** What a write moves: as many bytes as it may, and none gets lost. */
  lemma WriteMoves<M, E>(c: Codec<M, E>, encode: M -> bytes, ch: Channel<M, E>, n: nat)
    ensures var t := Next(c, encode, ch, Write(n));
            && |t.out| == |ch.out| - Min(n, |ch.out|) && |t.wire| == |ch.wire| + Min(n, |ch.out|)
            && t.wire + t.out == ch.wire + ch.out
            && t.sent == ch.sent && t.got == ch.got && t.reader == ch.reader
  {
  }

  /** What a read moves: as many bytes as it may, into a reader that has then parsed them all. */
  lemma ReadMoves<M, E>(c: Codec<M, E>, encode: M -> bytes, ch: Channel<M, E>, n: nat)
    requires ch.reader == Parse(c, ch.got) && ch.reader.error == None
    ensures var t := Next(c, encode, ch, Read(n));
            && |t.wire| == |ch.wire| - Min(n, |ch.wire|) && |t.got| == |ch.got| + Min(n, |ch.wire|)
            && t.got + t.wire == ch.got + ch.wire && t.reader == Parse(c, t.got)
            && t.sent == ch.sent && t.out == ch.out
  {
    var k := Min(n, |ch.wire|);
    assert ch.got + ch.wire[..k] + ch.wire[k..] == ch.got + ch.wire;
    ParseAppend(c, ch.got, ch.wire[..k]);
  }

  lemma ReaderParses<M, E>(c: Codec<M, E>, encode: M -> bytes, ch: Channel<M, E>)
    requires Inv(c, encode, ch)
    ensures ch.reader == Parse(c, ch.got)
  {
  }

  /** One write and one read, if they are let through whole, deliver everything. */
  lemma WriteAndReadDeliver<M, E>(c: Codec<M, E>, encode: M -> bytes, ch: Channel<M, E>)
    requires Inv(c, encode, ch)
    ensures var w := Next(c, encode, ch, Write(|ch.out|)); var t := Next(c, encode, w, Read(|w.wire|));
            t.reader.msgs == t.sent == ch.sent && t.reader.rest == []
  {
    hide Next, Inv, Encoded;
    var w := Next(c, encode, ch, Write(|ch.out|));
    NextKeepsInv(c, encode, ch, Write(|ch.out|));
    Delivery(c, encode, w);
    assert w.reader == Parse(c, w.got) by { ReaderParses(c, encode, w); }
    WriteMoves(c, encode, ch, |ch.out|);
    ReadMoves(c, encode, w, |w.wire|);
    NextKeepsInv(c, encode, w, Read(|w.wire|));
    Delivery(c, encode, Next(c, encode, w, Read(|w.wire|)));
  }

  /** From every state that a run can reach, everything that was sent can be delivered. */
  lemma RunCanDeliver<M, E>(c: Codec<M, E>, encode: M -> bytes, events: seq<Event<M>>)
    requires forall e :: e in events && e.Send? ==> Faithful(c, encode, e.msg)
    ensures var ch := Run(c, encode, events);
            var t := Run(c, encode, events + [Write(|ch.out|), Read(|ch.wire| + |ch.out|)]);
            t.reader.msgs == t.sent == ch.sent
  {
    hide Next, Inv;
    var ch := Run(c, encode, events);
    var w, r := Event<M>.Write(|ch.out|), Event<M>.Read(|ch.wire| + |ch.out|);
    assert (events + [w, r])[..|events| + 1] == events + [w] && (events + [w])[..|events|] == events;
    RunKeepsInv(c, encode, events);
    WriteMoves(c, encode, ch, |ch.out|);
    WriteAndReadDeliver(c, encode, ch);
  }
}
