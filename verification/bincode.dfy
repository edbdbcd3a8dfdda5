/** The message bodies: bincode 1.3 in its default configuration, that is fixed-width little-endian
    integers, a 64-bit length before every string and byte vector, a 32-bit index before every enum
    variant, and trailing bytes ignored on input. */
module Bincode {
  import opened Bytes

  /** `s` has `width` bytes, the second of them in `[low, high]` and the later ones plain continuations. */
  predicate Continues(s: bytes, width: nat, low: byte, high: byte) {
    1 < width <= |s| && low <= s[1] <= high && forall i :: 2 <= i < width ==> 0x80 <= s[i] <= 0xBF
  }

  /** The width of the UTF-8 character that starts `s`, or 0 when there is none (RFC 3629, section 4). */
  function CharWidth(s: bytes): (w: nat)
    ensures w <= |s|
  {
    if s == [] then 0
    else if s[0] < 0x80 then 1
    else if 0xC2 <= s[0] <= 0xDF then if Continues(s, 2, 0x80, 0xBF) then 2 else 0
    else if 0xE0 <= s[0] <= 0xEF then
      if Continues(s, 3, if s[0] == 0xE0 then 0xA0 else 0x80, if s[0] == 0xED then 0x9F else 0xBF) then 3 else 0
    else if 0xF0 <= s[0] <= 0xF4 then
      if Continues(s, 4, if s[0] == 0xF0 then 0x90 else 0x80, if s[0] == 0xF4 then 0x8F else 0xBF) then 4 else 0
    else 0
  }

  predicate ValidUtf8(s: bytes) {
    s == [] || (CharWidth(s) > 0 && ValidUtf8(s[CharWidth(s)..]))
  }

  /** The code points that UTF-8 encodes: all but the surrogates (RFC 3629, section 3). */
  type Scalar = c: nat | c < 0xD800 || 0xE000 <= c < 0x11_0000 witness 0

  function EncodeChar(c: Scalar): bytes {
    var low, mid, high := (c % 64) as byte, (c / 64 % 64) as byte, (c / 4096 % 64) as byte;
    if c < 0x80 then [c as byte]
    else if c < 0x800 then [0xC0 + (c / 64) as byte, 0x80 + low]
    else if c < 0x1_0000 then [0xE0 + (c / 4096) as byte, 0x80 + mid, 0x80 + low]
    else [0xF0 + (c / 262144) as byte, 0x80 + high, 0x80 + mid, 0x80 + low]
  }

  function EncodeChars(cs: seq<Scalar>): bytes {
    if cs == [] then [] else EncodeChar(cs[0]) + EncodeChars(cs[1..])
  }

  lemma WidthOfChar(c: Scalar, rest: bytes)
    ensures CharWidth(EncodeChar(c) + rest) == |EncodeChar(c)| > 0
  {
  }

  lemma OneByte(c: nat)
    requires c < 0x80
    ensures EncodeChar(c) == [c as byte]
  {
  }

  lemma SixBits(high: nat, low: nat)
    requires low < 64
    ensures (high * 64 + low) / 64 == high && (high * 64 + low) % 64 == low
  {
  }

  lemma TwoBytes(a: nat, b: nat)
    requires 2 <= a < 32 && b < 64
    ensures EncodeChar(a * 64 + b) == [0xC0 + a as byte, 0x80 + b as byte]
  {
    SixBits(a, b);
  }

  lemma ThreeBytes(a: nat, b: nat, c: nat)
    requires a < 16 && b < 64 && c < 64 && (a == 0 ==> b >= 32) && (a == 13 ==> b < 32)
    ensures var n := (a * 64 + b) * 64 + c;
            && (n < 0xD800 || 0xE000 <= n < 0x11_0000)
            && EncodeChar(n) == [0xE0 + a as byte, 0x80 + b as byte, 0x80 + c as byte]
  {
    var n := (a * 64 + b) * 64 + c;
    SixBits(a, b);
    SixBits(a * 64 + b, c);
    assert n / 4096 == n / 64 / 64;
  }

  lemma FourBytes(a: nat, b: nat, c: nat, d: nat)
    requires a <= 4 && b < 64 && c < 64 && d < 64 && (a == 0 ==> b >= 16) && (a == 4 ==> b < 16)
    ensures var n := ((a * 64 + b) * 64 + c) * 64 + d;
            && 0xE000 <= n < 0x11_0000
            && EncodeChar(n) == [0xF0 + a as byte, 0x80 + b as byte, 0x80 + c as byte, 0x80 + d as byte]
  {
    var n := ((a * 64 + b) * 64 + c) * 64 + d;
    SixBits(a, b);
    SixBits(a * 64 + b, c);
    SixBits((a * 64 + b) * 64 + c, d);
    assert n / 4096 == n / 64 / 64 && n / 262144 == n / 64 / 64 / 64;
  }

  lemma CharOfWidth(s: bytes) returns (c: Scalar)
    requires CharWidth(s) > 0
    ensures EncodeChar(c) == s[..CharWidth(s)]
  {
    hide EncodeChar;
    var w := CharWidth(s);
    if w == 1 {
      c := s[0] as nat;
      assert EncodeChar(c) == [s[0]] by { OneByte(c); }
    } else if w == 2 {
      TwoBytes((s[0] - 0xC0) as nat, (s[1] - 0x80) as nat);
      c := (s[0] - 0xC0) as nat * 64 + (s[1] - 0x80) as nat;
    } else if w == 3 {
      ThreeBytes((s[0] - 0xE0) as nat, (s[1] - 0x80) as nat, (s[2] - 0x80) as nat);
      c := ((s[0] - 0xE0) as nat * 64 + (s[1] - 0x80) as nat) * 64 + (s[2] - 0x80) as nat;
    } else {
      FourBytes((s[0] - 0xF0) as nat, (s[1] - 0x80) as nat, (s[2] - 0x80) as nat, (s[3] - 0x80) as nat);
      c := (((s[0] - 0xF0) as nat * 64 + (s[1] - 0x80) as nat) * 64 + (s[2] - 0x80) as nat) * 64
         + (s[3] - 0x80) as nat;
    }
  }

  lemma {:induction false} EncodedIsValid(cs: seq<Scalar>)
    ensures ValidUtf8(EncodeChars(cs))
  {
    hide EncodeChar, CharWidth;
    if cs == [] {
    } else {
      EncodedIsValid(cs[1..]);
      WidthOfChar(cs[0], EncodeChars(cs[1..]));
    }
  }

  lemma {:induction false} ValidIsEncoded(s: bytes) returns (cs: seq<Scalar>)
    requires ValidUtf8(s)
    ensures EncodeChars(cs) == s
  {
    hide EncodeChar, CharWidth;
    if s == [] {
      cs := [];
    } else {
      var c := CharOfWidth(s);
      var rest := ValidIsEncoded(s[CharWidth(s)..]);
      cs := [c] + rest;
    }
  }

  /** The bytes that are taken for a string are exactly the encodings of sequences of code points. */
  lemma ValidUtf8Iff(s: bytes)
    ensures ValidUtf8(s) <==> exists cs: seq<Scalar> :: EncodeChars(cs) == s
  {
    if ValidUtf8(s) {
      var cs := ValidIsEncoded(s);
    }
    forall cs: seq<Scalar> | EncodeChars(cs) == s ensures ValidUtf8(s) {
      EncodedIsValid(cs);
    }
  }

  /** A Rust `String`, as its bytes. */
  type Utf8 = s: bytes | ValidUtf8(s) witness []

  function Put(s: bytes): bytes {
    ToLE(|s|, 8) + s
  }

  function Take(b: bytes): Option<(bytes, bytes)> {
    if |b| < 8 || |b| < 8 + FromLE(b[..8]) then None
    else var end := 8 + FromLE(b[..8]); Some((b[8..end], b[end..]))
  }

  function TakeString(b: bytes): Option<(Utf8, bytes)> {
    match Take(b)
    case Some((s, rest)) => if ValidUtf8(s) then Some((s, rest)) else None
    case None => None
  }

  lemma TakePut(s: bytes, rest: bytes)
    requires |s| < U64_MODULUS
    ensures Take(Put(s) + rest) == Some((s, rest))
  {
    assert Pow256(8) == U64_MODULUS by {
      assert Pow256(4) == U32_MODULUS;
    }
    DecodeEncodeLE(|s|, 8);
    var b := Put(s) + rest;
    assert b[..8] == ToLE(|s|, 8);
    assert b[8..8 + |s|] == s && b[8 + |s|..] == rest;
  }

  // The bodies of the main stream.

  datatype CodeString = CodeString(futureId: Utf8, code: Utf8, locals: bytes, globals: bytes)

  datatype CodePickle = CodePickle(futureId: Utf8, pickle: bytes, locals: bytes, globals: bytes)

  datatype PythonResult = Error(error: bytes) | Return(value: bytes)

  /** `ResponseCodeString` and `ResponseCodePickle` have the same fields. */
  datatype ResponseCode = ResponseCode(futureId: Utf8, pyResult: PythonResult)

  datatype ResponseClientHello = ResponseClientHello(sessionId: Utf8, streamToken: Utf8, outputAddr: Utf8)

  datatype ClientHello = ClientHello(streamToken: Utf8)

  function PutCodeString(m: CodeString): bytes {
    Put(m.futureId) + (Put(m.code) + (Put(m.locals) + Put(m.globals)))
  }

  function TakeCodeString(b: bytes): Option<CodeString> {
    match TakeString(b) case None => None case Some((id, b1)) =>
    match TakeString(b1) case None => None case Some((code, b2)) =>
    match Take(b2) case None => None case Some((locals, b3)) =>
    match Take(b3) case None => None case Some((globals, _)) => Some(CodeString(id, code, locals, globals))
  }

  function TakeCodePickle(b: bytes): Option<CodePickle> {
    match TakeString(b) case None => None case Some((id, b1)) =>
    match Take(b1) case None => None case Some((pickle, b2)) =>
    match Take(b2) case None => None case Some((locals, b3)) =>
    match Take(b3) case None => None case Some((globals, _)) => Some(CodePickle(id, pickle, locals, globals))
  }

  function PutResponseCode(m: ResponseCode): bytes {
    Put(m.futureId) + (ToLE(if m.pyResult.Error? then 0 else 1, 4) +
                       Put(match m.pyResult case Error(e) => e case Return(v) => v))
  }

  function TakeResponseCode(b: bytes): Option<ResponseCode> {
    match TakeString(b) case None => None case Some((id, b1)) =>
    if |b1| < 4 || FromLE(b1[..4]) > 1 then None else
    match Take(b1[4..]) case None => None case Some((payload, _)) =>
    Some(ResponseCode(id, if FromLE(b1[..4]) == 0 then Error(payload) else Return(payload)))
  }

  function PutResponseHello(m: ResponseClientHello): bytes {
    Put(m.sessionId) + (Put(m.streamToken) + Put(m.outputAddr))
  }

  function TakeResponseHello(b: bytes): Option<ResponseClientHello> {
    match TakeString(b) case None => None case Some((id, b1)) =>
    match TakeString(b1) case None => None case Some((token, b2)) =>
    match TakeString(b2) case None => None case Some((addr, _)) => Some(ResponseClientHello(id, token, addr))
  }

  function PutClientHello(m: ClientHello): bytes {
    Put(m.streamToken)
  }

  function TakeClientHello(b: bytes): Option<ClientHello> {
    match TakeString(b) case None => None case Some((token, _)) => Some(ClientHello(token))
  }

  /** A serialized `CodeString` deserializes to itself, whatever bytes follow it. */
  lemma CodeStringRoundTrip(m: CodeString, trailing: bytes)
    requires |PutCodeString(m)| < U64_MODULUS
    ensures TakeCodeString(PutCodeString(m) + trailing) == Some(m)
  {
    var c3 := Put(m.globals);
    var c2 := Put(m.locals) + c3;
    var c1 := Put(m.code) + c2;
    Associates(Put(m.futureId), c1, trailing);
    Associates(Put(m.code), c2, trailing);
    Associates(Put(m.locals), c3, trailing);
    TakePut(m.futureId, c1 + trailing);
    TakePut(m.code, c2 + trailing);
    TakePut(m.locals, c3 + trailing);
    TakePut(m.globals, trailing);
  }

  lemma TagFirst(tag: nat, rest: bytes)
    requires tag < 256
    ensures FromLE((ToLE(tag, 4) + rest)[..4]) == tag
    ensures (ToLE(tag, 4) + rest)[4..] == rest
  {
    assert (ToLE(tag, 4) + rest)[..4] == ToLE(tag, 4);
    assert Pow256(4) >= Pow256(1) == 256;
    DecodeEncodeLE(tag, 4);
  }

  lemma ResponseCodeRoundTrip(m: ResponseCode, trailing: bytes)
    requires |PutResponseCode(m)| < U64_MODULUS
    ensures TakeResponseCode(PutResponseCode(m) + trailing) == Some(m)
  {
    var tag := if m.pyResult.Error? then 0 else 1;
    var payload := match m.pyResult case Error(e) => e case Return(v) => v;
    var c1 := ToLE(tag, 4) + Put(payload);
    Associates(Put(m.futureId), c1, trailing);
    Associates(ToLE(tag, 4), Put(payload), trailing);
    TakePut(m.futureId, c1 + trailing);
    TagFirst(tag, Put(payload) + trailing);
    TakePut(payload, trailing);
  }

  lemma ResponseHelloRoundTrip(m: ResponseClientHello, trailing: bytes)
    requires |PutResponseHello(m)| < U64_MODULUS
    ensures TakeResponseHello(PutResponseHello(m) + trailing) == Some(m)
  {
    var c2 := Put(m.outputAddr);
    var c1 := Put(m.streamToken) + c2;
    Associates(Put(m.sessionId), c1, trailing);
    Associates(Put(m.streamToken), c2, trailing);
    TakePut(m.sessionId, c1 + trailing);
    TakePut(m.streamToken, c2 + trailing);
    TakePut(m.outputAddr, trailing);
  }

  lemma ClientHelloRoundTrip(m: ClientHello, trailing: bytes)
    requires |PutClientHello(m)| < U64_MODULUS
    ensures TakeClientHello(PutClientHello(m) + trailing) == Some(m)
  {
    TakePut(m.streamToken, trailing);
  }

  lemma ClientHelloAlone(m: ClientHello)
    requires |PutClientHello(m)| < U64_MODULUS
    ensures TakeClientHello(PutClientHello(m)) == Some(m)
  {
    ClientHelloRoundTrip(m, []);
    assert PutClientHello(m) + [] == PutClientHello(m);
  }

  /** A length is stored in eight bytes, the lowest first. */
  lemma PutLayout(s: bytes)
    requires |s| < 0x1_0000
    ensures Put(s) == [(|s| % 256) as byte, (|s| / 256) as byte, 0, 0, 0, 0, 0, 0] + s
  {
    assert ToLE(|s|, 8) == [(|s| % 256) as byte] + ([(|s| / 256) as byte] + ToLE(0, 6));
    assert ToLE(0, 6) == [0] + ([0] + ([0] + ([0] + ([0] + ([0] + []))))) by {
      assert ToLE(0, 3) == [0] + ([0] + ([0] + []));
    }
  }

  // What is accepted: exactly the encodings, whatever follows them.

  lemma PrefixSplits(x: bytes, y: bytes, b: bytes)
    ensures x + y <= b <==> x <= b && y <= b[|x|..]
  {
    if x + y <= b {
      assert b[..|x|] == (x + y)[..|x|] == x;
      assert b[|x|..][..|y|] == (x + y)[|x|..] == y;
    }
    if x <= b && y <= b[|x|..] {
      assert b[..|x + y|] == x + y;
    }
  }

  /** Reading a byte string cuts off its encoding. */
  lemma TakeIff(b: bytes, s: bytes)
    requires |b| < U64_MODULUS
    ensures Take(b).Some? && Take(b).value.0 == s <==> Put(s) <= b
    ensures Put(s) <= b ==> Take(b) == Some((s, b[|Put(s)|..]))
  {
    hide ToLE, FromLE;
    if Put(s) <= b {
      TakePut(s, b[|Put(s)|..]);
      assert b == Put(s) + b[|Put(s)|..];
    }
    if Take(b).Some? && Take(b).value.0 == s {
      EncodeDecodeLE(b[..8]);
      assert b[..8 + |s|] == Put(s);
    }
  }

  lemma TakeStringIff(b: bytes, s: bytes)
    requires |b| < U64_MODULUS
    ensures TakeString(b).Some? && TakeString(b).value.0 == s <==> Put(s) <= b && ValidUtf8(s)
    ensures Put(s) <= b && ValidUtf8(s) ==> TakeString(b) == Some((s, b[|Put(s)|..]))
  {
    hide Put, Take;
    TakeIff(b, s);
  }

  /** What is left of `b` behind the encoding of `s`. */
  function Behind(b: bytes, s: bytes): (rest: bytes)
    ensures |rest| <= |b|
  {
    if Put(s) <= b then b[|Put(s)|..] else []
  }

  /** A body is read as a request exactly when it starts with the four fields of the request, in this order. */
  lemma CodeStringIff(b: bytes, m: CodeString)
    requires |b| < U64_MODULUS
    ensures TakeCodeString(b) == Some(m) <==>
            Put(m.futureId) + (Put(m.code) + (Put(m.locals) + Put(m.globals))) <= b
  {
    hide Put, Take, TakeString;
    var b1 := Behind(b, m.futureId);
    var b2 := Behind(b1, m.code);
    PrefixSplits(Put(m.futureId), Put(m.code) + (Put(m.locals) + Put(m.globals)), b);
    PrefixSplits(Put(m.code), Put(m.locals) + Put(m.globals), b1);
    PrefixSplits(Put(m.locals), Put(m.globals), b2);
    TakeStringIff(b, m.futureId);
    TakeStringIff(b1, m.code);
    TakeIff(b2, m.locals);
    TakeIff(Behind(b2, m.locals), m.globals);
  }

  lemma CodePickleIff(b: bytes, m: CodePickle)
    requires |b| < U64_MODULUS
    ensures TakeCodePickle(b) == Some(m) <==>
            Put(m.futureId) + (Put(m.pickle) + (Put(m.locals) + Put(m.globals))) <= b
  {
    hide Put, Take, TakeString;
    var b1 := Behind(b, m.futureId);
    var b2 := Behind(b1, m.pickle);
    PrefixSplits(Put(m.futureId), Put(m.pickle) + (Put(m.locals) + Put(m.globals)), b);
    PrefixSplits(Put(m.pickle), Put(m.locals) + Put(m.globals), b1);
    PrefixSplits(Put(m.locals), Put(m.globals), b2);
    TakeStringIff(b, m.futureId);
    TakeIff(b1, m.pickle);
    TakeIff(b2, m.locals);
    TakeIff(Behind(b2, m.locals), m.globals);
  }

  lemma TagIff(b: bytes, tag: byte)
    ensures |b| >= 4 && FromLE(b[..4]) == tag as nat <==> [tag, 0, 0, 0] <= b
  {
    if |b| >= 4 {
      var t := b[..4];
      assert t[1..][1..][1..][1..] == [];
      assert FromLE(t) == t[0] as nat + 256 * (t[1] as nat + 256 * (t[2] as nat + 256 * t[3] as nat)) by {
        assert FromLE(t[1..][1..][1..]) == t[3] as nat + 256 * FromLE([]);
        assert FromLE(t[1..][1..]) == t[2] as nat + 256 * t[3] as nat;
        assert FromLE(t[1..]) == t[1] as nat + 256 * (t[2] as nat + 256 * t[3] as nat);
      }
      assert t == [t[0], t[1], t[2], t[3]];
    }
  }

  /** Of the two variants, an error has the index 0 and a returned value the index 1. */
  lemma ResponseCodeIff(b: bytes, m: ResponseCode)
    requires |b| < U64_MODULUS
    ensures TakeResponseCode(b) == Some(m) <==>
            match m.pyResult
            case Error(e) => Put(m.futureId) + ([0, 0, 0, 0] + Put(e)) <= b
            case Return(v) => Put(m.futureId) + ([1, 0, 0, 0] + Put(v)) <= b
  {
    hide Put, Take, TakeString, FromLE;
    var b1 := Behind(b, m.futureId);
    var b2 := if |b1| >= 4 then b1[4..] else [];
    var payload := match m.pyResult case Error(e) => e case Return(v) => v;
    TakeStringIff(b, m.futureId);
    TagIff(b1, 0);
    TagIff(b1, 1);
    TakeIff(b2, payload);
    PrefixSplits(Put(m.futureId), [0, 0, 0, 0] + Put(payload), b);
    PrefixSplits(Put(m.futureId), [1, 0, 0, 0] + Put(payload), b);
    PrefixSplits([0, 0, 0, 0], Put(payload), b1);
    PrefixSplits([1, 0, 0, 0], Put(payload), b1);
  }

  lemma ResponseHelloIff(b: bytes, m: ResponseClientHello)
    requires |b| < U64_MODULUS
    ensures TakeResponseHello(b) == Some(m) <==> Put(m.sessionId) + (Put(m.streamToken) + Put(m.outputAddr)) <= b
  {
    hide Put, Take, TakeString;
    var b1 := Behind(b, m.sessionId);
    PrefixSplits(Put(m.sessionId), Put(m.streamToken) + Put(m.outputAddr), b);
    PrefixSplits(Put(m.streamToken), Put(m.outputAddr), b1);
    TakeStringIff(b, m.sessionId);
    TakeStringIff(b1, m.streamToken);
    TakeStringIff(Behind(b1, m.streamToken), m.outputAddr);
  }

  lemma ClientHelloIff(b: bytes, m: ClientHello)
    requires |b| < U64_MODULUS
    ensures TakeClientHello(b) == Some(m) <==> Put(m.streamToken) <= b
  {
    hide Put, Take, TakeString;
    TakeStringIff(b, m.streamToken);
  }
}
