/** Byte strings, the fixed-width integers the protocol stores in them, and the buffer moves
    that every stream of the program repeats. */
module Bytes {

  newtype byte = b: int | 0 <= b < 256

  type bytes = seq<byte>

  datatype Option<+T> = None | Some(value: T)

  datatype Result<+T, +E> = Ok(value: T) | Err(error: E)

  const U32_MODULUS := 0x1_0000_0000
  const U64_MODULUS := 0x1_0000_0000_0000_0000

  /** `(n as u32).to_be_bytes()`: the cast keeps `n` modulo 2^32. */
  function ToBE32(n: nat): (s: bytes)
    ensures |s| == 4
  {
    var (n1, n2, n3) := (n / 256, n / 256 / 256, n / 256 / 256 / 256);
    [(n3 % 256) as byte, (n2 % 256) as byte, (n1 % 256) as byte, (n % 256) as byte]
  }

  /** `u32::from_be_bytes(s) as usize`. */
  function FromBE32(s: bytes): (n: nat)
    requires |s| == 4
    ensures n < U32_MODULUS
  {
    ((s[0] as nat * 256 + s[1] as nat) * 256 + s[2] as nat) * 256 + s[3] as nat
  }

  lemma DecodeEncode32(n: nat)
    ensures FromBE32(ToBE32(n)) == n % U32_MODULUS
  {
    var v := FromBE32(ToBE32(n));
    var (n1, n2, n3) := (n / 256, n / 256 / 256, n / 256 / 256 / 256);
    assert n == 256 * n1 + n % 256 && n1 == 256 * n2 + n1 % 256;
    assert n2 == 256 * n3 + n2 % 256 && n3 == 256 * (n3 / 256) + n3 % 256;
    assert n == U32_MODULUS * (n3 / 256) + v;
  }

  lemma Digit(high: nat, low: byte)
    ensures (high * 256 + low as nat) / 256 == high
    ensures (high * 256 + low as nat) % 256 == low as nat
  {
  }

  lemma EncodeDecode32(s: bytes)
    requires |s| == 4
    ensures ToBE32(FromBE32(s)) == s
  {
    var h1 := s[0] as nat * 256 + s[1] as nat;
    var h2 := h1 * 256 + s[2] as nat;
    Digit(s[0] as nat, s[1]);
    Digit(h1, s[2]);
    Digit(h2, s[3]);
  }

  /** The `width` low bytes of `n`, least significant first. */
  function ToLE(n: nat, width: nat): (s: bytes)
    ensures |s| == width
  {
    if width == 0 then [] else [(n % 256) as byte] + ToLE(n / 256, width - 1)
  }

  function FromLE(s: bytes): nat {
    if s == [] then 0 else s[0] as nat + 256 * FromLE(s[1..])
  }

  function Pow256(k: nat): (p: nat)
    ensures p > 0
  {
    if k == 0 then 1 else 256 * Pow256(k - 1)
  }

  lemma {:induction false} DecodeEncodeLE(n: nat, width: nat)
    requires n < Pow256(width)
    ensures FromLE(ToLE(n, width)) == n
  {
    if width == 0 {
    } else {
      DecodeEncodeLE(n / 256, width - 1);
      assert ToLE(n, width)[1..] == ToLE(n / 256, width - 1);
    }
  }

  lemma {:induction false} EncodeDecodeLE(s: bytes)
    ensures FromLE(s) < Pow256(|s|) && ToLE(FromLE(s), |s|) == s
  {
    if s == [] {
    } else {
      EncodeDecodeLE(s[1..]);
      Digit(FromLE(s[1..]), s[0]);
      assert ToLE(FromLE(s), |s|) == [s[0]] + s[1..];
    }
  }

  /** The weight of each byte: in a length of the frames the first weighs most, in one of bincode the last. */
  lemma BigEndian(s: bytes)
    requires |s| == 4
    ensures FromBE32(s) == s[0] as nat * 0x100_0000 + s[1] as nat * 0x1_0000 + s[2] as nat * 0x100 + s[3] as nat
  {
  }

  lemma {:induction false} LastWeighsMost(s: bytes)
    requires s != []
    ensures FromLE(s) == FromLE(s[..|s| - 1]) + s[|s| - 1] as nat * Pow256(|s| - 1)
  {
    if |s| == 1 {
      assert s[1..] == [] && s[..0] == [];
    } else {
      LastWeighsMost(s[1..]);
      assert s[1..][..|s| - 2] == s[..|s| - 1][1..];
    }
  }

  function Flatten(chunks: seq<bytes>): bytes {
    if chunks == [] then [] else chunks[0] + Flatten(chunks[1..])
  }

  lemma NothingInFront<T>(s: seq<T>)
    ensures [] + s == s
  {
  }

  lemma Associates<T>(a: seq<T>, b: seq<T>, c: seq<T>)
    ensures a + b + c == a + (b + c)
  {
  }

  lemma {:induction false} FlattenAppend(a: seq<bytes>, b: seq<bytes>)
    ensures Flatten(a + b) == Flatten(a) + Flatten(b)
  {
    if a == [] {
      assert a + b == b;
    } else {
      FlattenAppend(a[1..], b);
      assert (a + b)[1..] == a[1..] + b;
      Associates(a[0], Flatten(a[1..]), Flatten(b));
    }
  }

  lemma FlattenOne(a: seq<bytes>, c: bytes)
    ensures Flatten(a + [c]) == Flatten(a) + c
  {
    FlattenAppend(a, [c]);
    assert Flatten([c]) == c + Flatten([]);
  }

  lemma FlattenFirst(chunks: seq<bytes>)
    requires chunks != []
    ensures Flatten(chunks) == chunks[0] + Flatten(chunks[1..])
  {
  }

  lemma FlattenLast(chunks: seq<bytes>)
    requires chunks != []
    ensures Flatten(chunks) == Flatten(chunks[..|chunks| - 1]) + chunks[|chunks| - 1]
  {
    assert chunks == chunks[..|chunks| - 1] + [chunks[|chunks| - 1]];
    FlattenOne(chunks[..|chunks| - 1], chunks[|chunks| - 1]);
  }

  lemma FlattenAt(chunks: seq<bytes>, k: nat)
    requires k < |chunks|
    ensures Flatten(chunks) == Flatten(chunks[..k]) + chunks[k] + Flatten(chunks[k + 1..])
  {
    hide Flatten;
    assert chunks == chunks[..k] + chunks[k..] && chunks[k..][1..] == chunks[k + 1..];
    FlattenAppend(chunks[..k], chunks[k..]);
    FlattenFirst(chunks[k..]);
    Associates(Flatten(chunks[..k]), chunks[k], Flatten(chunks[k + 1..]));
  }

  lemma FlattenFirstOf(chunks: seq<bytes>, k: nat)
    requires 0 < k <= |chunks|
    ensures Flatten(chunks[..k]) == chunks[0] + Flatten(chunks[1..][..k - 1])
  {
    assert chunks[..k][0] == chunks[0] && chunks[..k][1..] == chunks[1..][..k - 1];
  }

  function Min(a: int, b: int): int {
    if a <= b then a else b
  }

  /** The compaction loop that every stream runs after it has used up `count` leading bytes:
      an overlapping forward copy followed by a truncate. */
  method DropFront(buffer: bytes, count: nat) returns (rest: bytes)
    requires count <= |buffer|
    ensures rest == buffer[count..]
  {
    rest := buffer;
    var remaining := |rest| - count;
    for n := 0 to remaining
      invariant |rest| == |buffer|
      invariant forall i :: 0 <= i < n ==> rest[i] == buffer[i + count]
      invariant forall i :: n <= i < |buffer| ==> rest[i] == buffer[i]
    {
      rest := rest[n := rest[n + count]];
    }
    rest := rest[..remaining];
  }

  /** The copy of the leading bytes of a buffer into a fixed-size header. */
  method CopyHeader(buffer: bytes, size: nat) returns (header: bytes)
    requires size <= |buffer|
    ensures header == buffer[..size]
  {
    var raw := new byte[size](_ => 0);
    for n := 0 to size
      invariant raw[..n] == buffer[..n]
    {
      raw[n] := buffer[n];
    }
    header := raw[..];
  }
}
