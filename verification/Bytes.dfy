/** Bytes and the 8-byte `long` that heads every frame in the queue.
    The original runs on x86-64, so a `long` is eight bytes, two's complement, least significant byte first. */
module Bytes {
  import opened Division

  type byte = x: int | 0 <= x < 256

  /** A `long` that is zero, and with it `sizeof(long)`. Written as a length, the number stays opaque
      enough that the verifier does not unfold `LittleEndian` eight times wherever a frame occurs. */
  const ZERO_LONG: seq<byte> := [0, 0, 0, 0, 0, 0, 0, 0]
  const LONG_BYTES: nat := |ZERO_LONG|
  const TWO_TO_THE_63: int := 0x8000_0000_0000_0000
  const TWO_TO_THE_64: int := 0x1_0000_0000_0000_0000

  type long = x: int | -TWO_TO_THE_63 <= x < TWO_TO_THE_63

  function Pow256(k: nat): (p: nat)
    ensures p > 0
  {
    if k == 0 then 1 else 256 * Pow256(k - 1)
  }

  /** The `k` low-order bytes of `u`, least significant first. */
  function LittleEndian(u: nat, k: nat): (b: seq<byte>)
    ensures |b| == k
  {
    if k == 0 then [] else [u % 256] + LittleEndian(u / 256, k - 1)
  }

  function FromLittleEndian(b: seq<byte>): (u: nat)
    ensures u < Pow256(|b|)
  {
    if b == [] then 0 else b[0] + 256 * FromLittleEndian(b[1..])
  }

  /** The bytes that `memcpy(p, &n, sizeof(long))` stores. */
  function LongBytes(n: long): (b: seq<byte>)
    ensures |b| == LONG_BYTES
  {
    LittleEndian(if n < 0 then n + TWO_TO_THE_64 else n, LONG_BYTES)
  }

  /** The `long` that `memcpy(&n, p, sizeof(long))` loads. */
  function LongOf(b: seq<byte>): (n: long)
    requires |b| == LONG_BYTES
  {
    assert Pow256(8) == TWO_TO_THE_64 by { PowerOfEight(); }
    var u := FromLittleEndian(b);
    if u >= TWO_TO_THE_63 then u - TWO_TO_THE_64 else u
  }

  lemma PowerOfEight()
    ensures Pow256(8) == TWO_TO_THE_64
  {
    assert Pow256(2) == 0x1_0000;
    assert Pow256(4) == 0x1_0000_0000;
    assert Pow256(6) == 0x1_0000_0000_0000;
  }

  lemma {:induction false} LittleEndianRoundTrip(u: nat, k: nat)
    requires u < Pow256(k)
    ensures FromLittleEndian(LittleEndian(u, k)) == u
  {
    if k > 0 {
      LittleEndianRoundTrip(u / 256, k - 1);
      assert LittleEndian(u, k)[1..] == LittleEndian(u / 256, k - 1);
    }
  }

  /** Storing a `long` and loading it back gives the same `long`, negative ones included. */
  lemma LongRoundTrip(n: long)
    ensures LongOf(LongBytes(n)) == n
  {
    PowerOfEight();
    LittleEndianRoundTrip(if n < 0 then n + TWO_TO_THE_64 else n, LONG_BYTES);
  }

  lemma {:induction false} LittleEndianUndoes(b: seq<byte>)
    ensures LittleEndian(FromLittleEndian(b), |b|) == b
  {
    if b != [] {
      LittleEndianUndoes(b[1..]);
      assert b == [b[0]] + b[1..];
    }
  }

  /** Loading a `long` and storing it back gives the same bytes. */
  lemma BytesRoundTrip(b: seq<byte>)
    requires |b| == LONG_BYTES
    ensures LongBytes(LongOf(b)) == b
  {
    PowerOfEight();
    LittleEndianUndoes(b);
  }

  lemma {:induction false} ByteOf(u: nat, k: nat, i: nat)
    requires i < k
    ensures LittleEndian(u, k)[i] == u / Pow256(i) % 256
  {
    if i > 0 {
      ByteOf(u / 256, k - 1, i - 1);
      DivideInSteps(u, 256, Pow256(i - 1));
    }
  }

  /** Byte `i` of a stored `long` is its digit for 256^i; a negative one is stored as 2^64 more. */
  lemma LongByteAt(n: long, i: nat)
    requires i < LONG_BYTES
    ensures n >= 0 ==> LongBytes(n)[i] == n / Pow256(i) % 256
    ensures n < 0 ==> LongBytes(n)[i] == (n + TWO_TO_THE_64) / Pow256(i) % 256
  {
    ByteOf(if n < 0 then n + TWO_TO_THE_64 else n, LONG_BYTES, i);
  }

  lemma ConcatAssociates<T>(a: seq<T>, b: seq<T>, c: seq<T>)
    ensures a + b + c == a + (b + c)
  {
  }

  /** `b` starts with `p` at index `at`. */
  predicate At(b: seq<byte>, at: nat, p: seq<byte>) {
    at + |p| <= |b| && b[at..at + |p|] == p
  }
}
