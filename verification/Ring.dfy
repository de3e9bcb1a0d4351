/** The circular buffer of src/cb.c as a value: a byte array of capacity `N`, a head `h` where the
    next read starts and a tail `t` where the next write starts. Each store the C code makes to the
    array and to `t` is its own function, because the reader looks at `h` and `t` without the lock. */
module RingModel {
  import opened Bytes

  datatype Ring = Ring(d: seq<byte>, h: nat, t: nat) {
    /** Every index the C code keeps lies inside the array; `t == N` never survives a call. */
    ghost predicate Valid() {
      h < |d| && t < |d|
    }

    function N(): nat { |d| }

    /** cb_size */
    function Size(): (size: nat)
      requires Valid()
      ensures size < N()
    {
      if h <= t then t - h else t + (N() - h)
    }

    /** cb_space */
    function Space(): nat
      requires Valid()
    {
      N() - (1 + Size())
    }

    /** The queued bytes, oldest first. */
    function Contents(): (c: seq<byte>)
      requires Valid()
      ensures |c| == Size()
    {
      if h <= t then d[h..t] else d[h..] + d[..t]
    }

    /** The guard `b->n <= b->t + n` of cb_write: the copy reaches the end of the array. */
    predicate WrapsWriting(n: nat) {
      N() <= t + n
    }

    /** The first copy and the store `t = 0`. */
    function StoreToEnd(s: seq<byte>): Ring
      requires Valid() && WrapsWriting(|s|)
    {
      Ring(Overwrite(d, t, s[..N() - t]), h, 0)
    }

    /** The last copy and the store `t += n`. */
    function StoreRest(s: seq<byte>): Ring
      requires t + |s| <= N()
    {
      Ring(Overwrite(d, t, s), h, t + |s|)
    }

    /** Both copies: the whole critical section of cb_write past its guard. */
    function Put(s: seq<byte>): Ring
      requires Valid() && |s| <= Space()
    {
      if WrapsWriting(|s|) then StoreToEnd(s).StoreRest(s[N() - t..]) else StoreRest(s)
    }

    /** The bytes cb_read copies out. */
    function Taken(n: nat): (s: seq<byte>)
      requires Valid() && n <= Size()
      ensures |s| == n
    {
      if N() <= h + n then d[h..] + d[..n - (N() - h)] else d[h..h + n]
    }

    /** The ring cb_read leaves behind. */
    function AfterTake(n: nat): Ring
      requires Valid() && n <= Size()
    {
      this.(h := if N() <= h + n then n - (N() - h) else h + n)
    }
  }

  /** memcpy of `s` into `d` at `at`. */
  function Overwrite(d: seq<byte>, at: nat, s: seq<byte>): (r: seq<byte>)
    requires at + |s| <= |d|
    ensures |r| == |d|
    ensures forall i :: 0 <= i < |d| ==> r[i] == if at <= i < at + |s| then s[i - at] else d[i]
  {
    d[..at] + s + d[at + |s|..]
  }

  function Fresh(n: nat): (r: Ring)
    requires n >= 1
    ensures r.Valid() && r.N() == n && r.Contents() == []
  {
    Ring(seq(n, _ => 0), 0, 0)
  }

  /** Between the two stores the ring already shows the bytes of the first copy, and exactly those: its
      size is then N - h. */
  lemma StoreToEndShowsPrefix(r: Ring, s: seq<byte>)
    requires r.Valid() && |s| <= r.Space() && r.WrapsWriting(|s|)
    ensures 1 <= r.N() - r.t <= |s|
    ensures var m := r.StoreToEnd(s);
            && m.Valid() && m.N() == r.N() && m.h >= 1 && m.Size() == r.N() - r.h
            && m.Contents() == r.Contents() + s[..r.N() - r.t]
            && |s| - (r.N() - r.t) <= m.Space()
            && !m.WrapsWriting(|s| - (r.N() - r.t))
  {
    var e := r.N() - r.t;
    var m := r.StoreToEnd(s);
    assert r.h <= r.t;
    assert m.d[r.h..] == r.d[r.h..r.t] + s[..e];
  }

  lemma OverwriteUpTo(d: seq<byte>, at: nat, s: seq<byte>, from: nat)
    requires from <= at && at + |s| <= |d|
    ensures Overwrite(d, at, s)[from..at + |s|] == d[from..at] + s
  {
  }

  lemma OverwriteBeyond(d: seq<byte>, at: nat, s: seq<byte>, from: nat)
    requires at + |s| <= from <= |d|
    ensures Overwrite(d, at, s)[from..] == d[from..]
  {
  }

  lemma StoreRestAppends(r: Ring, s: seq<byte>)
    requires r.Valid() && |s| <= r.Space() && !r.WrapsWriting(|s|)
    ensures var m := r.StoreRest(s);
            m.Valid() && m.N() == r.N() && m.Contents() == r.Contents() + s
  {
    if r.h <= r.t {
      OverwriteUpTo(r.d, r.t, s, r.h);
    } else {
      OverwriteUpTo(r.d, r.t, s, 0);
      OverwriteBeyond(r.d, r.t, s, r.h);
      ConcatAssociates(r.d[r.h..], r.d[..r.t], s);
    }
  }

  /** A write that fits appends its bytes to the queue, wherever the wrap falls. */
  lemma PutAppends(r: Ring, s: seq<byte>)
    requires r.Valid() && |s| <= r.Space()
    ensures var m := r.Put(s);
            m.Valid() && m.N() == r.N() && m.h == r.h && m.Contents() == r.Contents() + s
  {
    if r.WrapsWriting(|s|) {
      var e := r.N() - r.t;
      StoreToEndShowsPrefix(r, s);
      StoreRestAppends(r.StoreToEnd(s), s[e..]);
      assert s == s[..e] + s[e..];
    } else {
      StoreRestAppends(r, s);
    }
  }

  /** A read that is covered removes the oldest bytes and hands out exactly those. */
  lemma TakeRemovesPrefix(r: Ring, n: nat)
    requires r.Valid() && n <= r.Size()
    ensures r.Taken(n) == r.Contents()[..n]
    ensures var m := r.AfterTake(n);
            m.Valid() && m.N() == r.N() && m.Contents() == r.Contents()[n..]
  {
  }

  // ---------------------------------------------------------------------------------------------
  // Refinement: any sequence of non-waiting calls behaves like a bounded FIFO of N - 1 bytes.

  datatype Call = Write(data: seq<byte>) | Read(n: nat)

  /** What a call hands back: -1, or 0 with the bytes copied out (none for a write). */
  datatype Answer = Rejected | Done(copied: seq<byte>)

  function RingCall(r: Ring, c: Call): (Answer, Ring)
    requires r.Valid()
  {
    match c
    case Write(data) => if |data| > r.Space() then (Rejected, r) else (Done([]), r.Put(data))
    case Read(n) => if n > r.Size() then (Rejected, r) else (Done(r.Taken(n)), r.AfterTake(n))
  }

  /** The reference: a sequence that never holds more than `bound` bytes. */
  function FifoCall(q: seq<byte>, bound: nat, c: Call): (Answer, seq<byte>) {
    match c
    case Write(data) => if |q| + |data| > bound then (Rejected, q) else (Done([]), q + data)
    case Read(n) => if n > |q| then (Rejected, q) else (Done(q[..n]), q[n..])
  }

  lemma CallKeepsValid(r: Ring, c: Call)
    requires r.Valid()
    ensures RingCall(r, c).1.Valid() && RingCall(r, c).1.N() == r.N()
    ensures FifoCall(r.Contents(), r.N() - 1, c) == (RingCall(r, c).0, RingCall(r, c).1.Contents())
  {
    match c
    case Write(data) => if |data| <= r.Space() { PutAppends(r, data); }
    case Read(n) => if n <= r.Size() { TakeRemovesPrefix(r, n); }
  }

  function RunRing(r: Ring, calls: seq<Call>): seq<Answer>
    requires r.Valid()
    decreases |calls|
  {
    if calls == [] then [] else
      CallKeepsValid(r, calls[0]);
      [RingCall(r, calls[0]).0] + RunRing(RingCall(r, calls[0]).1, calls[1..])
  }

  function RunFifo(q: seq<byte>, bound: nat, calls: seq<Call>): seq<Answer>
    decreases |calls|
  {
    if calls == [] then [] else
      [FifoCall(q, bound, calls[0]).0] + RunFifo(FifoCall(q, bound, calls[0]).1, bound, calls[1..])
  }

  /** Every answer and every copied byte agree, for every capacity and every sequence of calls. */
  lemma {:induction false} RingRefinesFifo(r: Ring, calls: seq<Call>)
    requires r.Valid()
    ensures RunRing(r, calls) == RunFifo(r.Contents(), r.N() - 1, calls)
    decreases |calls|
  {
    if calls != [] {
      CallKeepsValid(r, calls[0]);
      RingRefinesFifo(RingCall(r, calls[0]).1, calls[1..]);
    }
  }

  /** With at most 2^30 bytes of capacity none of the sums in src/cb.c leaves a 32-bit `int`. */
  lemma SumsFitInt(r: Ring, n: nat)
    requires r.Valid() && r.N() <= 0x4000_0000
    ensures n <= r.Space() ==> r.t + n < 0x8000_0000
    ensures n <= r.Size() ==> r.h + n < 0x8000_0000
    ensures r.t + (r.N() - r.h) < 0x8000_0000
  {
  }
}
