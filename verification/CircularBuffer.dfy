/** src/cb.c in place: the array and the two indices are updated as the C code does, and every method
    is tied to the value model of `RingModel`. Locking and the actual waiting are in `Protocol`; here a
    call that would wait on a condition variable reports that it is parked. */
module CircularBuffers {
  import opened Bytes
  import opened RingModel

  /** 0, -1, or left waiting on the condition variable. */
  datatype Outcome = Ok | Refused | Parked

  method Memcpy(dst: array<byte>, at: nat, src: array<byte>, from: nat, len: nat)
    requires dst != src
    requires at + len <= dst.Length && from + len <= src.Length
    modifies dst
    ensures dst[..] == Overwrite(old(dst[..]), at, src[from..from + len])
  {
    forall i | 0 <= i < len {
      dst[at + i] := src[from + i];
    }
  }

  class CircularBuffer {
    const n: nat
    const d: array<byte>
    var h: nat
    var t: nat

    ghost predicate Valid()
      reads this, d
    {
      d.Length == n && Model().Valid()
    }

    ghost function Model(): (r: Ring)
      reads this, d
    {
      Ring(d[..], h, t)
    }

    ghost function Contents(): seq<byte>
      requires Valid()
      reads this, d
    {
      Model().Contents()
    }

    /** cb_init */
    constructor (n: nat)
      requires n >= 1
      ensures Valid() && fresh(d) && this.n == n && Contents() == []
    {
      this.n := n;
      d := new byte[n](_ => 0);
      h, t := 0, 0;
    }

    /** cb_size */
    method CbSize() returns (size: nat)
      requires Valid()
      ensures size == |Contents()|
    {
      size := if h <= t then t - h else t + (n - h);
    }

    /** cb_space */
    method CbSpace() returns (space: nat)
      requires Valid()
      ensures space + |Contents()| == n - 1
    {
      var size := CbSize();
      space := n - (1 + size);
    }

    /** The copies and stores of cb_write, past its guard. */
    method CopyIn(src: array<byte>, len: nat)
      requires Valid() && src != d && len <= src.Length && len + |Contents()| < n
      modifies this`t, d
      ensures Model() == old(Model()).Put(src[..len])
    {
      ghost var before, data := Model(), src[..len];
      var from, rest := 0, len;
      if n <= t + rest {
        var e := n - t;
        assert src[0..e] == data[..e];
        Memcpy(d, t, src, from, e);
        from := from + e;
        rest := rest - e;
        t := 0;
        assert Model() == before.StoreToEnd(data);
      }
      assert src[from..from + rest] == data[from..];
      Memcpy(d, t, src, from, rest);
      t := t + rest;
      assert data[0..] == data;
    }

    /** cb_write */
    method CbWrite(src: array<byte>, len: nat, w: bool) returns (rc: Outcome)
      requires Valid() && src != d && len <= src.Length
      modifies this`t, d
      ensures Valid()
      ensures rc == if len + |old(Contents())| < n then Ok else if w then Parked else Refused
      ensures Contents() == if rc.Ok? then old(Contents()) + src[..len] else old(Contents())
      ensures rc.Ok? ==> Model() == old(Model()).Put(src[..len])
      ensures !rc.Ok? ==> Model() == old(Model())
    {
      var space := CbSpace();
      if len > space {
        return if w then Parked else Refused;
      }
      PutAppends(Model(), src[..len]);
      CopyIn(src, len);
      rc := Ok;
    }

    /** The copies and stores of cb_read, past its guard. */
    method CopyOut(dst: array<byte>, len: nat)
      requires Valid() && dst != d && len <= dst.Length && len <= |Contents()|
      modifies this`h, dst
      ensures Model() == old(Model()).AfterTake(len)
      ensures dst[..] == Overwrite(old(dst[..]), 0, old(Model()).Taken(len))
    {
      ghost var taken, was := Model().Taken(len), dst[..];
      var at, rest := 0, len;
      if n <= h + rest {
        var e := n - h;
        Memcpy(dst, at, d, h, e);
        at := at + e;
        rest := rest - e;
        h := 0;
        assert dst[..] == Overwrite(was, 0, taken[..at]);
      }
      assert d[h..h + rest] == taken[at..];
      Memcpy(dst, at, d, h, rest);
      h := h + rest;
      OverwriteInTwo(was, taken, at);
    }

    /** cb_read */
    method CbRead(dst: array<byte>, len: nat, w: bool) returns (rc: Outcome)
      requires Valid() && dst != d && len <= dst.Length
      modifies this`h, dst
      ensures Valid()
      ensures rc == if len <= |old(Contents())| then Ok else if w then Parked else Refused
      ensures rc.Ok? ==> Contents() == old(Contents())[len..] && Model() == old(Model()).AfterTake(len)
      ensures rc.Ok? ==> dst[..] == old(Contents())[..len] + old(dst[..])[len..]
      ensures !rc.Ok? ==> Model() == old(Model()) && dst[..] == old(dst[..])
    {
      var size := CbSize();
      if len > size {
        return if w then Parked else Refused;
      }
      TakeRemovesPrefix(Model(), len);
      CopyOut(dst, len);
      rc := Ok;
    }
  }

  /** Two adjacent copies amount to one. */
  lemma OverwriteInTwo(d: seq<byte>, s: seq<byte>, k: nat)
    requires k <= |s| <= |d|
    ensures Overwrite(Overwrite(d, 0, s[..k]), k, s[k..]) == Overwrite(d, 0, s)
  {
  }
}
