/** Frames: an 8-byte length followed by the payload, as write_to_buffer builds them and as the drain
    loop of `callback` takes them apart again. */
module Framing {
  import opened Bytes

  type Payload = seq<byte>

  const MAX_MSG_SIZE: nat := 500
  /** The longest frame: 8 bytes of length and 499 of payload. */
  const MAX_FRAME: nat := 507

  /** What write_to_buffer lets through; serialisation never yields an empty payload. */
  predicate Sendable(p: Payload) {
    0 < |p| < MAX_MSG_SIZE
  }

  predicate AllSendable(ps: seq<Payload>) {
    forall i :: 0 <= i < |ps| ==> Sendable(ps[i])
  }

  function Frame(p: Payload): (f: seq<byte>)
    requires |p| < TWO_TO_THE_63
    ensures |f| == LONG_BYTES + |p|
  {
    LongBytes(|p|) + p
  }

  /** The bytes of a list of frames laid end to end. */
  function Wire(ps: seq<Payload>): (w: seq<byte>)
    requires AllSendable(ps)
  {
    if ps == [] then [] else Frame(ps[0]) + Wire(ps[1..])
  }

  lemma {:induction false} WireConcat(ps: seq<Payload>, qs: seq<Payload>)
    requires AllSendable(ps) && AllSendable(qs)
    ensures AllSendable(ps + qs)
    ensures Wire(ps + qs) == Wire(ps) + Wire(qs)
  {
    if ps == [] {
      assert ps + qs == qs;
    } else {
      var tail := ps[1..] + qs;
      WireConcat(ps[1..], qs);
      assert (ps + qs)[1..] == tail && (ps + qs)[0] == ps[0];
      assert Wire(ps + qs) == Frame(ps[0]) + Wire(tail);
      ConcatAssociates(Frame(ps[0]), Wire(ps[1..]), Wire(qs));
    }
  }

  lemma WireAppend(ps: seq<Payload>, p: Payload)
    requires AllSendable(ps) && Sendable(p)
    ensures AllSendable(ps + [p])
    ensures Wire(ps + [p]) == Wire(ps) + Frame(p)
  {
    WireConcat(ps, [p]);
    assert Wire([p]) == Frame(p) + Wire([]) == Frame(p);
  }

  lemma WireSplit(ps: seq<Payload>, k: nat)
    requires AllSendable(ps) && k <= |ps|
    ensures AllSendable(ps[..k]) && AllSendable(ps[k..])
    ensures Wire(ps) == Wire(ps[..k]) + Wire(ps[k..])
  {
    var front, back := ps[..k], ps[k..];
    WireConcat(front, back);
    assert front + back == ps;
  }

  // ---------------------------------------------------------------------------------------------
  // One round of the drain loop, and the whole loop.

  /** A round of the loop yields a payload and the next offset, or dies: the assert on the length
      fires, or a copy would leave the buffer. */
  datatype Round = Got(payload: Payload, next: nat) | Dies

  function ParseAt(buf: seq<byte>, offset: nat): (r: Round)
    ensures r.Got? ==> Sendable(r.payload) && r.next == offset + LONG_BYTES + |r.payload| <= |buf|
  {
    if offset + LONG_BYTES > |buf| then Dies else
      var msize := LongOf(buf[offset..offset + LONG_BYTES]);
      if !(0 < msize < MAX_MSG_SIZE) || offset + LONG_BYTES + msize > |buf| then Dies
      else Got(buf[offset + LONG_BYTES..offset + LONG_BYTES + msize], offset + LONG_BYTES + msize)
  }

  datatype Batch = Parsed(payloads: seq<Payload>, offset: nat) | Died

  /** The loop `while (offset < qsize)`. */
  function ParseFrom(buf: seq<byte>, offset: nat, qsize: nat): Batch
    decreases qsize - offset
  {
    if offset >= qsize then Parsed([], offset) else
      match ParseAt(buf, offset)
      case Dies => Died
      case Got(p, next) =>
        match ParseFrom(buf, next, qsize)
        case Died => Died
        case Parsed(ps, end) => Parsed([p] + ps, end)
  }

  /** A frame that lies at `offset` is parsed to exactly its payload. */
  lemma ParseFrame(buf: seq<byte>, offset: nat, p: Payload)
    requires Sendable(p) && At(buf, offset, Frame(p))
    ensures ParseAt(buf, offset) == Got(p, offset + |Frame(p)|)
  {
    LongRoundTrip(|p|);
    var f := buf[offset..offset + |Frame(p)|];
    assert buf[offset..offset + LONG_BYTES] == f[..LONG_BYTES] == LongBytes(|p|);
    assert buf[offset + LONG_BYTES..offset + LONG_BYTES + |p|] == f[LONG_BYTES..] == p;
  }

  /** The round yields a payload if and only if the frame of it lies at `offset`, so it dies exactly when
      no frame does. */
  lemma ParseIff(buf: seq<byte>, offset: nat, p: Payload)
    ensures ParseAt(buf, offset) == Got(p, offset + LONG_BYTES + |p|)
       <==> Sendable(p) && At(buf, offset, Frame(p))
  {
    if Sendable(p) && At(buf, offset, Frame(p)) {
      ParseFrame(buf, offset, p);
    }
    if ParseAt(buf, offset) == Got(p, offset + LONG_BYTES + |p|) {
      var head := buf[offset..offset + LONG_BYTES];
      BytesRoundTrip(head);
      assert |p| == LongOf(head);
      assert buf[offset..offset + LONG_BYTES + |p|] == head + buf[offset + LONG_BYTES..offset + LONG_BYTES + |p|];
    }
  }

  lemma AtHeadAndTail(buf: seq<byte>, offset: nat, p: Payload, rest: seq<byte>)
    requires Sendable(p) && At(buf, offset, Frame(p) + rest)
    ensures At(buf, offset, Frame(p))
    ensures At(buf, offset + |Frame(p)|, rest)
  {
    var all := Frame(p) + rest;
    assert buf[offset..offset + |Frame(p)|] == buf[offset..offset + |all|][..|Frame(p)|];
    assert buf[offset + |Frame(p)|..offset + |all|] == buf[offset..offset + |all|][|Frame(p)|..];
  }

  /** Parsing undoes framing: for any list of frames, wherever it lies in the buffer and whatever
      stale bytes surround it, the loop returns the list, stops exactly at its end and never dies. */
  lemma {:induction false} ParseUndoesFraming(buf: seq<byte>, offset: nat, ps: seq<Payload>)
    requires AllSendable(ps) && At(buf, offset, Wire(ps))
    ensures ParseFrom(buf, offset, offset + |Wire(ps)|) == Parsed(ps, offset + |Wire(ps)|)
    decreases |ps|
  {
    if ps != [] {
      AtHeadAndTail(buf, offset, ps[0], Wire(ps[1..]));
      ParseFrame(buf, offset, ps[0]);
      ParseUndoesFraming(buf, offset + |Frame(ps[0])|, ps[1..]);
      assert [ps[0]] + ps[1..] == ps;
    }
  }

  lemma AtJoin(buf: seq<byte>, offset: nat, a: seq<byte>, b: seq<byte>)
    requires At(buf, offset, a) && At(buf, offset + |a|, b)
    ensures At(buf, offset, a + b)
  {
    assert buf[offset..offset + |a + b|] == buf[offset..offset + |a|] + buf[offset + |a|..offset + |a| + |b|];
  }

  /** All frames but the last start before `qsize`, and the last ends there or beyond. */
  predicate Covers(ps: seq<Payload>, qsize: int)
    requires AllSendable(ps)
  {
    if ps == [] then qsize <= 0 else qsize > 0 && Covers(ps[1..], qsize - |Frame(ps[0])|)
  }

  ghost predicate Yields(buf: seq<byte>, offset: nat, qsize: nat, ps: seq<Payload>) {
    ParseFrom(buf, offset, qsize).Parsed? && ParseFrom(buf, offset, qsize).payloads == ps
  }

  lemma {:induction false} YieldsFrames(buf: seq<byte>, offset: nat, qsize: nat, ps: seq<Payload>)
    requires offset <= |buf| && Yields(buf, offset, qsize, ps)
    ensures AllSendable(ps) && At(buf, offset, Wire(ps)) && Covers(ps, qsize - offset)
    decreases |ps|
  {
    if offset < qsize {
      var p := ps[0];
      var next := offset + LONG_BYTES + |p|;
      assert ParseAt(buf, offset) == Got(p, next);
      ParseIff(buf, offset, p);
      assert Yields(buf, next, qsize, ps[1..]);
      YieldsFrames(buf, next, qsize, ps[1..]);
      AtJoin(buf, offset, Frame(p), Wire(ps[1..]));
    }
  }

  lemma {:induction false} FramesAreYielded(buf: seq<byte>, offset: nat, qsize: nat, ps: seq<Payload>)
    requires AllSendable(ps) && At(buf, offset, Wire(ps)) && Covers(ps, qsize - offset)
    ensures Yields(buf, offset, qsize, ps)
    decreases |ps|
  {
    if ps != [] {
      AtHeadAndTail(buf, offset, ps[0], Wire(ps[1..]));
      ParseFrame(buf, offset, ps[0]);
      FramesAreYielded(buf, offset + |Frame(ps[0])|, qsize, ps[1..]);
    }
  }

  /** What the loop makes of any bytes, stale ones included: it yields `ps` if and only if their frames lie
      there end to end and are just as many as it takes to reach `qsize`. */
  lemma ParseFromIff(buf: seq<byte>, offset: nat, qsize: nat, ps: seq<Payload>)
    requires offset <= |buf|
    ensures Yields(buf, offset, qsize, ps)
       <==> AllSendable(ps) && At(buf, offset, Wire(ps)) && Covers(ps, qsize - offset)
  {
    if Yields(buf, offset, qsize, ps) {
      YieldsFrames(buf, offset, qsize, ps);
    } else if AllSendable(ps) && At(buf, offset, Wire(ps)) && Covers(ps, qsize - offset) {
      FramesAreYielded(buf, offset, qsize, ps);
    }
  }

  /** `b` is a list of whole frames. */
  ghost predicate Whole(b: seq<byte>) {
    exists ps: seq<Payload> :: AllSendable(ps) && Wire(ps) == b
  }

  /** Two frame lists with the same bytes are the same list. */
  lemma WireInjective(ps: seq<Payload>, qs: seq<Payload>)
    requires AllSendable(ps) && AllSendable(qs) && Wire(ps) == Wire(qs)
    ensures ps == qs
  {
    ParseUndoesFraming(Wire(ps), 0, ps);
    ParseUndoesFraming(Wire(qs), 0, qs);
  }

  /** Frames form a prefix code: whole frames followed by a non-empty piece of another frame are
      never the bytes of any list of frames. */
  lemma CutFrameIsNotWhole(ps: seq<Payload>, p: Payload, cut: nat)
    requires AllSendable(ps) && Sendable(p)
    requires 0 < cut < |Frame(p)|
    ensures !Whole(Wire(ps) + Frame(p)[..cut])
  {
    var b := Wire(ps) + Frame(p)[..cut];
    forall qs: seq<Payload> | AllSendable(qs) && Wire(qs) == b
      ensures false
    {
      CutFrame(ps, p, cut, qs);
    }
  }

  /** Two frames that agree on their first 8 bytes have the same length. */
  lemma HeaderFixesLength(b: seq<byte>, p: Payload, q: Payload)
    requires Sendable(p) && Sendable(q) && |b| >= LONG_BYTES
    requires b[..LONG_BYTES] == Frame(p)[..LONG_BYTES] == Frame(q)[..LONG_BYTES]
    ensures |p| == |q|
  {
    assert Frame(p)[..LONG_BYTES] == LongBytes(|p|);
    assert Frame(q)[..LONG_BYTES] == LongBytes(|q|);
    LongRoundTrip(|p|);
    LongRoundTrip(|q|);
  }

  /** A cut frame on its own does not start with a whole one. */
  lemma CutFrameHoldsNoFrame(p: Payload, cut: nat, q: Payload, rest: seq<byte>)
    requires Sendable(p) && Sendable(q)
    requires cut < |Frame(p)|
    ensures Frame(p)[..cut] != Frame(q) + rest
  {
    var b := Frame(p)[..cut];
    if b == Frame(q) + rest {
      assert b[..LONG_BYTES] == Frame(q)[..LONG_BYTES];
      HeaderFixesLength(b, p, q);
    }
  }

  /** Lists that start with frames and agree as bytes start with the same frame. */
  lemma SameFirstFrame(p: Payload, q: Payload, x: seq<byte>, y: seq<byte>)
    requires Sendable(p) && Sendable(q) && Frame(p) + x == Frame(q) + y
    ensures p == q && x == y
  {
    var b := Frame(p) + x;
    AtHeadAndTail(b, 0, p, x);
    AtHeadAndTail(b, 0, q, y);
    ParseFrame(b, 0, p);
    ParseFrame(b, 0, q);
    assert x == b[|Frame(p)|..] == y;
  }

  lemma {:induction false} CutFrame(ps: seq<Payload>, p: Payload, cut: nat, qs: seq<Payload>)
    requires AllSendable(ps) && Sendable(p) && AllSendable(qs)
    requires 0 < cut < |Frame(p)|
    ensures Wire(qs) != Wire(ps) + Frame(p)[..cut]
    decreases |ps|
  {
    var piece := Frame(p)[..cut];
    if qs == [] {
      return;
    }
    if ps == [] {
      CutFrameHoldsNoFrame(p, cut, qs[0], Wire(qs[1..]));
      assert Wire(ps) + piece == piece;
      return;
    }
    if Wire(qs) == Wire(ps) + piece {
      var rest := Wire(ps[1..]);
      assert Wire(ps) + piece == Frame(ps[0]) + (rest + piece) by {
        ConcatAssociates(Frame(ps[0]), rest, piece);
      }
      SameFirstFrame(qs[0], ps[0], Wire(qs[1..]), rest + piece);
      CutFrame(ps[1..], p, cut, qs[1..]);
      assert false;
    }
  }
}
