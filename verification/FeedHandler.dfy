/** The two ends of the feed queue in place: write_to_buffer (src/solace.c) and callback
    (src/solace_k.c), each run from start to finish. How the two interleave is the subject of `Protocol`. */
module FeedHandlers {
  import opened Bytes
  import opened CircularBuffers
  import opened Framing

  /** Outcome of write_to_buffer: the frame is queued, dropped for its size, or its writer waits for space. */
  datatype Sent = Queued | Dropped | Waiting

  /** `head` and then what the rest of the loop yields. */
  ghost function Prepend(head: seq<Payload>, b: Batch): Batch {
    match b
    case Died => Died
    case Parsed(ps, end) => Parsed(head + ps, end)
  }

  lemma PrependTwice(a: seq<Payload>, b: seq<Payload>, rest: Batch)
    ensures Prepend(a, Prepend(b, rest)) == Prepend(a + b, rest)
  {
    if rest.Parsed? {
      ConcatAssociates(a, b, rest.payloads);
    }
  }

  lemma WholeFramesSurvive(buf: seq<byte>, bytes: seq<byte>)
    requires bytes <= buf
    ensures forall ps: seq<Payload> :: AllSendable(ps) && Wire(ps) == bytes ==>
              ParseFrom(buf, 0, |bytes|) == Parsed(ps, |bytes|)
  {
    forall ps: seq<Payload> | AllSendable(ps) && Wire(ps) == bytes
      ensures ParseFrom(buf, 0, |bytes|) == Parsed(ps, |bytes|)
    {
      ParseUndoesFraming(buf, 0, ps);
    }
  }

  method StoreBytes(dst: array<byte>, at: nat, s: seq<byte>)
    requires at + |s| <= dst.Length
    modifies dst
    ensures At(dst[..], at, s)
    ensures dst[..at] == old(dst[..at])
  {
    forall i | 0 <= i < |s| {
      dst[at + i] := s[i];
    }
    assert dst[..][at..at + |s|] == s;
  }

  class FeedHandler {
    const queue: CircularBuffer
    /** Staging area of write_to_buffer. */
    const msgbuff: array<byte>
    /** Staging area of callback. */
    const rbuf: array<byte>
    /** How many unread bytes the socket pair holds before a non-blocking write fails. */
    const socketCapacity: nat
    /** Unread bytes in the socket pair. */
    var dots: nat
    var msgProcessed: nat
    var callbackCounter: nat
    /** The argument of every call made to the q callback function. */
    var delivered: seq<seq<Payload>>

    ghost predicate Valid()
      reads this, queue, queue.d
    {
      && queue.Valid()
      && queue.n <= rbuf.Length
      && msgbuff != rbuf && msgbuff != queue.d && rbuf != queue.d
      && dots <= socketCapacity
    }

    /** setup_socket together with the two static buffers */
    constructor (n: nat, bufferLength: nat, socketCapacity: nat)
      requires 1 <= n <= bufferLength
      ensures Valid() && fresh(queue) && fresh(queue.d) && fresh(msgbuff) && fresh(rbuf)
      ensures queue.n == n && msgbuff.Length == rbuf.Length == bufferLength
      ensures this.socketCapacity == socketCapacity
      ensures queue.Contents() == [] && dots == 0 && delivered == [] && msgProcessed == callbackCounter == 0
    {
      queue := new CircularBuffer(n);
      msgbuff := new byte[bufferLength](_ => 0);
      rbuf := new byte[bufferLength](_ => 0);
      this.socketCapacity := socketCapacity;
      dots, msgProcessed, callbackCounter, delivered := 0, 0, 0, [];
    }

    /** write_to_buffer: the message is copied before its size is looked at, so it has to fit the staging area. */
    method WriteToBuffer(x: Payload) returns (sent: Sent)
      requires Valid() && LONG_BYTES + |x| <= msgbuff.Length < TWO_TO_THE_63
      modifies this`dots, msgbuff, queue`t, queue.d
      ensures Valid()
      ensures sent == if |x| >= MAX_MSG_SIZE then Dropped
                      else if LONG_BYTES + |x| + |old(queue.Contents())| < queue.n then Queued else Waiting
      ensures queue.Contents() == old(queue.Contents()) + if sent.Queued? then Frame(x) else []
      ensures dots == if sent.Queued? && old(dots) < socketCapacity then old(dots) + 1 else old(dots)
    {
      var msize: long := |x|;
      StoreBytes(msgbuff, 0, LongBytes(msize));
      StoreBytes(msgbuff, LONG_BYTES, x);
      assert msgbuff[..LONG_BYTES + msize] == msgbuff[..LONG_BYTES] + msgbuff[..][LONG_BYTES..LONG_BYTES + msize];
      assert msgbuff[..LONG_BYTES + msize] == Frame(x);
      if msize >= MAX_MSG_SIZE {
        sent := Dropped;
      } else {
        var rc := queue.CbWrite(msgbuff, msize + LONG_BYTES, true);
        if rc.Parked? {
          return Waiting;
        }
        // A full socket refuses the dot, and nobody looks at the result.
        if dots < socketCapacity {
          dots := dots + 1;
        }
        sent := Queued;
      }
    }

    /** The drain loop of callback: take `rbuf[..qsize]` apart, or die on the length check. */
    method DrainFrames(qsize: nat) returns (alive: bool, dmsgs: seq<Payload>)
      modifies this`msgProcessed
      ensures alive == ParseFrom(rbuf[..], 0, qsize).Parsed?
      ensures alive ==> dmsgs == ParseFrom(rbuf[..], 0, qsize).payloads
      ensures alive ==> msgProcessed == old(msgProcessed) + |dmsgs|
    {
      var offset := 0;
      dmsgs := [];
      ghost var whole := ParseFrom(rbuf[..], 0, qsize);
      while offset < qsize
        invariant whole == Prepend(dmsgs, ParseFrom(rbuf[..], offset, qsize))
        invariant msgProcessed == old(msgProcessed) + |dmsgs|
        decreases if offset < qsize then qsize - offset else 0
      {
        var round := ParseAt(rbuf[..], offset);
        if round.Dies? {
          return false, dmsgs;
        }
        PrependTwice(dmsgs, [round.payload], ParseFrom(rbuf[..], round.next, qsize));
        dmsgs := dmsgs + [round.payload];
        offset := round.next;
        msgProcessed := msgProcessed + 1;
      }
      alive := true;
    }

    /** callback: kdb+ runs it when a dot can be read. It survives exactly when every length it meets
        passes the assert, and whole frames always do. */
    method Callback() returns (alive: bool)
      requires Valid() && dots > 0
      modifies this, rbuf, queue`h
      ensures Valid() && queue.Contents() == []
      ensures dots == old(dots) - 1
      ensures rbuf[..] == old(queue.Contents()) + old(rbuf[..])[|old(queue.Contents())|..]
      ensures alive == ParseFrom(rbuf[..], 0, |old(queue.Contents())|).Parsed?
      ensures alive ==> callbackCounter == old(callbackCounter) + 1
      ensures alive && old(queue.Contents()) == [] ==> delivered == old(delivered) && msgProcessed == old(msgProcessed)
      ensures alive && old(queue.Contents()) != [] ==>
                var batch := ParseFrom(rbuf[..], 0, |old(queue.Contents())|).payloads;
                delivered == old(delivered) + [batch] && msgProcessed == old(msgProcessed) + |batch|
      ensures !alive ==> delivered == old(delivered) && callbackCounter == old(callbackCounter)
      ensures forall ps: seq<Payload> :: AllSendable(ps) && ps != [] && Wire(ps) == old(queue.Contents()) ==>
                alive && delivered == old(delivered) + [ps] && msgProcessed == old(msgProcessed) + |ps|
    {
      dots := dots - 1;
      var qsize := queue.CbSize();
      if qsize > 0 {
        ghost var bytes := queue.Contents();
        var rc := queue.CbRead(rbuf, qsize, false);
        assert bytes[..qsize] == bytes;
        WholeFramesSurvive(rbuf[..], bytes);
        var dmsgs;
        alive, dmsgs := DrainFrames(qsize);
        if !alive {
          return;
        }
        delivered := delivered + [dmsgs];
      }
      callbackCounter := callbackCounter + 1;
      alive := true;
    }
  }

  // ---------------------------------------------------------------------------------------------
  // From one end to the other.

  lemma WireLast(xs: seq<Payload>)
    requires AllSendable(xs) && xs != []
    ensures AllSendable(xs[..|xs| - 1])
    ensures Wire(xs) == Wire(xs[..|xs| - 1]) + Frame(xs[|xs| - 1])
  {
    WireAppend(xs[..|xs| - 1], xs[|xs| - 1]);
    assert xs == xs[..|xs| - 1] + [xs[|xs| - 1]];
  }

  /** write_to_buffer for one message after the other, into a queue that starts empty and has room. */
  method SendAll(handler: FeedHandler, xs: seq<Payload>)
    requires handler.Valid() && handler.queue.Contents() == [] && handler.dots == 0
    requires AllSendable(xs) && |Wire(xs)| < handler.queue.n && MAX_FRAME <= handler.msgbuff.Length < TWO_TO_THE_63
    modifies handler`dots, handler.msgbuff, handler.queue`t, handler.queue.d
    ensures handler.Valid() && handler.queue.Contents() == Wire(xs)
    ensures handler.dots == if |xs| <= handler.socketCapacity then |xs| else handler.socketCapacity
    decreases |xs|
  {
    if xs == [] {
      return;
    }
    WireLast(xs);
    SendAll(handler, xs[..|xs| - 1]);
    var sent := handler.WriteToBuffer(xs[|xs| - 1]);
    assert sent.Queued?;
  }

  /** End to end: what is written to a fresh queue that has room reaches q with the first callback, as one
      batch, in order and unchanged, and the counters say so. */
  method WriteThenCallback(n: nat, bufferLength: nat, socketCapacity: nat, xs: seq<Payload>)
    returns (handler: FeedHandler, alive: bool)
    requires MAX_FRAME <= n <= bufferLength < TWO_TO_THE_63 && socketCapacity >= 1
    requires xs != [] && AllSendable(xs) && |Wire(xs)| < n
    ensures fresh(handler) && handler.Valid() && alive
    ensures handler.delivered == [xs] && handler.queue.Contents() == []
    ensures handler.msgProcessed == |xs| && handler.callbackCounter == 1
    ensures handler.dots == (if |xs| <= socketCapacity then |xs| else socketCapacity) - 1
  {
    handler := new FeedHandler(n, bufferLength, socketCapacity);
    SendAll(handler, xs);
    alive := handler.Callback();
  }
}
