/** What the protocol promises about whole messages, and exactly when it keeps the promise.

    The unlocked snapshot of callback can fall between the two stores to `t` of a write that wraps
    (src/cb.c:65 and src/cb.c:70). If the frame is split there, the snapshot counts a piece of it. As
    long as no snapshot falls into that window every drain takes whole messages; the first one that does
    takes bytes that are not a list of frames. */
module FrameInvariants {
  import opened Bytes
  import opened RingModel
  import opened Framing
  import opened Messages
  import opened Protocol
  import opened RawInvariants

  /** Bytes are in rbuf and not parsed yet. */
  predicate Draining(s: State) {
    s.cpc.UnlockRead? || s.cpc.Signal? || s.cpc.Parsing?
  }

  ghost predicate AllWhole(parts: seq<seq<byte>>) {
    forall i :: 0 <= i < |parts| ==> Whole(parts[i])
  }

  /** The drains so far took the first `taken` messages, each of them whole. */
  ghost predicate DrainsAreMessages(c: Codec, s: State)
    requires AllFit(c, s.accepted)
  {
    && s.taken <= |s.accepted|
    && Flat(s.drains) == WireOf(c, s.accepted[..s.taken])
    && AllWhole(s.drains)
    && (Claiming(s) ==>
          s.taken <= s.claimedUpTo <= |s.accepted| && s.claim == WireOf(c, s.accepted[s.taken..s.claimedUpTo]))
  }

  /** What is left to parse in rbuf are the messages drained and not yet parsed. */
  ghost predicate BufferIsMessages(c: Codec, s: State)
    requires AllFit(c, s.accepted) && s.taken <= |s.accepted|
  {
    && s.processed <= s.taken
    && (!Draining(s) ==> s.processed == s.taken)
    && (Draining(s) ==>
          && s.offset <= s.qsize <= |s.rbuf|
          && s.rbuf[s.offset..s.qsize] == WireOf(c, s.accepted[s.processed..s.taken]))
  }

  /** Delivered batches and the batch being built are the first `processed` messages, in order. */
  predicate DeliveredInOrder(s: State) {
    && s.processed <= |s.accepted|
    && Flat(s.delivered) + s.batch == s.accepted[..s.processed]
    && (BatchIsEmpty(s) ==> s.batch == [])
  }

  ghost predicate FramesKept(c: Codec, s: State) {
    && !s.crashed
    && AllFit(c, s.accepted)
    && DrainsAreMessages(c, s)
    && BufferIsMessages(c, s)
    && DeliveredInOrder(s)
  }

  // ---------------------------------------------------------------------------------------------
  // The producer.

  /** The producer never touches what belongs to the q main thread. */
  predicate ConsumerUntouched(s: State, r: State) {
    && r.cpc == s.cpc && r.qsize == s.qsize && r.rbuf == s.rbuf && r.offset == s.offset && r.batch == s.batch
    && r.processed == s.processed && r.callbacks == s.callbacks && r.delivered == s.delivered
    && r.taken == s.taken && r.claimedUpTo == s.claimedUpTo && r.claim == s.claim && r.drains == s.drains
    && r.emptySnapshots == s.emptySnapshots && r.torn == s.torn
  }

  lemma ProducerLeavesConsumer(cfg: Config, s: State)
    requires ProducerEnabled(cfg, s) && s.ring.Valid()
    ensures ConsumerUntouched(s, ProducerStep(cfg, s))
    ensures s.accepted <= ProducerStep(cfg, s).accepted
  {
  }

  /** Nothing the frame invariant says changes when messages are appended. */
  lemma AppendingKeepsFrames(c: Codec, s: State, more: seq<Msg>)
    requires FramesKept(c, s) && s.accepted <= more && AllFit(c, more)
    ensures FramesKept(c, s.(accepted := more))
  {
    assert more[..s.taken] == s.accepted[..s.taken];
    assert more[..s.processed] == s.accepted[..s.processed];
    assert more[s.processed..s.taken] == s.accepted[s.processed..s.taken];
    if Claiming(s) {
      assert more[s.taken..s.claimedUpTo] == s.accepted[s.taken..s.claimedUpTo];
    }
  }

  /** The fields the frame invariant looks at. */
  predicate SameFrames(s: State, r: State) {
    && r.crashed == s.crashed && r.accepted == s.accepted && r.taken == s.taken && r.drains == s.drains
    && r.claimedUpTo == s.claimedUpTo && r.claim == s.claim && r.processed == s.processed
    && r.delivered == s.delivered && r.batch == s.batch
    && r.offset == s.offset && r.qsize == s.qsize && r.rbuf == s.rbuf
  }

  predicate BatchIsEmpty(s: State) {
    s.cpc.Idle? || s.cpc.Snapshot? || Claiming(s) || s.cpc.CountBatch?
  }

  lemma FramesDependOn(c: Codec, s: State, r: State)
    requires FramesKept(c, s) && SameFrames(s, r)
    requires Draining(r) == Draining(s) && Claiming(r) == Claiming(s)
    requires BatchIsEmpty(r) ==> BatchIsEmpty(s)
    ensures FramesKept(c, r)
  {
  }

  lemma ProducerKeepsFrames(cfg: Config, s: State)
    requires Shape(cfg, s) && ProducerEnabled(cfg, s) && FramesKept(cfg.codec, s)
    ensures FramesKept(cfg.codec, ProducerStep(cfg, s))
  {
    var r := ProducerStep(cfg, s);
    ProducerLeavesConsumer(cfg, s);
    ProducerAccepts(cfg, s);
    ProducerShows(cfg, s);
    AppendingKeepsFrames(cfg.codec, s, r.accepted);
    FramesDependOn(cfg.codec, s.(accepted := r.accepted), r);
  }

  // ---------------------------------------------------------------------------------------------
  // The consumer.

  /** What the ring holds, in messages. */
  lemma RingHoldsMessages(cfg: Config, s: State)
    requires s.ring.Valid() && BytesKept(cfg.codec, s) && DrainsAreMessages(cfg.codec, s)
    ensures s.ring.Contents() == WireOf(cfg.codec, s.accepted[s.taken..]) + Partial(s)
  {
    var c := cfg.codec;
    WireOfSplit(c, s.accepted, s.taken);
    var front, back := WireOf(c, s.accepted[..s.taken]), WireOf(c, s.accepted[s.taken..]);
    assert front + s.ring.Contents() == front + (back + Partial(s)) by {
      ConcatAssociates(front, back, Partial(s));
    }
    CancelFront(front, s.ring.Contents(), back + Partial(s));
  }

  lemma CancelFront<T>(a: seq<T>, b: seq<T>, c: seq<T>)
    requires a + b == a + c
    ensures b == c
  {
    assert b == (a + b)[|a|..];
    assert c == (a + c)[|a|..];
  }

  lemma WireOfWhole(c: Codec, ms: seq<Msg>)
    requires AllFit(c, ms)
    ensures Whole(WireOf(c, ms))
  {
    assert AllSendable(Payloads(c, ms));
  }

  /** A snapshot outside the window counts whole messages and nothing else. */
  lemma SnapshotKeepsFrames(cfg: Config, s: State)
    requires s.ring.Valid() && BytesKept(cfg.codec, s) && FramesKept(cfg.codec, s)
    requires s.cpc.Snapshot? && !TornWindow(s)
    ensures FramesKept(cfg.codec, TakeSnapshot(s))
  {
    RingHoldsMessages(cfg, s);
    assert s.accepted[s.taken..|s.accepted|] == s.accepted[s.taken..];
  }

  /** The bytes of three stretches of messages, two of them put together. */
  lemma WireOfJoin(c: Codec, ms: seq<Msg>, i: nat, j: nat)
    requires AllFit(c, ms) && i <= j <= |ms|
    ensures AllFit(c, ms[..i]) && AllFit(c, ms[i..j]) && AllFit(c, ms[..j])
    ensures WireOf(c, ms[..j]) == WireOf(c, ms[..i]) + WireOf(c, ms[i..j])
  {
    WireOfSplit(c, ms[..j], i);
    assert ms[..j][..i] == ms[..i];
    assert ms[..j][i..] == ms[i..j];
  }

  lemma ReadKeepsFrames(cfg: Config, s: State)
    requires Shape(cfg, s) && ClaimHolds(s) && FramesKept(cfg.codec, s)
    requires s.cpc.Reading?
    ensures FramesKept(cfg.codec, ReadRing(s))
  {
    var c, r := cfg.codec, ReadRing(s);
    TakeRemovesPrefix(s.ring, s.qsize);
    WireOfJoin(c, s.accepted, s.taken, s.claimedUpTo);
    FlatAppend(s.drains, s.claim);
    WireOfWhole(c, s.accepted[s.taken..s.claimedUpTo]);
    assert r.rbuf[0..s.qsize] == s.claim;
  }

  /** The bytes of a non-empty list of messages start with the frame of the first one. */
  lemma WireOfFirst(c: Codec, ms: seq<Msg>)
    requires AllFit(c, ms) && ms != []
    ensures AllFit(c, ms[1..])
    ensures WireOf(c, ms) == Frame(c.serialise(ms[0])) + WireOf(c, ms[1..])
  {
    assert Payloads(c, ms)[1..] == Payloads(c, ms[1..]);
  }

  lemma BufferStartsWithMessage(c: Codec, s: State)
    requires FramesKept(c, s) && Draining(s) && s.offset < s.qsize
    ensures s.processed < s.taken
    ensures var p, rest := c.serialise(s.accepted[s.processed]), s.accepted[s.processed + 1..s.taken];
            && Sendable(p) && AllFit(c, rest)
            && s.rbuf[s.offset..s.qsize] == Frame(p) + WireOf(c, rest)
  {
    var ms := s.accepted[s.processed..s.taken];
    if ms == [] {
      assert false;
    }
    WireOfFirst(c, ms);
    assert ms[1..] == s.accepted[s.processed + 1..s.taken];
  }

  lemma SplitWindow(buf: seq<byte>, i: nat, j: nat, a: seq<byte>, b: seq<byte>)
    requires i <= j <= |buf| && buf[i..j] == a + b
    ensures At(buf, i, a) && i + |a| <= j && buf[i + |a|..j] == b
  {
    assert buf[i..i + |a|] == buf[i..j][..|a|];
    assert buf[i + |a|..j] == buf[i..j][|a|..];
  }

  /** One round of the drain loop moves the next message from rbuf to the batch. */
  lemma ParseMovesMessage(cfg: Config, s: State)
    requires cfg.Good() && FramesKept(cfg.codec, s) && s.cpc.Parsing? && s.offset < s.qsize
    ensures s.processed < s.taken
    ensures var c, m, r := cfg.codec, s.accepted[s.processed], ParseRound(cfg, s);
            && r == s.(batch := s.batch + [m], offset := r.offset, processed := s.processed + 1)
            && r.offset <= r.qsize
            && r.rbuf[r.offset..r.qsize] == WireOf(c, s.accepted[s.processed + 1..s.taken])
  {
    var c := cfg.codec;
    BufferStartsWithMessage(c, s);
    var p := c.serialise(s.accepted[s.processed]);
    SplitWindow(s.rbuf, s.offset, s.qsize, Frame(p), WireOf(c, s.accepted[s.processed + 1..s.taken]));
    ParseFrame(s.rbuf, s.offset, p);
  }

  lemma ParseKeepsFrames(cfg: Config, s: State)
    requires cfg.Good() && FramesKept(cfg.codec, s) && s.cpc.Parsing?
    ensures FramesKept(cfg.codec, ParseRound(cfg, s))
  {
    if s.offset >= s.qsize {
      BufferExhausted(cfg.codec, s);
    } else {
      ParseMovesMessage(cfg, s);
      var m := s.accepted[s.processed];
      assert s.accepted[..s.processed + 1] == s.accepted[..s.processed] + [m];
      ConcatAssociates(Flat(s.delivered), s.batch, [m]);
    }
  }

  lemma BufferExhausted(c: Codec, s: State)
    requires FramesKept(c, s) && Draining(s) && s.offset >= s.qsize
    ensures s.processed == s.taken
  {
  }

  lemma DeliverKeepsFrames(cfg: Config, s: State)
    requires FramesKept(cfg.codec, s) && s.ring.Valid() && s.cpc.Deliver?
    ensures FramesKept(cfg.codec, ConsumerStep(cfg, s))
  {
    FlatAppend(s.delivered, s.batch);
  }

  /** The steps that only move the consumer, a dot, the lock or a counter. */
  lemma QuietStepKeepsFrames(cfg: Config, s: State)
    requires FramesKept(cfg.codec, s) && s.ring.Valid() && ConsumerEnabled(s)
    requires s.cpc.Idle? || s.cpc.WantRead? || s.cpc.UnlockRead? || s.cpc.Signal? || s.cpc.CountBatch?
    ensures FramesKept(cfg.codec, ConsumerStep(cfg, s))
  {
    FramesDependOn(cfg.codec, s, ConsumerStep(cfg, s));
  }

  lemma ConsumerKeepsFrames(cfg: Config, s: State)
    requires cfg.Good() && Raw(cfg, s) && ConsumerEnabled(s) && FramesKept(cfg.codec, s)
    requires s.cpc.Snapshot? ==> !TornWindow(s)
    ensures FramesKept(cfg.codec, ConsumerStep(cfg, s))
  {
    match s.cpc
    case Snapshot => SnapshotKeepsFrames(cfg, s);
    case Reading => ReadKeepsFrames(cfg, s);
    case Parsing => ParseKeepsFrames(cfg, s);
    case Deliver => DeliverKeepsFrames(cfg, s);
    case _ => QuietStepKeepsFrames(cfg, s);
  }

  // ---------------------------------------------------------------------------------------------
  // Torn snapshots.

  /** Some bytes that were drained, or are about to be, are not a list of whole frames. */
  ghost predicate SplitDrain(s: State) {
    !AllWhole(s.drains) || (Claiming(s) && !Whole(s.claim))
  }

  /** A snapshot in the window counts a piece of a frame. */
  lemma TornSnapshotSplits(cfg: Config, s: State)
    requires Raw(cfg, s) && FramesKept(cfg.codec, s) && s.cpc.Snapshot? && TornWindow(s)
    ensures s.ring.Size() > 0 && !Whole(s.ring.Contents())
  {
    RingHoldsMessages(cfg, s);
    var ms := s.accepted[s.taken..];
    assert AllSendable(Payloads(cfg.codec, ms));
    CutFrameIsNotWhole(Payloads(cfg.codec, ms), cfg.codec.serialise(s.ppc.m), s.ppc.e);
  }

  /** The exact condition, at the snapshot itself: it counts whole frames unless the producer stands
      between the two stores of a split frame. */
  lemma SnapshotWholeIff(cfg: Config, s: State)
    requires Raw(cfg, s) && FramesKept(cfg.codec, s) && s.cpc.Snapshot?
    ensures Whole(s.ring.Contents()) <==> !TornWindow(s)
  {
    if TornWindow(s) {
      TornSnapshotSplits(cfg, s);
    } else {
      RingHoldsMessages(cfg, s);
      WireOfWhole(cfg.codec, s.accepted[s.taken..]);
      assert s.ring.Contents() == WireOf(cfg.codec, s.accepted[s.taken..]);
    }
  }

  /** Until the first torn snapshot whole messages travel; after it a split drain stays on record. */
  ghost predicate Framed(cfg: Config, s: State) {
    if s.torn then SplitDrain(s) else FramesKept(cfg.codec, s)
  }

  /** Whatever the consumer does, its drains only grow, and by the bytes it claimed. */
  lemma ConsumerRecordsClaim(cfg: Config, s: State)
    requires Raw(cfg, s) && ConsumerEnabled(s)
    ensures var r := ConsumerStep(cfg, s);
            if s.cpc.Reading? then r.drains == s.drains + [s.claim]
            else r.drains == s.drains && (Claiming(s) ==> Claiming(r) && r.claim == s.claim)
    ensures s.torn ==> ConsumerStep(cfg, s).torn
    ensures !s.cpc.Snapshot? ==> ConsumerStep(cfg, s).torn == s.torn
  {
    if s.cpc.Reading? {
      TakeRemovesPrefix(s.ring, s.qsize);
    }
  }

  lemma SplitStaysSplit(cfg: Config, s: State, who: Who)
    requires Raw(cfg, s) && Enabled(cfg, s, who) && SplitDrain(s)
    ensures SplitDrain(Step(cfg, s, who))
    ensures s.torn ==> Step(cfg, s, who).torn
  {
    match who
    case Producer => ProducerLeavesConsumer(cfg, s);
    case SpuriousWakeUp =>
    case Consumer =>
      ConsumerRecordsClaim(cfg, s);
      SplitOnRecord(s.drains, s.claim);
  }

  lemma SplitOnRecord(drains: seq<seq<byte>>, claim: seq<byte>)
    ensures !AllWhole(drains) || !Whole(claim) ==> !AllWhole(drains + [claim])
  {
    if AllWhole(drains + [claim]) {
      assert Whole((drains + [claim])[|drains|]);
      forall i | 0 <= i < |drains|
        ensures Whole(drains[i])
      {
        assert (drains + [claim])[i] == drains[i];
      }
    }
  }

  lemma ConsumerKeepsFramed(cfg: Config, s: State)
    requires cfg.Good() && Raw(cfg, s) && FramesKept(cfg.codec, s) && !s.torn && ConsumerEnabled(s)
    ensures Framed(cfg, ConsumerStep(cfg, s))
  {
    if s.cpc.Snapshot? && TornWindow(s) {
      TornSnapshotSplits(cfg, s);
    } else {
      ConsumerKeepsFrames(cfg, s);
      ConsumerRecordsClaim(cfg, s);
      assert !ConsumerStep(cfg, s).torn;
    }
  }

  lemma StepKeepsFramed(cfg: Config, s: State, who: Who)
    requires cfg.Good() && Raw(cfg, s) && Framed(cfg, s) && Enabled(cfg, s, who)
    ensures Framed(cfg, Step(cfg, s, who))
  {
    if s.torn {
      SplitStaysSplit(cfg, s, who);
      return;
    }
    match who
    case Producer =>
      ProducerKeepsFrames(cfg, s);
      ProducerLeavesConsumer(cfg, s);
    case SpuriousWakeUp => FramesDependOn(cfg.codec, s, Step(cfg, s, who));
    case Consumer => ConsumerKeepsFramed(cfg, s);
  }

  lemma StartIsFramed(cfg: Config, spurious: nat)
    requires cfg.Good()
    ensures Framed(cfg, Start(cfg, spurious))
  {
    assert WireOf(cfg.codec, []) == [];
  }

  lemma {:induction false} RunKeepsFramed(cfg: Config, s: State, schedule: seq<Who>)
    requires cfg.Good() && Raw(cfg, s) && Framed(cfg, s) && Executable(cfg, s, schedule)
    ensures Framed(cfg, Run(cfg, s, schedule))
    decreases |schedule|
  {
    if schedule != [] {
      StepKeepsRaw(cfg, s, schedule[0]);
      StepKeepsFramed(cfg, s, schedule[0]);
      RunKeepsFramed(cfg, Step(cfg, s, schedule[0]), schedule[1..]);
    }
  }
}
