/** The promises of the feed queue, over every schedule from the start of a session. */
module Delivery {
  import opened Bytes
  import opened RingModel
  import opened Framing
  import opened Messages
  import opened Protocol
  import opened RawInvariants
  import opened FrameInvariants

  /** Both invariants hold in every state a schedule can reach. */
  lemma Reached(cfg: Config, spurious: nat, schedule: seq<Who>)
    requires cfg.Good() && Executable(cfg, Start(cfg, spurious), schedule)
    ensures var s := Run(cfg, Start(cfg, spurious), schedule); Raw(cfg, s) && Framed(cfg, s)
  {
    StartIsRaw(cfg, spurious);
    StartIsFramed(cfg, spurious);
    RunKeepsRaw(cfg, Start(cfg, spurious), schedule);
    RunKeepsFramed(cfg, Start(cfg, spurious), schedule);
  }

  // ---------------------------------------------------------------------------------------------
  // Nothing is lost.

  /** For every schedule, torn or not: the bytes drained and the bytes in the ring are the frames accepted,
      in order, plus what already shows of the frame being written. */
  lemma BytesConserved(cfg: Config, spurious: nat, schedule: seq<Who>)
    requires cfg.Good() && Executable(cfg, Start(cfg, spurious), schedule)
    ensures var s := Run(cfg, Start(cfg, spurious), schedule);
            && AllFit(cfg.codec, s.accepted)
            && Flat(s.drains) + s.ring.Contents() == WireOf(cfg.codec, s.accepted) + Partial(s)
  {
    Reached(cfg, spurious, schedule);
  }

  /** The messages handed to q so far, whatever the batches. */
  function HandedOver(s: State): seq<Msg> {
    Flat(s.delivered) + s.batch
  }

  /** As long as no snapshot was torn, the messages handed over, those still to parse in rbuf and those in
      the ring are the accepted messages, in order and whole, and the drain loop never dies. */
  lemma MessagesConserved(cfg: Config, spurious: nat, schedule: seq<Who>)
    requires cfg.Good() && Executable(cfg, Start(cfg, spurious), schedule)
    ensures var c, s := cfg.codec, Run(cfg, Start(cfg, spurious), schedule);
            !s.torn ==>
              && !s.crashed
              && AllFit(c, s.accepted)
              && s.processed <= s.taken <= |s.accepted|
              && HandedOver(s) == s.accepted[..s.processed]
              && (if Draining(s)
                  then s.offset <= s.qsize <= |s.rbuf|
                       && s.rbuf[s.offset..s.qsize] == WireOf(c, s.accepted[s.processed..s.taken])
                  else s.processed == s.taken)
              && s.ring.Contents() == WireOf(c, s.accepted[s.taken..]) + Partial(s)
  {
    Reached(cfg, spurious, schedule);
    var s := Run(cfg, Start(cfg, spurious), schedule);
    if !s.torn {
      RingHoldsMessages(cfg, s);
    }
  }

  /** The exact condition for whole messages: everything drained or claimed is a list of whole frames if
      and only if no snapshot fell between the two stores of a split frame. */
  lemma WholeIffNotTorn(cfg: Config, spurious: nat, schedule: seq<Who>)
    requires cfg.Good() && Executable(cfg, Start(cfg, spurious), schedule)
    ensures var s := Run(cfg, Start(cfg, spurious), schedule);
            AllWhole(s.drains) && (Claiming(s) ==> Whole(s.claim)) <==> !s.torn
  {
    Reached(cfg, spurious, schedule);
    var s := Run(cfg, Start(cfg, spurious), schedule);
    if !s.torn && Claiming(s) {
      WireOfWhole(cfg.codec, s.accepted[s.taken..s.claimedUpTo]);
    }
  }

  /** The same at a single snapshot, in any state reached without a torn one. */
  lemma NextSnapshotWholeIff(cfg: Config, spurious: nat, schedule: seq<Who>)
    requires cfg.Good() && Executable(cfg, Start(cfg, spurious), schedule)
    requires var s := Run(cfg, Start(cfg, spurious), schedule); !s.torn && s.cpc.Snapshot?
    ensures var s := Run(cfg, Start(cfg, spurious), schedule); Whole(s.ring.Contents()) <==> !TornWindow(s)
  {
    Reached(cfg, spurious, schedule);
    SnapshotWholeIff(cfg, Run(cfg, Start(cfg, spurious), schedule));
  }

  /** The size read without the lock is still covered when cb_read tests it under the lock, mid-wrap
      snapshots included: the non-blocking read never returns -1 and copies exactly the bytes counted. */
  lemma SnapshotNeverOverstates(cfg: Config, spurious: nat, schedule: seq<Who>)
    requires cfg.Good() && Executable(cfg, Start(cfg, spurious), schedule)
    ensures var s := Run(cfg, Start(cfg, spurious), schedule);
            s.cpc.Reading? && !s.crashed ==>
              && s.qsize <= s.ring.Size() && s.qsize <= |s.rbuf|
              && ReadRing(s).cpc.UnlockRead?
              && ReadRing(s).rbuf[..s.qsize] == s.claim
  {
    Reached(cfg, spurious, schedule);
    var s := Run(cfg, Start(cfg, spurious), schedule);
    if s.cpc.Reading? {
      TakeRemovesPrefix(s.ring, s.qsize);
    }
  }

  /** No wake-up is lost, although the dot is written to a non-blocking socket and the result ignored. */
  lemma NoLostWakeUp(cfg: Config, spurious: nat, schedule: seq<Who>)
    requires cfg.Good() && Executable(cfg, Start(cfg, spurious), schedule)
    ensures var s := Run(cfg, Start(cfg, spurious), schedule);
            Unclaimed(s) > 0 ==> s.dots > 0 || OwesDot(s) || s.cpc.Snapshot?
  {
    Reached(cfg, spurious, schedule);
  }

  // ---------------------------------------------------------------------------------------------
  // Progress.

  /** A writer blocked on a full ring never waits for a consumer that cannot move. */
  lemma BlockedWriterIsServed(cfg: Config, s: State)
    requires cfg.Good() && Raw(cfg, s) && !s.crashed && s.ppc.Waiting?
    ensures ConsumerEnabled(s)
  {
    assert s.lock != ByProducer;
    if !s.cpc.UnlockRead? && !s.cpc.Signal? {
      assert s.ring.Size() > 0;
    }
  }

  predicate Complete(cfg: Config, s: State)
    requires s.ring.Valid()
  {
    s.next == |cfg.input| && s.ppc.Ready? && s.cpc.Idle? && s.dots == 0 && s.ring.Size() == 0
  }

  /** No deadlock: a state in which nobody can move is a state in which everything is done. */
  lemma StuckMeansComplete(cfg: Config, s: State)
    requires cfg.Good() && Raw(cfg, s) && !s.crashed && Stuck(cfg, s)
    ensures Complete(cfg, s)
  {
    assert !Enabled(cfg, s, Producer) && !Enabled(cfg, s, Consumer);
    if s.ppc.Waiting? {
      BlockedWriterIsServed(cfg, s);
    }
  }

  /** No deadlock, in every state of every schedule: a writer blocked on a full ring is served, a state in
      which nobody can move is complete, and the drain loop can only die of a torn snapshot. */
  lemma NoDeadlock(cfg: Config, spurious: nat, schedule: seq<Who>)
    requires cfg.Good() && Executable(cfg, Start(cfg, spurious), schedule)
    ensures var s := Run(cfg, Start(cfg, spurious), schedule);
            && (s.ppc.Waiting? && !s.crashed ==> ConsumerEnabled(s))
            && (Stuck(cfg, s) && !s.crashed ==> Complete(cfg, s))
            && (s.crashed ==> s.torn)
  {
    Reached(cfg, spurious, schedule);
    var s := Run(cfg, Start(cfg, spurious), schedule);
    if !s.crashed && s.ppc.Waiting? {
      BlockedWriterIsServed(cfg, s);
    }
    if !s.crashed && Stuck(cfg, s) {
      StuckMeansComplete(cfg, s);
    }
  }

  const DOT_COST: nat := 11
  const EVENT_COST: nat := 526

  function ProducerRank(s: State): int {
    match s.ppc
    case Ready => 0
    case Counting => 1
    case SendDot(_) => 2 + DOT_COST
    case Unlocking(_) => 3 + DOT_COST
    case MidWrap(_, f, e) => 4 + DOT_COST + |f| - e
    case Waiting(_, f) => 5 + DOT_COST + |f|
    case Testing(_, f) => 6 + DOT_COST + |f|
    case WantLock(_, f) => 7 + DOT_COST + |f|
  }

  function ConsumerRank(s: State): int {
    match s.cpc
    case Idle => 0
    case CountBatch => 1
    case Deliver => 2
    case Parsing => 3
    case Signal => 6
    case UnlockRead => 7
    case Reading => 8
    case WantRead => 9
    case Snapshot => 10
  }

  /** Bytes copied to rbuf and not parsed yet. */
  function Unparsed(s: State): nat {
    if Draining(s) && s.offset < s.qsize then s.qsize - s.offset else 0
  }

  function ProducerShare(cfg: Config, s: State): int {
    EVENT_COST * (|cfg.input| - s.next) + ProducerRank(s)
  }

  /** What is left to do: every step, of either thread, makes it smaller. */
  function Rank(cfg: Config, s: State): int
    requires s.ring.Valid()
  {
    (if s.crashed then 0 else 1)
    + ProducerShare(cfg, s)
    + DOT_COST * s.dots + 3 * s.spurious
    + ConsumerRank(s) + s.ring.Size() + Unparsed(s)
  }

  lemma RankIsNatural(cfg: Config, s: State)
    requires Raw(cfg, s)
    ensures Rank(cfg, s) >= 0
  {
  }

  lemma EventPaysForFrame(cfg: Config, s: State)
    requires s.ppc.Ready? && s.next < |cfg.input|
    ensures var r := TakeEvent(cfg, s); ProducerShare(cfg, r) < ProducerShare(cfg, s)
  {
  }

  lemma StoresLowerRank(cfg: Config, s: State)
    requires Shape(cfg, s) && ProducerEnabled(cfg, s)
    ensures s.ppc.Testing? ==> ProducerRank(TestAndStore(s)) + |Shown(s)| < ProducerRank(s)
    ensures s.ppc.MidWrap? ==> ProducerRank(StoreSecond(s)) + |Shown(s)| < ProducerRank(s)
  {
    if s.ppc.Testing? && |s.ppc.f| <= s.ring.Space() && s.ring.WrapsWriting(|s.ppc.f|) {
      StoreToEndShowsPrefix(s.ring, s.ppc.f);
    }
  }

  /** The producer's own work shrinks by more than the bytes and the dot it adds for the consumer. */
  lemma ProducerWorkShrinks(cfg: Config, s: State)
    requires Shape(cfg, s) && ProducerEnabled(cfg, s)
    ensures var r := ProducerStep(cfg, s);
            ProducerShare(cfg, r) + |Shown(s)| + DOT_COST * (r.dots - s.dots) < ProducerShare(cfg, s)
  {
    match s.ppc
    case Ready => EventPaysForFrame(cfg, s);
    case Testing(_, _) => StoresLowerRank(cfg, s);
    case MidWrap(_, _, _) => StoresLowerRank(cfg, s);
    case _ =>
  }

  lemma ProducerStepLowersRank(cfg: Config, s: State)
    requires Raw(cfg, s) && ProducerEnabled(cfg, s)
    ensures Rank(cfg, ProducerStep(cfg, s)) < Rank(cfg, s)
  {
    var r := ProducerStep(cfg, s);
    ProducerLeavesConsumer(cfg, s);
    ProducerShows(cfg, s);
    ProducerWorkShrinks(cfg, s);
    assert r.ring.Size() == s.ring.Size() + |Shown(s)|;
    assert r.spurious == s.spurious;
  }

  lemma ReadLowersRank(cfg: Config, s: State)
    requires Shape(cfg, s) && ClaimHolds(s) && s.cpc.Reading?
    ensures Rank(cfg, ReadRing(s)) < Rank(cfg, s)
  {
    TakeRemovesPrefix(s.ring, s.qsize);
  }

  lemma ParseLowersRank(cfg: Config, s: State)
    requires s.ring.Valid() && s.cpc.Parsing? && !s.crashed
    ensures Rank(cfg, ParseRound(cfg, s)) < Rank(cfg, s)
  {
  }

  lemma SignalPaysForWakeUp(cfg: Config, s: State)
    requires s.ring.Valid() && s.cpc.Signal?
    ensures Rank(cfg, Wake(s).(cpc := Parsing)) < Rank(cfg, s)
  {
  }

  lemma SnapshotLowersRank(cfg: Config, s: State)
    requires s.ring.Valid() && s.cpc.Snapshot?
    ensures Rank(cfg, TakeSnapshot(s)) < Rank(cfg, s)
  {
  }

  lemma PlainStepLowersRank(cfg: Config, s: State)
    requires s.ring.Valid() && ConsumerEnabled(s)
    requires s.cpc.Idle? || s.cpc.WantRead? || s.cpc.UnlockRead? || s.cpc.Deliver? || s.cpc.CountBatch?
    ensures Rank(cfg, ConsumerStep(cfg, s)) < Rank(cfg, s)
  {
    assert ConsumerStep(cfg, s).ppc == s.ppc && ConsumerStep(cfg, s).ring == s.ring;
  }

  lemma ConsumerStepLowersRank(cfg: Config, s: State)
    requires Raw(cfg, s) && ConsumerEnabled(s)
    ensures Rank(cfg, ConsumerStep(cfg, s)) < Rank(cfg, s)
  {
    match s.cpc
    case Reading => ReadLowersRank(cfg, s);
    case Parsing => ParseLowersRank(cfg, s);
    case Signal => SignalPaysForWakeUp(cfg, s);
    case Snapshot => SnapshotLowersRank(cfg, s);
    case _ => PlainStepLowersRank(cfg, s);
  }

  lemma StepLowersRank(cfg: Config, s: State, who: Who)
    requires cfg.Good() && Raw(cfg, s) && Enabled(cfg, s, who)
    ensures Rank(cfg, Step(cfg, s, who)) < Rank(cfg, s)
  {
    match who
    case Producer => ProducerStepLowersRank(cfg, s);
    case Consumer => ConsumerStepLowersRank(cfg, s);
    case SpuriousWakeUp =>
  }

  lemma {:induction false} RankBoundsRun(cfg: Config, s: State, schedule: seq<Who>)
    requires cfg.Good() && Raw(cfg, s) && Executable(cfg, s, schedule)
    ensures |schedule| <= Rank(cfg, s)
    decreases |schedule|
  {
    if schedule == [] {
      RankIsNatural(cfg, s);
    } else {
      StepKeepsRaw(cfg, s, schedule[0]);
      StepLowersRank(cfg, s, schedule[0]);
      RankBoundsRun(cfg, Step(cfg, s, schedule[0]), schedule[1..]);
    }
  }

  /** Every run is finite, and its length is linear in the number of events and spurious wake-ups,
      whatever the scheduler does and whether or not a snapshot is torn. */
  lemma RunsAreLinear(cfg: Config, spurious: nat, schedule: seq<Who>)
    requires cfg.Good() && Executable(cfg, Start(cfg, spurious), schedule)
    ensures |schedule| <= EVENT_COST * |cfg.input| + 3 * spurious + 1
  {
    StartIsRaw(cfg, spurious);
    RankBoundsRun(cfg, Start(cfg, spurious), schedule);
  }

  /** Only a snapshot in the window can tear. */
  lemma OnlyWindowTears(cfg: Config, s: State, who: Who)
    requires Raw(cfg, s) && Enabled(cfg, s, who) && !s.torn
    requires who.Consumer? && s.cpc.Snapshot? ==> !TornWindow(s)
    ensures !Step(cfg, s, who).torn
  {
    match who
    case Producer => ProducerLeavesConsumer(cfg, s);
    case Consumer => ConsumerRecordsClaim(cfg, s);
    case SpuriousWakeUp =>
  }

  /** A thread that can move without tearing a snapshot. */
  lemma SomebodyMoves(cfg: Config, s: State) returns (who: Who)
    requires Raw(cfg, s) && !s.torn && !s.crashed && !Stuck(cfg, s)
    ensures Enabled(cfg, s, who) && !Step(cfg, s, who).torn
  {
    if s.cpc.Snapshot? && TornWindow(s) {
      who := Producer;
    } else {
      who :| Enabled(cfg, s, who);
    }
    OnlyWindowTears(cfg, s, who);
  }

  lemma RunFrom(cfg: Config, s: State, who: Who, rest: seq<Who>)
    requires s.ring.Valid() && Enabled(cfg, s, who) && Executable(cfg, Step(cfg, s, who), rest)
    ensures Executable(cfg, s, [who] + rest)
    ensures Run(cfg, s, [who] + rest) == Run(cfg, Step(cfg, s, who), rest)
  {
    assert ([who] + rest)[1..] == rest;
  }

  /** Wherever a run without a torn snapshot has got to, it can be finished without one: the premises of
      TotalDelivery can always be met. */
  lemma {:induction false} CanFinish(cfg: Config, s: State)
    requires cfg.Good() && Raw(cfg, s) && Framed(cfg, s) && !s.torn
    ensures exists rest ::
              Executable(cfg, s, rest) && Stuck(cfg, Run(cfg, s, rest)) && !Run(cfg, s, rest).torn
    decreases Rank(cfg, s)
  {
    RankIsNatural(cfg, s);
    if Stuck(cfg, s) {
      assert Executable(cfg, s, []) && Run(cfg, s, []) == s;
    } else {
      var who := SomebodyMoves(cfg, s);
      StepKeepsRaw(cfg, s, who);
      StepKeepsFramed(cfg, s, who);
      StepLowersRank(cfg, s, who);
      CanFinish(cfg, Step(cfg, s, who));
      var next := Step(cfg, s, who);
      var rest :| Executable(cfg, next, rest) && Stuck(cfg, Run(cfg, next, rest)) && !Run(cfg, next, rest).torn;
      RunFrom(cfg, s, who, rest);
    }
  }

  // ---------------------------------------------------------------------------------------------
  // Total delivery.

  lemma NoBytesNoMessages(c: Codec, ms: seq<Msg>)
    requires AllFit(c, ms) && WireOf(c, ms) == []
    ensures ms == []
  {
    if ms != [] {
      WireOfFirst(c, ms);
    }
  }

  /** A run that cannot go on and met no torn snapshot has handed over every message the session
      produced that passed the size check, in order, and left nothing behind. */
  lemma TotalDelivery(cfg: Config, spurious: nat, schedule: seq<Who>)
    requires cfg.Good() && Executable(cfg, Start(cfg, spurious), schedule)
    requires var s := Run(cfg, Start(cfg, spurious), schedule); Stuck(cfg, s) && !s.torn
    ensures var s := Run(cfg, Start(cfg, spurious), schedule);
            var t := Account(cfg.codec, cfg.input);
            && Complete(cfg, s)
            && Flat(s.delivered) == t.sent == Survivors(cfg.codec, cfg.input, 0) && s.batch == []
            && s.processed == |t.sent| && s.recv == t.recv == Streams(cfg.input) && s.dropped == |t.dropped|
  {
    SentAreSurvivors(cfg.codec, cfg.input);
    Reached(cfg, spurious, schedule);
    var s := Run(cfg, Start(cfg, spurious), schedule);
    StuckMeansComplete(cfg, s);
    RingHoldsMessages(cfg, s);
    NoBytesNoMessages(cfg.codec, s.accepted[s.taken..]);
    assert cfg.input[..s.next] == cfg.input;
    assert s.accepted[..s.processed] == s.accepted;
  }

  /** Scheduling, ring capacity, socket capacity and spurious wake-ups only affect how the messages are
      batched: any two complete runs of a session hand over the same messages and agree on the counters. */
  lemma OnlyBatchingDiffers(a: Config, spuriousA: nat, scheduleA: seq<Who>,
                            b: Config, spuriousB: nat, scheduleB: seq<Who>)
    requires a.Good() && b.Good() && a.codec == b.codec && a.input == b.input
    requires Executable(a, Start(a, spuriousA), scheduleA) && Executable(b, Start(b, spuriousB), scheduleB)
    requires var s := Run(a, Start(a, spuriousA), scheduleA); Stuck(a, s) && !s.torn
    requires var s := Run(b, Start(b, spuriousB), scheduleB); Stuck(b, s) && !s.torn
    ensures var s := Run(a, Start(a, spuriousA), scheduleA);
            var r := Run(b, Start(b, spuriousB), scheduleB);
            Flat(s.delivered) == Flat(r.delivered) && s.processed == r.processed && s.recv == r.recv
  {
    TotalDelivery(a, spuriousA, scheduleA);
    TotalDelivery(b, spuriousB, scheduleB);
  }

  // ---------------------------------------------------------------------------------------------
  // Counters and sequence numbers.

  /** The current stream message is queued or dropped, and msg_recv++ is still to come. */
  predicate Uncounted(s: State) {
    s.ppc.Counting? || (Queued(s) && s.ppc.m.kind.Stream?)
  }

  /** The bytes in flight: what is left to parse in rbuf, then what is in the ring. */
  function InFlight(s: State): seq<byte>
    requires s.ring.Valid()
  {
    (if Draining(s) && s.offset <= s.qsize <= |s.rbuf| then s.rbuf[s.offset..s.qsize] else []) + s.ring.Contents()
  }

  /** As long as no snapshot was torn, the bytes in flight are the frames of some payloads, and the
      messages parsed plus those payloads are the stream messages counted, less those dropped for their
      size, plus the admin messages queued, plus one exactly while a stream message is disposed of and not
      yet counted. */
  lemma CountersConserved(cfg: Config, spurious: nat, schedule: seq<Who>)
    requires cfg.Good() && Executable(cfg, Start(cfg, spurious), schedule)
    requires !Run(cfg, Start(cfg, spurious), schedule).torn
    ensures var s := Run(cfg, Start(cfg, spurious), schedule);
            && s.processed == |HandedOver(s)|
            && exists ps: seq<Payload> ::
                 && AllSendable(ps) && InFlight(s) == Wire(ps) + Partial(s)
                 && s.processed + |ps|
                    == s.recv - s.dropped + CountAdmins(s.accepted) + (if Uncounted(s) then 1 else 0)
  {
    Reached(cfg, spurious, schedule);
    var s := Run(cfg, Start(cfg, spurious), schedule);
    FlightIsMessages(cfg, s);
    var ps := PayloadsInFlight(cfg, s);
    assert AllSendable(ps);
  }

  /** The payloads accepted and not parsed yet balance the counters. */
  lemma PayloadsInFlight(cfg: Config, s: State) returns (ps: seq<Payload>)
    requires Raw(cfg, s) && FramesKept(cfg.codec, s)
    ensures AllSendable(ps) && InFlight(s) == Wire(ps) + Partial(s)
    ensures s.processed + |ps|
         == s.recv - s.dropped + CountAdmins(s.accepted) + (if Uncounted(s) then 1 else 0)
  {
    CountsFollowBooks(cfg, s);
    FlightIsMessages(cfg, s);
    ps := Payloads(cfg.codec, s.accepted[s.processed..]);
  }

  /** The bytes in flight are the messages accepted and not parsed yet. */
  lemma FlightIsMessages(cfg: Config, s: State)
    requires Raw(cfg, s) && FramesKept(cfg.codec, s)
    ensures s.processed <= |s.accepted| && AllFit(cfg.codec, s.accepted[s.processed..])
    ensures InFlight(s) == WireOf(cfg.codec, s.accepted[s.processed..]) + Partial(s)
    ensures s.processed == |HandedOver(s)|
  {
    var c := cfg.codec;
    RingHoldsMessages(cfg, s);
    WireOfStretch(c, s.accepted, s.processed, s.taken);
    var parsing, queued := WireOf(c, s.accepted[s.processed..s.taken]), WireOf(c, s.accepted[s.taken..]);
    if !Draining(s) {
      assert s.accepted[s.processed..s.taken] == [];
      assert parsing == [];
    }
    ConcatAssociates(parsing, queued, Partial(s));
  }

  lemma WireOfStretch(c: Codec, ms: seq<Msg>, i: nat, j: nat)
    requires AllFit(c, ms) && i <= j <= |ms|
    ensures AllFit(c, ms[i..]) && AllFit(c, ms[i..j]) && AllFit(c, ms[j..])
    ensures WireOf(c, ms[i..]) == WireOf(c, ms[i..j]) + WireOf(c, ms[j..])
  {
    WireOfSplit(c, ms[i..], j - i);
    assert ms[i..][..j - i] == ms[i..j] && ms[i..][j - i..] == ms[j..];
  }

  /** For every schedule, torn or not: callbacks and unread dots never exceed the messages, and the
      callbacks are exactly the batches handed to q plus those that found the ring empty. So the counter
      that getstats shows as `batched` is the number of batches if and only if none did. */
  lemma CallbacksAccounted(cfg: Config, spurious: nat, schedule: seq<Who>)
    requires cfg.Good() && Executable(cfg, Start(cfg, spurious), schedule)
    ensures var s := Run(cfg, Start(cfg, spurious), schedule);
            && s.callbacks + s.dots <= |s.accepted|
            && s.callbacks + (if s.cpc.CountBatch? then 1 else 0) == |s.delivered| + s.emptySnapshots
            && (!s.cpc.CountBatch? ==> (s.callbacks == |s.delivered| <==> s.emptySnapshots == 0))
  {
    Reached(cfg, spurious, schedule);
  }

  lemma CountsFollowBooks(cfg: Config, s: State)
    requires BooksKept(cfg, s)
    ensures |s.accepted| + s.dropped == s.recv + CountAdmins(s.accepted) + (if Uncounted(s) then 1 else 0)
  {
    SessionIsWellNumbered(cfg.codec, cfg.input[..s.next]);
    if !s.ppc.Ready? {
      SessionIsWellNumbered(cfg.codec, cfg.input[..s.next - 1]);
      AccountNext(cfg.codec, cfg.input, s.next - 1);
    }
  }

  /** In every state: what was handed over is numbered in non-decreasing order, its stream messages
      strictly so, and a number below msg_recv is missing from the accepted messages exactly when its
      message was dropped for its size. */
  lemma SequenceNumbers(cfg: Config, spurious: nat, schedule: seq<Who>)
    requires cfg.Good() && Executable(cfg, Start(cfg, spurious), schedule)
    ensures var s := Run(cfg, Start(cfg, spurious), schedule);
            && s.next <= |cfg.input|
            && NonDecreasing(s.accepted) && StreamsIncrease(s.accepted)
            && (!s.torn ==> NonDecreasing(HandedOver(s)) && StreamsIncrease(HandedOver(s)))
            && (forall n: nat :: n < s.recv ==>
                  (CarriesStream(s.accepted, n) <==> n !in Account(cfg.codec, cfg.input[..s.next]).dropped))
  {
    Reached(cfg, spurious, schedule);
    NumbersFollowBooks(cfg, Run(cfg, Start(cfg, spurious), schedule));
  }

  lemma NumbersFollowBooks(cfg: Config, s: State)
    requires BooksKept(cfg, s)
    ensures NonDecreasing(s.accepted) && StreamsIncrease(s.accepted)
    ensures forall n: nat :: n < s.recv ==>
              (CarriesStream(s.accepted, n) <==> n !in Account(cfg.codec, cfg.input[..s.next]).dropped)
  {
    SessionIsWellNumbered(cfg.codec, cfg.input[..s.next]);
    if !s.ppc.Ready? {
      var t := Account(cfg.codec, cfg.input[..s.next - 1]);
      SessionIsWellNumbered(cfg.codec, cfg.input[..s.next - 1]);
      AccountNext(cfg.codec, cfg.input, s.next - 1);
      forall n: nat | n < s.recv
        ensures CarriesStream(t.sent + [Number(t, cfg.input[s.next - 1])], n) <==> CarriesStream(t.sent, n)
      {
        CarriesStreamAppend(t.sent, Number(t, cfg.input[s.next - 1]), n);
      }
    }
  }
}
