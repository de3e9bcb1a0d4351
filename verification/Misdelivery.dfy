/** What a torn snapshot does to q. The drain loop takes the piece it counted for a message, and the rest of
    the frame for another one: it dies, or hands q more messages than were ever queued. */
module Misdelivery {
  import opened Bytes
  import opened RingModel
  import opened Framing
  import opened Messages
  import opened Protocol
  import opened RawInvariants
  import opened FrameInvariants
  import opened Delivery
  import opened Reachability
  import opened Tearing

  // ---------------------------------------------------------------------------------------------
  // msg_processed counts what q gets, torn snapshots or not.

  ghost predicate ProcessedCounts(s: State) {
    s.processed == |HandedOver(s)| && (BatchIsEmpty(s) ==> s.batch == [])
  }

  lemma ConsumerKeepsCount(cfg: Config, s: State)
    requires s.ring.Valid() && ConsumerEnabled(s) && ProcessedCounts(s)
    ensures ProcessedCounts(ConsumerStep(cfg, s))
  {
    match s.cpc
    case Deliver => FlatAppend(s.delivered, s.batch);
    case _ =>
  }

  lemma StepKeepsCount(cfg: Config, s: State, who: Who)
    requires s.ring.Valid() && Enabled(cfg, s, who) && ProcessedCounts(s)
    ensures ProcessedCounts(Step(cfg, s, who))
  {
    match who
    case Producer => ProducerLeavesConsumer(cfg, s);
    case Consumer => ConsumerKeepsCount(cfg, s);
    case SpuriousWakeUp =>
  }

  lemma {:induction false} RunKeepsCount(cfg: Config, s: State, schedule: seq<Who>)
    requires s.ring.Valid() && Executable(cfg, s, schedule) && ProcessedCounts(s)
    ensures ProcessedCounts(Run(cfg, s, schedule))
    decreases |schedule|
  {
    if schedule != [] {
      StepKeepsCount(cfg, s, schedule[0]);
      RunKeepsCount(cfg, Step(cfg, s, schedule[0]), schedule[1..]);
    }
  }

  /** In every state of every schedule msg_processed is the number of messages handed over, whatever they
      are. */
  lemma ProcessedIsHandedOver(cfg: Config, spurious: nat, schedule: seq<Who>)
    requires cfg.n >= 1 && Executable(cfg, Start(cfg, spurious), schedule)
    ensures var s := Run(cfg, Start(cfg, spurious), schedule); s.processed == |HandedOver(s)|
  {
    RunKeepsCount(cfg, Start(cfg, spurious), schedule);
  }

  // ---------------------------------------------------------------------------------------------
  // A straddling frame is taken for two messages.

  /** The drain loop died, or q got more messages than were queued. */
  predicate Bad(s: State) {
    s.crashed || s.processed > |s.accepted|
  }

  /** The first piece of the frame is counted behind a whole one; then the writer gets on and rests. */
  lemma CountPiece(cfg: Config, s: State) returns (r: State)
    requires cfg.Good() && Reachable(cfg, s) && s.ring.Valid() && !s.crashed && !s.torn && s.cpc.Snapshot?
    requires TornWindow(s) && s.dots == 0 && |s.accepted| == s.taken + 1
    ensures Reachable(cfg, r) && r.ring.Valid() && !r.crashed && r.lock.Nobody? && r.ppc.Ready?
    ensures r.cpc.WantRead? && r.dots == 1 && r.batch == [] && r.offset == 0
    ensures r.processed == s.taken && |r.accepted| == s.taken + 2
    ensures Unclaimed(r) > 0 && |r.claim| == r.qsize
    ensures HasWholeAndPiece(cfg.codec, s.accepted[s.taken], r.claim)
  {
    ReachableIsRaw(cfg, s);
    ClaimOfWindow(cfg, s);
    var s1 := Step(cfg, s, Consumer);
    StepIsReachable(cfg, s, Consumer);
    ReachableIsRaw(cfg, s1);
    var s2 := FinishWrite(cfg, s1);
    r := ThroughDot(cfg, s2);
  }

  /** A whole frame and then at least one more byte. */
  ghost predicate HasWholeAndPiece(c: Codec, m: Msg, bytes: seq<byte>) {
    Sendable(c.serialise(m)) && Frame(c.serialise(m)) <= bytes && |bytes| > |Frame(c.serialise(m))|
  }

  lemma WireOfOne(c: Codec, m: Msg)
    requires AllFit(c, [m])
    ensures Sendable(c.serialise(m)) && WireOf(c, [m]) == Frame(c.serialise(m))
  {
    assert Sendable(c.serialise([m][0]));
    WireOfFirst(c, [m]);
    assert WireOf(c, [m][1..]) == [];
  }

  /** What a snapshot in the window counts when one message is in the ring. */
  lemma ClaimOfWindow(cfg: Config, s: State)
    requires Shape(cfg, s) && BytesKept(cfg.codec, s) && DrainsAreMessages(cfg.codec, s)
    requires TornWindow(s) && |s.accepted| == s.taken + 1
    ensures HasWholeAndPiece(cfg.codec, s.accepted[s.taken], s.ring.Contents())
  {
    var c, m := cfg.codec, s.accepted[s.taken];
    RingHoldsMessages(cfg, s);
    assert s.accepted[s.taken..] == [m];
    WireOfOne(c, m);
    assert s.ring.Contents() == Frame(c.serialise(m)) + Partial(s);
  }

  /** The second store, when a snapshot has counted the first. */
  lemma FinishWrite(cfg: Config, s: State) returns (r: State)
    requires cfg.Good() && Reachable(cfg, s) && s.ring.Valid() && !s.crashed && TornWindow(s) && Unclaimed(s) == 0
    ensures Reachable(cfg, r) && r.ring.Valid() && Unclaimed(r) > 0
    ensures r == s.(ring := r.ring, ppc := Unlocking(s.ppc.m), accepted := s.accepted + [s.ppc.m])
  {
    ReachableIsRaw(cfg, s);
    StoreRestAppends(s.ring, s.ppc.f[s.ppc.e..]);
    r := Step(cfg, s, Producer);
    assert r == StoreSecond(s);
    StepIsReachable(cfg, s, Producer);
  }

  /** The drain that holds the whole frame and the piece: it yields the message, and at least one more. */
  lemma DrainPiece(cfg: Config, s: State, m: Msg) returns (r: State)
    requires cfg.Good() && Reachable(cfg, s) && s.ring.Valid() && !s.crashed && s.lock.Nobody? && s.ppc.Ready?
    requires s.cpc.WantRead? && s.offset == 0 && Unclaimed(s) > 0
    requires |s.claim| == s.qsize && HasWholeAndPiece(cfg.codec, m, s.claim)
    ensures Reachable(cfg, r) && r.ring.Valid()
    ensures r.crashed || (&& r.cpc.Idle? && r.ppc.Ready? && r.ring.Size() > 0 && r.dots == s.dots
                          && r.accepted == s.accepted && r.processed >= s.processed + 2)
  {
    var p := cfg.codec.serialise(m);
    var s1 := ConsumerCopies(cfg, s);
    assert LeftInRing(s1) == LeftInRing(s) by {
      TakeRemovesPrefix(s.ring, s.qsize);
    }
    assert s1.rbuf[0..|Frame(p)|] == s.claim[..|Frame(p)|] == Frame(p);
    ParseFrame(s1.rbuf, 0, p);
    var s2 := Step(cfg, s1, Consumer);
    assert s2 == ParseRound(cfg, s1);
    StepIsReachable(cfg, s1, Consumer);
    assert Expected(s2) == s.processed + 2 && LeftInRing(s2) == LeftInRing(s1);
    r := CallbackEnds(cfg, s2);
  }

  /** The dot of the split frame is read, and what is left of the frame is drained for itself. */
  lemma DrainRest(cfg: Config, s: State) returns (r: State)
    requires cfg.Good() && Reachable(cfg, s) && s.ring.Valid() && !s.crashed && s.ppc.Ready? && s.cpc.Idle?
    requires s.ring.Size() > 0 && s.dots > 0
    ensures Reachable(cfg, r)
    ensures r.crashed || (r.accepted == s.accepted && r.processed > s.processed)
  {
    var s1 := Step(cfg, s, Consumer);
    assert s1 == s.(dots := s.dots - 1, cpc := Snapshot);
    StepIsReachable(cfg, s, Consumer);
    r := CallbackEnds(cfg, s1);
  }

  lemma StraddleMisdelivers(cfg: Config, k: nat) returns (r: State)
    requires cfg.Good() && cfg.n > 2 * MAX_FRAME && k < |Sent(cfg)| && Straddles(cfg, k)
    ensures Reachable(cfg, r) && Bad(r)
  {
    var s := OpenWindow(cfg, k);
    var s1 := CountPiece(cfg, s);
    var s2 := DrainPiece(cfg, s1, s.accepted[s.taken]);
    r := s2;
    if !s2.crashed {
      r := DrainRest(cfg, s2);
    }
  }

  // ---------------------------------------------------------------------------------------------
  // The exact condition.

  /** The drain loop is alive, q has got accepted messages only, each once and in order, and if nothing is
      left to do, all that were to be queued. */
  ghost predicate Faithful(cfg: Config, s: State) {
    && !s.crashed && HandedOver(s) <= s.accepted
    && (Stuck(cfg, s) ==> Flat(s.delivered) == Survivors(cfg.codec, cfg.input, 0))
  }

  lemma UnsplitSessionsAreDelivered(cfg: Config, spurious: nat, schedule: seq<Who>)
    requires cfg.Good() && NoneStraddles(cfg) && Executable(cfg, Start(cfg, spurious), schedule)
    ensures Faithful(cfg, Run(cfg, Start(cfg, spurious), schedule))
  {
    NoneStraddlesNoneTears(cfg, spurious, schedule);
    MessagesConserved(cfg, spurious, schedule);
    if Stuck(cfg, Run(cfg, Start(cfg, spurious), schedule)) {
      TotalDelivery(cfg, spurious, schedule);
    }
  }

  lemma BadIsUnfaithful(cfg: Config, spurious: nat, schedule: seq<Who>)
    requires cfg.n >= 1 && Executable(cfg, Start(cfg, spurious), schedule)
    requires Bad(Run(cfg, Start(cfg, spurious), schedule))
    ensures !Faithful(cfg, Run(cfg, Start(cfg, spurious), schedule))
  {
    ProcessedIsHandedOver(cfg, spurious, schedule);
  }

  /** With room for two frames: under every schedule q gets the messages that were queued, in order and
      nothing else, if and only if no frame of the session straddles the end of the array. */
  lemma FaithfulIffNoneStraddles(cfg: Config)
    requires cfg.Good() && cfg.n > 2 * MAX_FRAME
    ensures (forall spurious: nat, schedule: seq<Who> :: Executable(cfg, Start(cfg, spurious), schedule) ==>
               Faithful(cfg, Run(cfg, Start(cfg, spurious), schedule)))
       <==> NoneStraddles(cfg)
  {
    if NoneStraddles(cfg) {
      forall spurious: nat, schedule: seq<Who> | Executable(cfg, Start(cfg, spurious), schedule)
        ensures Faithful(cfg, Run(cfg, Start(cfg, spurious), schedule))
      {
        UnsplitSessionsAreDelivered(cfg, spurious, schedule);
      }
    } else {
      var k: nat :| k < |Sent(cfg)| && Straddles(cfg, k);
      var s := StraddleMisdelivers(cfg, k);
      var schedule :| Executable(cfg, Start(cfg, 0), schedule) && Run(cfg, Start(cfg, 0), schedule) == s;
      BadIsUnfaithful(cfg, 0, schedule);
    }
  }
}
