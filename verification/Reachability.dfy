/** The states schedules can reach, and stretches of schedules in which one thread runs and the other
    rests. They serve to show that something can happen. */
module Reachability {
  import opened RingModel
  import opened Framing
  import opened Messages
  import opened Protocol
  import opened RawInvariants
  import opened FrameInvariants
  import opened Delivery

  /** Some schedule leads from the start of the session to `s`, without spurious wake-ups. */
  ghost predicate Reachable(cfg: Config, s: State)
    requires cfg.n >= 1
  {
    exists schedule :: Executable(cfg, Start(cfg, 0), schedule) && Run(cfg, Start(cfg, 0), schedule) == s
  }

  lemma StartIsReachable(cfg: Config)
    requires cfg.n >= 1
    ensures Reachable(cfg, Start(cfg, 0))
  {
    assert Executable(cfg, Start(cfg, 0), []);
  }

  lemma StepIsReachable(cfg: Config, s: State, who: Who)
    requires cfg.n >= 1 && Reachable(cfg, s) && s.ring.Valid() && Enabled(cfg, s, who)
    ensures Reachable(cfg, Step(cfg, s, who))
  {
    var start := Start(cfg, 0);
    var schedule :| Executable(cfg, start, schedule) && Run(cfg, start, schedule) == s;
    assert [who][1..] == [];
    assert Executable(cfg, s, [who]);
    assert Run(cfg, s, [who]) == Run(cfg, Step(cfg, s, who), []);
    RunConcat(cfg, start, schedule, [who]);
  }

  lemma ReachableIsRaw(cfg: Config, s: State)
    requires cfg.Good() && Reachable(cfg, s)
    ensures Raw(cfg, s) && Framed(cfg, s)
  {
    var schedule :| Executable(cfg, Start(cfg, 0), schedule) && Run(cfg, Start(cfg, 0), schedule) == s;
    Reached(cfg, 0, schedule);
  }

  // ---------------------------------------------------------------------------------------------
  // The messages of a session.

  /** The messages a session queues, whatever the schedule. */
  function Sent(cfg: Config): seq<Msg> {
    Account(cfg.codec, cfg.input).sent
  }

  lemma SentFits(cfg: Config)
    requires cfg.Good()
    ensures AllFit(cfg.codec, Sent(cfg))
  {
    SessionIsWellNumbered(cfg.codec, cfg.input);
  }

  lemma {:induction false} AccountGrows(c: Codec, events: seq<Event>, k: nat)
    requires k <= |events|
    ensures Account(c, events[..k]).sent <= Account(c, events).sent
    decreases |events| - k
  {
    if k < |events| {
      AccountNext(c, events, k);
      AccountGrows(c, events, k + 1);
    } else {
      assert events[..k] == events;
    }
  }

  /** The message in hand is the next one of the session. */
  lemma NextOfSession(cfg: Config, s: State)
    requires BooksKept(cfg, s) && !s.ppc.Ready? && !s.ppc.Counting? && !Queued(s)
    ensures s.accepted + [s.ppc.m] <= Sent(cfg)
    ensures |s.accepted| < |Sent(cfg)| && Sent(cfg)[|s.accepted|] == s.ppc.m
  {
    QueueingFollowsAccount(cfg, s);
    AccountGrows(cfg.codec, cfg.input, s.next);
    var more := s.accepted + [s.ppc.m];
    assert more[|s.accepted|] == s.ppc.m;
  }

  // ---------------------------------------------------------------------------------------------
  // The Solace thread runs, the q main thread rests.

  /** Only the Solace thread's own business may differ. */
  predicate OnlyEventsTaken(s: State, r: State) {
    r == s.(next := r.next, recv := r.recv, dropped := r.dropped, lock := r.lock, ppc := r.ppc)
  }

  lemma FinishCounting(cfg: Config, s: State) returns (r: State)
    requires cfg.Good() && Reachable(cfg, s) && s.ring.Valid() && !s.crashed
    requires s.ppc.Ready? || s.ppc.Counting?
    ensures Reachable(cfg, r) && r == s.(recv := s.recv + if s.ppc.Counting? then 1 else 0, ppc := Ready)
  {
    r := s;
    if s.ppc.Counting? {
      r := Step(cfg, s, Producer);
      StepIsReachable(cfg, s, Producer);
    }
  }

  lemma TakeEventTouches(cfg: Config, s: State)
    requires s.ppc.Ready? && s.next < |cfg.input|
    ensures var r := TakeEvent(cfg, s);
            && OnlyEventsTaken(s, r) && r.lock == s.lock && r.next == s.next + 1
            && (r.ppc.WantLock? || r.ppc.Ready? || r.ppc.Counting?)
  {
  }

  lemma MoreToTake(cfg: Config, s: State)
    requires BooksKept(cfg, s) && s.ppc.Ready? && |s.accepted| < |Sent(cfg)|
    ensures s.next < |cfg.input|
  {
    assert cfg.input[..|cfg.input|] == cfg.input;
  }

  /** One event is taken: it is the next message of the session, or it queues nothing. */
  lemma TakeOne(cfg: Config, s: State) returns (r: State)
    requires cfg.Good() && Reachable(cfg, s) && s.ring.Valid() && !s.crashed && s.ppc.Ready?
    requires |s.accepted| < |Sent(cfg)|
    ensures Reachable(cfg, r) && OnlyEventsTaken(s, r) && r.lock == s.lock && s.next < r.next <= |cfg.input|
    ensures if r.ppc.WantLock? then r.ppc.m == Sent(cfg)[|s.accepted|] && HasFrame(cfg.codec, r.ppc.m, r.ppc.f)
            else r.ppc.Ready? || r.ppc.Counting?
  {
    ReachableIsRaw(cfg, s);
    MoreToTake(cfg, s);
    TakeEventTouches(cfg, s);
    r := Step(cfg, s, Producer);
    assert r == TakeEvent(cfg, s);
    StepIsReachable(cfg, s, Producer);
    ReachableIsRaw(cfg, r);
    if r.ppc.WantLock? {
      NextOfSession(cfg, r);
    }
  }

  /** Events that queue nothing are passed over until the next message of the session is in hand. */
  lemma {:induction false} SkipToMessage(cfg: Config, s: State) returns (r: State)
    requires cfg.Good() && Reachable(cfg, s) && s.ring.Valid() && !s.crashed && s.ppc.Ready?
    requires |s.accepted| < |Sent(cfg)|
    ensures Reachable(cfg, r) && OnlyEventsTaken(s, r) && r.lock == s.lock
    ensures r.ppc.WantLock? && r.ppc.m == Sent(cfg)[|s.accepted|] && HasFrame(cfg.codec, r.ppc.m, r.ppc.f)
    decreases |cfg.input| - s.next
  {
    r := TakeOne(cfg, s);
    if !r.ppc.WantLock? {
      var s1 := FinishCounting(cfg, r);
      r := SkipToMessage(cfg, s1);
    }
  }

  /** From between two events to the guard of cb_write, with the next message of the session. */
  lemma ToGuard(cfg: Config, s: State) returns (r: State)
    requires cfg.Good() && Reachable(cfg, s) && s.ring.Valid() && !s.crashed && s.lock.Nobody?
    requires s.ppc.Ready? && |s.accepted| < |Sent(cfg)|
    ensures Reachable(cfg, r) && OnlyEventsTaken(s, r) && r.lock.ByProducer?
    ensures r.ppc.Testing? && r.ppc.m == Sent(cfg)[|s.accepted|] && HasFrame(cfg.codec, r.ppc.m, r.ppc.f)
  {
    var s1 := SkipToMessage(cfg, s);
    r := Step(cfg, s1, Producer);
    StepIsReachable(cfg, s1, Producer);
  }

  /** What both stores together make of a state: the ring CircularBuffer.CbWrite promises. */
  function Stored(s: State): State
    requires s.ring.Valid() && s.ppc.Testing? && |s.ppc.f| <= s.ring.Space()
  {
    s.(ring := s.ring.Put(s.ppc.f), ppc := Unlocking(s.ppc.m), accepted := s.accepted + [s.ppc.m])
  }

  /** Left alone past its guard, the writer performs exactly the write of the in-place method, in one
      store or in two. */
  lemma UninterruptedWriteIsPut(s: State)
    requires s.ring.Valid() && s.ppc.Testing? && |s.ppc.f| <= s.ring.Space()
    ensures var r := TestAndStore(s);
            if r.ppc.MidWrap? then r.ring.Valid() && StoreSecond(r) == Stored(s) else r == Stored(s)
  {
    if s.ring.WrapsWriting(|s.ppc.f|) {
      StoreToEndShowsPrefix(s.ring, s.ppc.f);
    }
  }

  /** Past the guard, when there is room: the frame is stored, whether it wraps or not. */
  lemma ThroughStores(cfg: Config, s: State)
    requires cfg.Good() && Reachable(cfg, s) && s.ring.Valid() && !s.crashed
    requires s.ppc.Testing? && |s.ppc.f| <= s.ring.Space()
    ensures Reachable(cfg, Stored(s))
  {
    UninterruptedWriteIsPut(s);
    var r := TestAndStore(s);
    assert Step(cfg, s, Producer) == r;
    StepIsReachable(cfg, s, Producer);
    if r.ppc.MidWrap? {
      assert Step(cfg, r, Producer) == StoreSecond(r);
      StepIsReachable(cfg, r, Producer);
    }
  }

  /** Unread dots after one more was written: a full socket refuses it. */
  function Dotted(cfg: Config, dots: nat): nat {
    if dots < cfg.cap then dots + 1 else dots
  }

  /** The stored message is unlocked, its dot is sent, and it is counted. */
  lemma ThroughDot(cfg: Config, s: State) returns (r: State)
    requires cfg.Good() && Reachable(cfg, s) && s.ring.Valid() && !s.crashed && s.ppc.Unlocking?
    ensures Reachable(cfg, r)
    ensures r == s.(lock := Nobody, dots := Dotted(cfg, s.dots), ppc := Ready,
                    recv := s.recv + if s.ppc.m.kind.Stream? then 1 else 0)
  {
    var s1 := Step(cfg, s, Producer);
    StepIsReachable(cfg, s, Producer);
    var s2 := Step(cfg, s1, Producer);
    StepIsReachable(cfg, s1, Producer);
    r := FinishCounting(cfg, s2);
  }

  /** One whole message from the Solace thread: in the ring with its dot sent, and the thread at rest. */
  lemma WriteNext(cfg: Config, s: State) returns (r: State)
    requires cfg.Good() && Reachable(cfg, s) && s.ring.Valid() && !s.crashed && s.lock.Nobody?
    requires s.ppc.Ready? && |s.accepted| < |Sent(cfg)| && s.dots == 0 && s.ring.Size() + MAX_FRAME < s.ring.N()
    ensures Reachable(cfg, r) && r.ring.Valid() && r.ring.N() == s.ring.N()
    ensures r == s.(ring := r.ring, next := r.next, recv := r.recv, dropped := r.dropped, dots := 1,
                    accepted := s.accepted + [Sent(cfg)[|s.accepted|]])
    ensures s.ring.Size() < r.ring.Size() <= s.ring.Size() + MAX_FRAME
  {
    var s1 := ToGuard(cfg, s);
    PutAppends(s1.ring, s1.ppc.f);
    ThroughStores(cfg, s1);
    r := ThroughDot(cfg, Stored(s1));
  }

  // ---------------------------------------------------------------------------------------------
  // The q main thread runs, the Solace thread rests between two events.

  /** From a snapshot that is about to be read to the start of the drain loop, with the lock free. */
  lemma ConsumerCopies(cfg: Config, s: State) returns (r: State)
    requires cfg.Good() && Reachable(cfg, s) && s.ring.Valid() && !s.crashed
    requires s.cpc.WantRead? && s.lock.Nobody? && !s.ppc.Waiting?
    ensures s.qsize <= s.ring.Size() && s.qsize <= |s.rbuf| && |s.claim| == s.qsize
    ensures r == s.(rbuf := s.claim + s.rbuf[s.qsize..], ring := s.ring.AfterTake(s.qsize),
                    drains := s.drains + [s.claim], taken := s.claimedUpTo, cpc := Parsing)
    ensures Reachable(cfg, r) && r.ring.Valid()
  {
    ReachableIsRaw(cfg, s);
    TakeRemovesPrefix(s.ring, s.qsize);
    var s1 := Step(cfg, s, Consumer);
    assert s1 == s.(lock := ByConsumer, cpc := Reading);
    StepIsReachable(cfg, s, Consumer);
    var s2 := Step(cfg, s1, Consumer);
    assert s2 == s1.(rbuf := s.claim + s.rbuf[s.qsize..], ring := s.ring.AfterTake(s.qsize),
                     drains := s.drains + [s.claim], taken := s.claimedUpTo, cpc := UnlockRead);
    StepIsReachable(cfg, s1, Consumer);
    var s3 := Step(cfg, s2, Consumer);
    assert s3 == s2.(lock := Nobody, cpc := Signal);
    StepIsReachable(cfg, s2, Consumer);
    r := Step(cfg, s3, Consumer);
    assert r == s3.(cpc := Parsing);
    StepIsReachable(cfg, s3, Consumer);
  }

  /** What stays in the ring when the callback that is running is over. */
  function LeftInRing(s: State): int
    requires s.ring.Valid()
  {
    if s.cpc.Snapshot? then 0 else Unclaimed(s)
  }

  /** The callback that is running has bytes to parse. */
  predicate Hungry(s: State)
    requires s.ring.Valid()
  {
    (s.cpc.Snapshot? && s.ring.Size() > 0) || Claiming(s) || (Draining(s) && s.offset < s.qsize)
  }

  /** The messages parsed when the callback is over: at least one more, if there is anything to parse. */
  function Expected(s: State): nat
    requires s.ring.Valid()
  {
    s.processed + if Hungry(s) then 1 else 0
  }

  /** The callback that is running has made up its mind to call q and has not done so yet. */
  predicate WillDeliver(s: State)
    requires s.ring.Valid()
  {
    (s.cpc.Snapshot? && s.ring.Size() > 0) || Claiming(s) || Draining(s) || s.cpc.Deliver?
  }

  /** The calls to q when the callback is over. */
  function Batches(s: State): nat
    requires s.ring.Valid()
  {
    |s.delivered| + if WillDeliver(s) then 1 else 0
  }

  /** The callbacks when this one is over. */
  function Callbacks(s: State): nat {
    s.callbacks + if s.cpc.Idle? then 0 else 1
  }

  predicate CountsOn(s: State, r: State)
    requires s.ring.Valid() && r.ring.Valid()
  {
    s.delivered <= r.delivered && Batches(r) == Batches(s) && Callbacks(r) == Callbacks(s)
  }

  lemma LoneConsumerCounts(cfg: Config, s: State)
    requires Shape(cfg, s) && ClaimHolds(s) && ConsumerEnabled(s) && !s.cpc.Idle?
    ensures ConsumerStep(cfg, s).crashed || CountsOn(s, ConsumerStep(cfg, s))
  {
    match s.cpc
    case Reading =>
    case _ =>
  }

  /** What a lone consumer leaves alone, and what it promises. */
  predicate Advances(s: State, r: State)
    requires s.ring.Valid() && r.ring.Valid()
  {
    && CountsOn(s, r)
    && r.ppc.Ready? && r.dots == s.dots && r.accepted == s.accepted
    && LeftInRing(r) == LeftInRing(s) && Expected(r) >= Expected(s)
  }

  lemma LoneConsumerKeeps(cfg: Config, s: State)
    requires Raw(cfg, s) && !s.crashed && s.ppc.Ready? && !s.cpc.Idle?
    ensures ConsumerEnabled(s)
    ensures var r := ConsumerStep(cfg, s);
            && r.torn == s.torn
            && (r.crashed || (&& r.ppc.Ready? && r.dots == s.dots && r.accepted == s.accepted
                              && LeftInRing(r) == LeftInRing(s) && Expected(r) >= Expected(s)))
  {
    match s.cpc
    case Reading => TakeRemovesPrefix(s.ring, s.qsize);
    case _ =>
  }

  lemma LoneConsumerMoves(cfg: Config, s: State)
    requires Raw(cfg, s) && !s.crashed && s.ppc.Ready? && !s.cpc.Idle?
    ensures ConsumerEnabled(s)
    ensures ConsumerStep(cfg, s).torn == s.torn
    ensures ConsumerStep(cfg, s).crashed || Advances(s, ConsumerStep(cfg, s))
  {
    LoneConsumerKeeps(cfg, s);
    LoneConsumerCounts(cfg, s);
  }

  /** The callback that is running comes to its end, unless the drain loop dies. */
  lemma {:induction false} CallbackEnds(cfg: Config, s: State) returns (r: State)
    requires cfg.Good() && Reachable(cfg, s) && s.ring.Valid() && !s.crashed && s.ppc.Ready?
    ensures Reachable(cfg, r) && r.ring.Valid() && r.torn == s.torn
    ensures r.crashed || (r.cpc.Idle? && Advances(s, r))
    decreases Rank(cfg, s)
  {
    ReachableIsRaw(cfg, s);
    r := s;
    if !s.cpc.Idle? {
      LoneConsumerMoves(cfg, s);
      var s1 := Step(cfg, s, Consumer);
      StepIsReachable(cfg, s, Consumer);
      StepLowersRank(cfg, s, Consumer);
      ReachableIsRaw(cfg, s1);
      RankIsNatural(cfg, s1);
      r := s1;
      if !s1.crashed {
        r := CallbackEnds(cfg, s1);
      }
    }
  }
}
