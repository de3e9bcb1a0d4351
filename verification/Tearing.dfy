/** Which sessions can suffer a torn snapshot. The tail of the ring stands where the bytes written so far
    end, modulo the capacity, whatever the reader does; so the lengths of the frames alone decide which of
    them the wrap splits, and a split frame is all it takes for some schedule to tear. */
module Tearing {
  import opened Bytes
  import opened Division
  import opened RingModel
  import opened Framing
  import opened Messages
  import opened Protocol
  import opened RawInvariants
  import opened FrameInvariants
  import opened Delivery
  import opened Reachability

  /** Frame `k` of the session does not end before the end of the array, nor at it. */
  ghost predicate Straddles(cfg: Config, k: nat)
    requires cfg.Good() && k < |Sent(cfg)|
  {
    SentFits(cfg);
    |WireOf(cfg.codec, Sent(cfg)[..k])| % cfg.n + |Frame(cfg.codec.serialise(Sent(cfg)[k]))| > cfg.n
  }

  ghost predicate NoneStraddles(cfg: Config)
    requires cfg.Good()
  {
    forall k :: 0 <= k < |Sent(cfg)| ==> !Straddles(cfg, k)
  }

  // ---------------------------------------------------------------------------------------------
  // Where the tail stands.

  /** The tail stands where the accepted frames end; between the two stores of a split frame it has
      already jumped to 0, and they end where it came from. */
  ghost predicate Placed(cfg: Config, s: State)
    requires cfg.n >= 1
  {
    && AllFit(cfg.codec, s.accepted)
    && var written := |WireOf(cfg.codec, s.accepted)|;
       if TornWindow(s) then written % cfg.n == cfg.n - s.ppc.e else s.ring.t == written % cfg.n
  }

  lemma StoringKeepsPlaced(cfg: Config, s: State)
    requires Shape(cfg, s) && Placed(cfg, s) && s.ppc.Testing? && |s.ppc.f| <= s.ring.Space()
    ensures Placed(cfg, TestAndStore(s))
  {
    var f, written := s.ppc.f, |WireOf(cfg.codec, s.accepted)|;
    WireOfAppend(cfg.codec, s.accepted, s.ppc.m);
    if s.ring.WrapsWriting(|f|) {
      StoreToEndShowsPrefix(s.ring, f);
      if s.ring.N() - s.ring.t == |f| {
        ModWrap(written, |f|, cfg.n);
      }
    } else {
      ModStep(written, |f|, cfg.n);
    }
  }

  lemma SecondStoreKeepsPlaced(cfg: Config, s: State)
    requires Shape(cfg, s) && Placed(cfg, s) && s.ppc.MidWrap?
    ensures Placed(cfg, StoreSecond(s))
  {
    var f, written := s.ppc.f, |WireOf(cfg.codec, s.accepted)|;
    WireOfAppend(cfg.codec, s.accepted, s.ppc.m);
    if s.ppc.e < |f| {
      ModWrap(written, |f|, cfg.n);
    }
  }

  lemma ProducerKeepsPlaced(cfg: Config, s: State)
    requires Shape(cfg, s) && Placed(cfg, s) && ProducerEnabled(cfg, s)
    ensures Placed(cfg, ProducerStep(cfg, s))
  {
    match s.ppc
    case Testing(_, f) =>
      if |f| <= s.ring.Space() {
        StoringKeepsPlaced(cfg, s);
      }
    case MidWrap(_, _, _) => SecondStoreKeepsPlaced(cfg, s);
    case _ => OtherStepsShowNothing(cfg, s);
  }

  lemma ConsumerKeepsPlaced(cfg: Config, s: State)
    requires s.ring.Valid() && cfg.n >= 1 && Placed(cfg, s) && ConsumerEnabled(s)
    ensures Placed(cfg, ConsumerStep(cfg, s))
  {
    ConsumerLeavesProducer(cfg, s);
    assert ConsumerStep(cfg, s).ring.t == s.ring.t;
  }

  lemma StepKeepsPlaced(cfg: Config, s: State, who: Who)
    requires cfg.Good() && Raw(cfg, s) && Placed(cfg, s) && Enabled(cfg, s, who)
    ensures Placed(cfg, Step(cfg, s, who))
  {
    match who
    case Producer => ProducerKeepsPlaced(cfg, s);
    case Consumer => ConsumerKeepsPlaced(cfg, s);
    case SpuriousWakeUp =>
  }

  // ---------------------------------------------------------------------------------------------
  // No frame straddles: no schedule tears.

  /** The producer stands in the window only while it writes a straddling frame. */
  lemma WindowMeansStraddle(cfg: Config, s: State)
    requires cfg.Good() && Raw(cfg, s) && Placed(cfg, s) && TornWindow(s)
    ensures |s.accepted| < |Sent(cfg)| && Straddles(cfg, |s.accepted|)
  {
    NextOfSession(cfg, s);
    SentFits(cfg);
    assert Sent(cfg)[..|s.accepted|] == s.accepted;
  }

  lemma {:induction false} RunStaysWhole(cfg: Config, s: State, schedule: seq<Who>)
    requires cfg.Good() && NoneStraddles(cfg)
    requires Raw(cfg, s) && Placed(cfg, s) && !s.torn && Executable(cfg, s, schedule)
    ensures !Run(cfg, s, schedule).torn
    decreases |schedule|
  {
    if schedule != [] {
      var who := schedule[0];
      StepKeepsRaw(cfg, s, who);
      StepKeepsPlaced(cfg, s, who);
      if TornWindow(s) {
        WindowMeansStraddle(cfg, s);
      }
      OnlyWindowTears(cfg, s, who);
      RunStaysWhole(cfg, Step(cfg, s, who), schedule[1..]);
    }
  }

  lemma StartIsPlaced(cfg: Config, spurious: nat)
    requires cfg.Good()
    ensures Placed(cfg, Start(cfg, spurious))
  {
    assert WireOf(cfg.codec, []) == [];
  }

  lemma NoneStraddlesNoneTears(cfg: Config, spurious: nat, schedule: seq<Who>)
    requires cfg.Good() && NoneStraddles(cfg) && Executable(cfg, Start(cfg, spurious), schedule)
    ensures !Run(cfg, Start(cfg, spurious), schedule).torn
  {
    StartIsRaw(cfg, spurious);
    StartIsPlaced(cfg, spurious);
    RunStaysWhole(cfg, Start(cfg, spurious), schedule);
  }

  // ---------------------------------------------------------------------------------------------
  // A frame straddles: some schedule tears.

  lemma {:induction false} RunKeepsPlaced(cfg: Config, s: State, schedule: seq<Who>)
    requires cfg.Good() && Raw(cfg, s) && Placed(cfg, s) && Executable(cfg, s, schedule)
    ensures Placed(cfg, Run(cfg, s, schedule))
    decreases |schedule|
  {
    if schedule != [] {
      StepKeepsRaw(cfg, s, schedule[0]);
      StepKeepsPlaced(cfg, s, schedule[0]);
      RunKeepsPlaced(cfg, Step(cfg, s, schedule[0]), schedule[1..]);
    }
  }

  lemma ReachableIsPlaced(cfg: Config, s: State)
    requires cfg.Good() && Reachable(cfg, s)
    ensures Placed(cfg, s)
  {
    var schedule :| Executable(cfg, Start(cfg, 0), schedule) && Run(cfg, Start(cfg, 0), schedule) == s;
    StartIsRaw(cfg, 0);
    StartIsPlaced(cfg, 0);
    RunKeepsPlaced(cfg, Start(cfg, 0), schedule);
  }

  /** A ring that has received `k` messages, and both threads at rest. */
  ghost predicate QuietAfter(cfg: Config, s: State, k: nat) {
    && s.ring.Valid() && s.ring.N() == cfg.n && s.ring.Size() == 0
    && !s.crashed && !s.torn && s.lock.Nobody? && s.dots == 0 && s.ppc.Ready? && s.cpc.Idle?
    && |s.accepted| == k
  }

  lemma {:induction false} EventsForMessages(c: Codec, events: seq<Event>, k: nat) returns (j: nat)
    requires k <= |Account(c, events).sent|
    ensures j <= |events| && |Account(c, events[..j]).sent| == k
  {
    if k == |Account(c, events).sent| {
      j := |events|;
      assert events[..j] == events;
    } else {
      var fewer := events[..|events| - 1];
      j := EventsForMessages(c, fewer, k);
      assert fewer[..j] == events[..j];
    }
  }

  lemma StepAgrees(cfg: Config, j: nat, s: State, who: Who)
    requires j <= |cfg.input| && s.ring.Valid() && Enabled(cfg.(input := cfg.input[..j]), s, who) && s.next <= j
    ensures Enabled(cfg, s, who)
    ensures Step(cfg, s, who) == Step(cfg.(input := cfg.input[..j]), s, who)
    ensures Step(cfg, s, who).next <= j
  {
  }

  /** A run over the first events of a session is a run of the session. */
  lemma {:induction false} RunOfPrefix(cfg: Config, j: nat, s: State, schedule: seq<Who>)
    requires j <= |cfg.input| && s.ring.Valid() && s.next <= j
    requires Executable(cfg.(input := cfg.input[..j]), s, schedule)
    ensures Executable(cfg, s, schedule)
    ensures Run(cfg, s, schedule) == Run(cfg.(input := cfg.input[..j]), s, schedule)
    decreases |schedule|
  {
    if schedule != [] {
      StepAgrees(cfg, j, s, schedule[0]);
      RunOfPrefix(cfg, j, Step(cfg, s, schedule[0]), schedule[1..]);
    }
  }

  /** Any number of messages can be written and drained without a torn snapshot. */
  lemma ReachQuiet(cfg: Config, k: nat) returns (s: State)
    requires cfg.Good() && k <= |Sent(cfg)|
    ensures Reachable(cfg, s) && QuietAfter(cfg, s, k)
  {
    var j := EventsForMessages(cfg.codec, cfg.input, k);
    var part := cfg.(input := cfg.input[..j]);
    var start := Start(cfg, 0);
    assert Start(part, 0) == start;
    StartIsRaw(part, 0);
    StartIsFramed(part, 0);
    CanFinish(part, start);
    var rest :| Executable(part, start, rest) && Stuck(part, Run(part, start, rest)) && !Run(part, start, rest).torn;
    RunOfPrefix(cfg, j, start, rest);
    s := Run(part, start, rest);
    Reached(part, 0, rest);
    StuckMeansComplete(part, s);
    assert part.input[..s.next] == part.input;
  }

  /** `k` messages are accepted; the last of them is in the ring, and its dot is read. */
  lemma OneIsWaiting(cfg: Config, k: nat) returns (s: State)
    requires cfg.Good() && cfg.n > 2 * MAX_FRAME && 1 <= k < |Sent(cfg)|
    ensures Reachable(cfg, s) && s.ring.Valid() && s.ring.N() == cfg.n && !s.crashed && !s.torn && s.lock.Nobody?
    ensures s.cpc.Snapshot? && s.ppc.Ready? && s.dots == 0 && s.ring.Size() <= MAX_FRAME
    ensures |s.accepted| == k == s.taken + 1
  {
    var s0 := ReachQuiet(cfg, k - 1);
    QuietMeansTaken(cfg, s0);
    var s1 := WriteNext(cfg, s0);
    StepIsReachable(cfg, s1, Consumer);
    s := s1.(dots := 0, cpc := Snapshot);
  }

  lemma FirstDoesNotStraddle(cfg: Config)
    requires cfg.Good() && |Sent(cfg)| > 0
    ensures !Straddles(cfg, 0)
  {
    SentFits(cfg);
    assert WireOf(cfg.codec, Sent(cfg)[..0]) == [];
  }

  /** The frame before a straddling one is in the ring, its dot is read, and the first piece of the
      straddling one shows. */
  lemma OpenWindow(cfg: Config, k: nat) returns (s: State)
    requires cfg.Good() && cfg.n > 2 * MAX_FRAME && k < |Sent(cfg)| && Straddles(cfg, k)
    ensures Reachable(cfg, s) && s.ring.Valid() && !s.crashed && !s.torn && s.cpc.Snapshot? && TornWindow(s)
    ensures s.ring.Size() > 0 && s.dots == 0 && |s.accepted| == k == s.taken + 1
  {
    FirstDoesNotStraddle(cfg);
    var s1 := OneIsWaiting(cfg, k);
    var s2 := ToGuard(cfg, s1);
    s := SplitIsVisible(cfg, s2, k);
  }

  lemma QuietMeansTaken(cfg: Config, s: State)
    requires cfg.Good() && Reachable(cfg, s) && s.ring.Valid() && s.ring.Size() == 0 && !s.torn && s.ppc.Ready?
    ensures s.taken == |s.accepted|
  {
    ReachableIsRaw(cfg, s);
    RingHoldsMessages(cfg, s);
    NoBytesNoMessages(cfg.codec, s.accepted[s.taken..]);
  }

  lemma StraddleCanTear(cfg: Config, k: nat)
    requires cfg.Good() && cfg.n > 2 * MAX_FRAME && k < |Sent(cfg)| && Straddles(cfg, k)
    ensures exists schedule :: Executable(cfg, Start(cfg, 0), schedule) && Run(cfg, Start(cfg, 0), schedule).torn
  {
    var s := OpenWindow(cfg, k);
    StepIsReachable(cfg, s, Consumer);
    assert TakeSnapshot(s).torn;
  }

  /** At the guard with a straddling frame, the next store opens the window. */
  lemma SplitIsVisible(cfg: Config, s: State, k: nat) returns (r: State)
    requires cfg.Good() && k < |Sent(cfg)| && Straddles(cfg, k)
    requires Reachable(cfg, s) && s.ring.Valid() && s.ring.N() == cfg.n && !s.crashed && s.cpc.Snapshot?
    requires s.ppc.Testing? && s.ppc.m == Sent(cfg)[k] && HasFrame(cfg.codec, s.ppc.m, s.ppc.f)
    requires |s.accepted| == k && s.ring.Size() + MAX_FRAME < cfg.n
    ensures Reachable(cfg, r) && r.ring.Valid() && TornWindow(r) && r.ring.Size() > 0
    ensures r == s.(ring := r.ring, ppc := r.ppc)
  {
    ReachableIsRaw(cfg, s);
    ReachableIsPlaced(cfg, s);
    NextOfSession(cfg, s);
    SentFits(cfg);
    assert Sent(cfg)[..k] == s.accepted;
    StoreToEndShowsPrefix(s.ring, s.ppc.f);
    r := TestAndStore(s);
    StepIsReachable(cfg, s, Producer);
  }

  // ---------------------------------------------------------------------------------------------
  // The exact condition.

  /** With room for two frames, no schedule tears a snapshot if and only if no frame of the session
      straddles the end of the array. The condition is on the input alone. */
  lemma NoScheduleTearsIff(cfg: Config)
    requires cfg.Good() && cfg.n > 2 * MAX_FRAME
    ensures (forall spurious: nat, schedule: seq<Who> :: Executable(cfg, Start(cfg, spurious), schedule) ==>
               !Run(cfg, Start(cfg, spurious), schedule).torn)
       <==> NoneStraddles(cfg)
  {
    if NoneStraddles(cfg) {
      forall spurious: nat, schedule: seq<Who> | Executable(cfg, Start(cfg, spurious), schedule)
        ensures !Run(cfg, Start(cfg, spurious), schedule).torn
      {
        NoneStraddlesNoneTears(cfg, spurious, schedule);
      }
    } else {
      var k: nat :| k < |Sent(cfg)| && Straddles(cfg, k);
      StraddleCanTear(cfg, k);
    }
  }

  /** Everything drained or claimed is a list of whole frames. */
  ghost predicate TakesWholeFrames(s: State) {
    AllWhole(s.drains) && (Claiming(s) ==> Whole(s.claim))
  }

  /** The same in terms of what is taken from the ring: every schedule takes whole frames if and only if
      no frame straddles. */
  lemma AlwaysWholeIff(cfg: Config)
    requires cfg.Good() && cfg.n > 2 * MAX_FRAME
    ensures (forall spurious: nat, schedule: seq<Who> :: Executable(cfg, Start(cfg, spurious), schedule) ==>
               TakesWholeFrames(Run(cfg, Start(cfg, spurious), schedule)))
       <==> NoneStraddles(cfg)
  {
    forall spurious: nat, schedule: seq<Who> | Executable(cfg, Start(cfg, spurious), schedule)
      ensures TakesWholeFrames(Run(cfg, Start(cfg, spurious), schedule))
         <==> !Run(cfg, Start(cfg, spurious), schedule).torn
    {
      WholeIffNotTorn(cfg, spurious, schedule);
    }
    NoScheduleTearsIff(cfg);
  }

  /** The frames up to and including the k-th fit the array if all of them do. */
  lemma PrefixFits(c: Codec, sent: seq<Msg>, k: nat)
    requires AllFit(c, sent) && k < |sent|
    ensures |WireOf(c, sent[..k])| + |Frame(c.serialise(sent[k]))| <= |WireOf(c, sent)|
  {
    WireOfSplit(c, sent, k + 1);
    WireOfAppend(c, sent[..k], sent[k]);
    assert sent[..k] + [sent[k]] == sent[..k + 1];
  }

  /** A session whose frames fit the array all together is one case. */
  lemma ShortSessionsNeverStraddle(cfg: Config)
    requires cfg.Good() && (SentFits(cfg); |WireOf(cfg.codec, Sent(cfg))| <= cfg.n)
    ensures NoneStraddles(cfg)
  {
    SentFits(cfg);
    forall k | 0 <= k < |Sent(cfg)|
      ensures !Straddles(cfg, k)
    {
      PrefixFits(cfg.codec, Sent(cfg), k);
      var before := |WireOf(cfg.codec, Sent(cfg)[..k])|;
      QuotientIs(before, 0, before, cfg.n);
    }
  }

  /** A session of frames of one length that divides the capacity is another, however long it is. */
  lemma EvenFramesNeverStraddle(cfg: Config, length: nat, slots: nat)
    requires cfg.Good() && cfg.n == slots * length
    requires forall k :: 0 <= k < |Sent(cfg)| ==> LONG_BYTES + |cfg.codec.serialise(Sent(cfg)[k])| == length
    ensures NoneStraddles(cfg)
  {
    SentFits(cfg);
    forall k | 0 <= k < |Sent(cfg)|
      ensures !Straddles(cfg, k)
    {
      EvenFramesEnd(cfg.codec, Sent(cfg)[..k], length);
      MultipleModMultiple(k, length, slots);
    }
  }

  lemma {:induction false} EvenFramesEnd(c: Codec, ms: seq<Msg>, length: nat)
    requires AllFit(c, ms) && forall k :: 0 <= k < |ms| ==> LONG_BYTES + |c.serialise(ms[k])| == length
    ensures |WireOf(c, ms)| == |ms| * length
  {
    if ms != [] {
      WireOfFirst(c, ms);
      EvenFramesEnd(c, ms[1..], length);
      assert |ms| * length == length + (|ms| - 1) * length;
    }
  }
}
