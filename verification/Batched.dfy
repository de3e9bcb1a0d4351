/** The counter that getstats shows as `batched`. The comment at its declaration calls it the number of
    calls to q; it is the number of callbacks, and a session of two messages is enough to tell them apart. */
module Batched {
  import opened Framing
  import opened Protocol
  import opened RawInvariants
  import opened FrameInvariants
  import opened Delivery
  import opened Reachability

  // ---------------------------------------------------------------------------------------------
  // Two messages show a difference.

  /** A dot that outlived its bytes: its callback finds the ring empty. */
  lemma LateDot(cfg: Config, s: State) returns (r: State)
    requires cfg.Good() && Reachable(cfg, s) && s.ring.Valid() && !s.torn && s.ppc.Ready? && s.cpc.Idle?
    requires s.ring.Size() == 0 && s.dots > 0
    ensures Reachable(cfg, r) && r.cpc.Idle? && r.emptySnapshots > 0
  {
    ReachableIsRaw(cfg, s);
    var s1 := Step(cfg, s, Consumer);
    StepIsReachable(cfg, s, Consumer);
    var s2 := Step(cfg, s1, Consumer);
    assert s2 == TakeSnapshot(s1);
    StepIsReachable(cfg, s1, Consumer);
    r := Step(cfg, s2, Consumer);
    StepIsReachable(cfg, s2, Consumer);
  }

  /** Two messages: the first dot is read, the second message is stored with its dot, and one snapshot
      counts both. */
  lemma TwoMessagesOneDrain(cfg: Config) returns (r: State)
    requires cfg.Good() && cfg.n > 2 * MAX_FRAME && |Sent(cfg)| >= 2
    ensures Reachable(cfg, r) && r.cpc.Idle? && r.emptySnapshots > 0
  {
    var s0 := Start(cfg, 0);
    StartIsReachable(cfg);
    var s1 := WriteNext(cfg, s0);
    var s2 := Step(cfg, s1, Consumer);
    assert s2 == s1.(dots := 0, cpc := Snapshot);
    StepIsReachable(cfg, s1, Consumer);
    var s3 := WriteNext(cfg, s2);
    var s4 := CallbackEnds(cfg, s3);
    ReachableIsRaw(cfg, s4);
    r := LateDot(cfg, s4);
  }

  // ---------------------------------------------------------------------------------------------
  // A session of one message cannot show a difference.

  lemma AcceptedOfSession(cfg: Config, s: State)
    requires BooksKept(cfg, s)
    ensures s.accepted <= Sent(cfg)
  {
    AccountGrows(cfg.codec, cfg.input, s.next);
    if !s.ppc.Ready? {
      AccountGrows(cfg.codec, cfg.input, s.next - 1);
    }
  }

  lemma OneMessageOneCallback(cfg: Config, s: State)
    requires cfg.Good() && Raw(cfg, s) && s.cpc.Idle? && |Sent(cfg)| <= 1
    ensures s.emptySnapshots == 0
  {
    AcceptedOfSession(cfg, s);
    if s.emptySnapshots > 0 {
      assert |s.accepted| == 1 && s.drains == [] && s.dots == 0;
      WireOfFirst(cfg.codec, s.accepted);
      assert s.ring.Contents() == WireOf(cfg.codec, s.accepted) + Partial(s);
      NextOfSession(cfg, s);
    }
  }

  /** After this schedule no callback is running, and there were more callbacks than batches. */
  ghost predicate ShowsDifference(cfg: Config, schedule: seq<Who>)
    requires cfg.n >= 1
  {
    && Executable(cfg, Start(cfg, 0), schedule)
    && var s := Run(cfg, Start(cfg, 0), schedule); s.cpc.Idle? && s.callbacks > |s.delivered|
  }

  lemma DifferenceIsReached(cfg: Config) returns (schedule: seq<Who>)
    requires cfg.Good() && cfg.n > 2 * MAX_FRAME && |Sent(cfg)| >= 2
    ensures ShowsDifference(cfg, schedule)
  {
    var s := TwoMessagesOneDrain(cfg);
    ReachableIsRaw(cfg, s);
    schedule :| Executable(cfg, Start(cfg, 0), schedule) && Run(cfg, Start(cfg, 0), schedule) == s;
    assert CallbacksExplained(s);
  }

  /** Whether `batched` can differ from the number of batches handed to q, with no callback running,
      depends on the session alone: it can if and only if the session queues two messages or more. */
  lemma BatchedCanDifferIff(cfg: Config)
    requires cfg.Good() && cfg.n > 2 * MAX_FRAME
    ensures (exists schedule :: ShowsDifference(cfg, schedule)) <==> |Sent(cfg)| >= 2
  {
    if |Sent(cfg)| >= 2 {
      var _ := DifferenceIsReached(cfg);
    } else {
      forall schedule: seq<Who> | Executable(cfg, Start(cfg, 0), schedule)
        ensures !ShowsDifference(cfg, schedule)
      {
        var s := Run(cfg, Start(cfg, 0), schedule);
        Reached(cfg, 0, schedule);
        if s.cpc.Idle? {
          OneMessageOneCallback(cfg, s);
        }
      }
    }
  }
}
