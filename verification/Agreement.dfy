/** The protocol, run without interleaving, does what the methods in place promise: a write left alone is
    FeedHandler.WriteToBuffer, a callback left alone is FeedHandler.Callback. */
module Agreement {
  import opened RingModel
  import opened Messages
  import opened Protocol
  import opened RawInvariants
  import opened FrameInvariants
  import opened Delivery
  import opened Reachability

  /** A frame that fits: the ring of Put, one dot more unless the socket is full, one message accepted, and
      a stream message counted. */
  lemma WriteAgrees(cfg: Config, s: State) returns (r: State)
    requires cfg.Good() && Reachable(cfg, s) && s.ring.Valid() && !s.crashed && s.lock.Nobody?
    requires s.ppc.WantLock? && |s.ppc.f| <= s.ring.Space()
    ensures Reachable(cfg, r)
    ensures r == s.(ring := s.ring.Put(s.ppc.f), ppc := Ready, dots := Dotted(cfg, s.dots),
                    accepted := s.accepted + [s.ppc.m],
                    recv := s.recv + if s.ppc.m.kind.Stream? then 1 else 0)
  {
    var s1 := Step(cfg, s, Producer);
    StepIsReachable(cfg, s, Producer);
    ThroughStores(cfg, s1);
    PutAppends(s1.ring, s1.ppc.f);
    r := ThroughDot(cfg, Stored(s1));
  }

  /** A frame that does not fit: the writer waits, and nothing else has changed. */
  lemma WaitAgrees(cfg: Config, s: State)
    requires cfg.Good() && Reachable(cfg, s) && s.ring.Valid() && !s.crashed && s.lock.Nobody?
    requires s.ppc.WantLock? && |s.ppc.f| > s.ring.Space()
    ensures Reachable(cfg, s.(ppc := Waiting(s.ppc.m, s.ppc.f)))
  {
    var s1 := Step(cfg, s, Producer);
    StepIsReachable(cfg, s, Producer);
    StepIsReachable(cfg, s1, Producer);
    assert Step(cfg, s1, Producer) == s.(ppc := Waiting(s.ppc.m, s.ppc.f));
  }

  lemma FlatOneMore(a: seq<seq<Msg>>, b: seq<seq<Msg>>)
    requires a <= b && |b| == |a| + 1
    ensures Flat(b) == Flat(a) + b[|a|]
  {
    assert b == a + [b[|a|]];
    FlatAppend(a, b[|a|]);
  }

  /** The callback takes one dot and leaves the ring empty, is counted, and hands q exactly the messages
      that were in the ring, as one batch, or makes no call if there were none. */
  lemma CallbackAgrees(cfg: Config, s: State) returns (r: State)
    requires cfg.Good() && Reachable(cfg, s) && s.ring.Valid() && !s.crashed && !s.torn
    requires s.ppc.Ready? && s.cpc.Idle? && s.dots > 0
    ensures Reachable(cfg, r) && r.ring.Valid() && !r.crashed && r.cpc.Idle? && r.ppc.Ready?
    ensures r.dots == s.dots - 1 && r.callbacks == s.callbacks + 1 && r.ring.Size() == 0
    ensures r.accepted == s.accepted && s.processed <= |s.accepted| == r.processed
    ensures r.delivered == s.delivered + if s.ring.Size() == 0 then [] else [s.accepted[s.processed..]]
  {
    var s1 := Step(cfg, s, Consumer);
    assert s1 == s.(dots := s.dots - 1, cpc := Snapshot);
    StepIsReachable(cfg, s, Consumer);
    r := CallbackEnds(cfg, s1);
    ReachableIsRaw(cfg, s);
    ReachableIsRaw(cfg, r);
    assert !r.crashed && |r.delivered| == |s.delivered| + if s.ring.Size() == 0 then 0 else 1;
    EmptyMeansProcessed(cfg, r);
    AtRestBatchIsEmpty(cfg, s);
    BatchIsTheRest(s, r);
  }

  lemma AtRestBatchIsEmpty(cfg: Config, s: State)
    requires FramesKept(cfg.codec, s) && s.cpc.Idle?
    ensures s.processed <= |s.accepted| && Flat(s.delivered) == s.accepted[..s.processed]
  {
  }

  /** The one batch between two states at rest. */
  lemma BatchIsTheRest(s: State, r: State)
    requires s.processed <= |s.accepted| && Flat(s.delivered) == s.accepted[..s.processed]
    requires s.delivered <= r.delivered && Flat(r.delivered) == s.accepted && |r.delivered| <= |s.delivered| + 1
    ensures r.delivered == s.delivered + if |r.delivered| == |s.delivered| then [] else [s.accepted[s.processed..]]
  {
    if |r.delivered| > |s.delivered| {
      FlatOneMore(s.delivered, r.delivered);
      SameTail(s.accepted, s.processed, r.delivered[|s.delivered|]);
    }
  }

  lemma SameTail(all: seq<Msg>, k: nat, tail: seq<Msg>)
    requires k <= |all| && all == all[..k] + tail
    ensures tail == all[k..]
  {
  }

  /** With the ring empty and no callback running, everything accepted was handed over. */
  lemma EmptyMeansProcessed(cfg: Config, s: State)
    requires Raw(cfg, s) && FramesKept(cfg.codec, s) && s.cpc.Idle? && s.ppc.Ready? && s.ring.Size() == 0
    ensures s.processed == |s.accepted| && Flat(s.delivered) == s.accepted
  {
    RingHoldsMessages(cfg, s);
    NoBytesNoMessages(cfg.codec, s.accepted[s.taken..]);
    assert s.accepted[..s.processed] == s.accepted;
  }
}
