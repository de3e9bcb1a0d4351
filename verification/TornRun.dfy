/** A torn snapshot with the capacity of the original, 1,000,000 bytes: a schedule after which q receives
    a message that nobody sent. Every frame of this session has 507 bytes; after 1971 of them have been
    written and drained one by one, the next one is left in the ring, and the 1973rd is split by the
    wrap just when the unlocked snapshot is taken. */
module TornRun {
  import opened Bytes
  import opened RingModel
  import opened Framing
  import opened Messages
  import opened Protocol
  import opened RawInvariants
  import opened Reachability

  // ---------------------------------------------------------------------------------------------
  // A codec: a kind byte, the sequence number in base 128, the body.

  function Digits(n: nat): (d: seq<byte>)
    ensures d != []
  {
    if n < 128 then [n] else [128 + n % 128] + Digits(n / 128)
  }

  function ReadDigits(b: seq<byte>): (nat, seq<byte>) {
    if b == [] then (0, [])
    else if b[0] < 128 then (b[0], b[1..])
    else var (n, rest) := ReadDigits(b[1..]); (b[0] - 128 + 128 * n, rest)
  }

  function Serialise(m: Msg): seq<byte> {
    [if m.kind.Stream? then 0 else 1] + (Digits(m.seqn) + m.body)
  }

  function Deserialise(b: seq<byte>): Msg {
    if b == [] then Msg(Stream, 0, []) else
      var (n, body) := ReadDigits(b[1..]);
      Msg(if b[0] == 0 then Stream else Admin, n, body)
  }

  lemma {:induction false} DigitsRoundTrip(n: nat, rest: seq<byte>)
    ensures ReadDigits(Digits(n) + rest) == (n, rest)
  {
    var b := Digits(n) + rest;
    if n < 128 {
      assert b[1..] == rest;
    } else {
      DigitsRoundTrip(n / 128, rest);
      assert b[1..] == Digits(n / 128) + rest;
    }
  }

  lemma DeserialiseUndoes(m: Msg)
    ensures Deserialise(Serialise(m)) == m
  {
    DigitsRoundTrip(m.seqn, m.body);
    assert Serialise(m)[1..] == Digits(m.seqn) + m.body;
  }

  // ---------------------------------------------------------------------------------------------
  // The session.

  const CAPACITY: nat := 1_000_000
  const FRAME: nat := 507
  /** Messages drained one by one before the interesting part. */
  const ROUNDS: nat := 1971

  function Ones(n: nat): (b: seq<byte>)
    ensures |b| == n
  {
    seq(n, _ => 1)
  }

  /** As many ones as make the serialised message 499 bytes long. */
  function Body(i: nat): seq<byte> {
    if |Digits(i)| <= 498 then Ones(498 - |Digits(i)|) else []
  }

  function Session(): Config {
    Config(Codec(Serialise, Deserialise), seq(ROUNDS + 2, i requires i >= 0 => Event(Stream, Body(i))), CAPACITY, 1)
  }

  function Nth(i: nat): Msg {
    Msg(Stream, i, Body(i))
  }

  lemma NthIsFull(i: nat)
    requires i < ROUNDS + 2
    ensures |Serialise(Nth(i))| == 499 && |Frame(Serialise(Nth(i)))| == FRAME
    ensures Session().input[i] == Event(Stream, Body(i))
  {
    assert |Digits(i)| <= 2 by {
      if i >= 128 {
        assert Digits(i) == [128 + i % 128] + Digits(i / 128);
        assert Digits(i / 128) == [i / 128];
      }
    }
  }

  function NthFrame(i: nat): (f: seq<byte>)
    requires i < ROUNDS + 2
    ensures |f| == FRAME
  {
    NthIsFull(i);
    Frame(Serialise(Nth(i)))
  }

  lemma SessionIsGood()
    ensures Session().Good()
  {
    forall m: Msg
      ensures |Serialise(m)| > 0 && Deserialise(Serialise(m)) == m
    {
      DeserialiseUndoes(m);
    }
  }

  // ---------------------------------------------------------------------------------------------
  // One undisturbed round: a message is written, then drained.

  /** Both threads are at rest, the ring is empty at position `p`, and rbuf was used up to one frame. */
  ghost predicate Quiet(s: State, p: nat, i: nat) {
    && s.ring.Valid() && s.ring.N() == CAPACITY && s.ring.h == s.ring.t == p
    && !s.crashed && !s.torn && s.lock.Nobody? && s.dots == 0
    && s.ppc.Ready? && s.next == s.recv == i && s.cpc.Idle?
    && |s.rbuf| == CAPACITY && (forall k :: FRAME <= k < CAPACITY ==> s.rbuf[k] == 0)
  }

  /** The producer is at its guard with message `i`. */
  lemma ProducerReachesGuard(s: State, i: nat)
    requires Reachable(Session(), s) && s.ring.Valid() && s.lock.Nobody? && !s.crashed
    requires s.ppc.Ready? && s.next == s.recv == i < ROUNDS + 2
    ensures var m := Nth(i);
            var r := s.(next := i + 1, lock := ByProducer, ppc := Testing(m, NthFrame(i)));
            Reachable(Session(), r)
  {
    NthIsFull(i);
    var m, f := Nth(i), NthFrame(i);
    var s1 := Step(Session(), s, Producer);
    assert s1 == s.(next := i + 1, ppc := WantLock(m, f));
    StepIsReachable(Session(), s, Producer);
    var s2 := Step(Session(), s1, Producer);
    assert s2 == s1.(lock := ByProducer, ppc := Testing(m, f));
    StepIsReachable(Session(), s1, Producer);
  }

  /** From the guard, when the frame fits before the end of the array, to rest. */
  lemma ProducerFinishes(s: State)
    requires Reachable(Session(), s) && s.ring.Valid() && !s.crashed && s.ppc.Testing? && s.ppc.m.kind.Stream?
    requires |s.ppc.f| <= s.ring.Space() && !s.ring.WrapsWriting(|s.ppc.f|) && s.dots == 0
    ensures Reachable(Session(), s.(ring := s.ring.StoreRest(s.ppc.f), lock := Nobody, dots := 1, ppc := Ready,
                         recv := s.recv + 1, accepted := s.accepted + [s.ppc.m]))
  {
    var m, f := s.ppc.m, s.ppc.f;
    StoreRestAppends(s.ring, f);
    var s1 := Step(Session(), s, Producer);
    assert s1 == s.(ring := s.ring.StoreRest(f), ppc := Unlocking(m), accepted := s.accepted + [m]);
    StepIsReachable(Session(), s, Producer);
    var s2 := Step(Session(), s1, Producer);
    assert s2 == s1.(lock := Nobody, ppc := SendDot(m));
    StepIsReachable(Session(), s1, Producer);
    var s3 := Step(Session(), s2, Producer);
    assert s3 == s2.(dots := 1, ppc := Counting);
    StepIsReachable(Session(), s2, Producer);
    var s4 := Step(Session(), s3, Producer);
    assert s4 == s3.(recv := s.recv + 1, ppc := Ready);
    StepIsReachable(Session(), s3, Producer);
  }

  lemma ConsumerTakesSnapshot(s: State)
    requires Reachable(Session(), s) && s.ring.Valid() && !s.crashed && s.cpc.Snapshot? && s.ring.Size() > 0
    ensures Reachable(Session(), s.(qsize := s.ring.Size(), offset := 0, batch := [], cpc := WantRead,
                         claim := s.ring.Contents(), claimedUpTo := |s.accepted|, torn := s.torn || TornWindow(s)))
  {
    StepIsReachable(Session(), s, Consumer);
  }

  lemma ConsumerParses(s: State, p: Payload)
    requires Reachable(Session(), s) && s.ring.Valid() && !s.crashed && s.cpc.Parsing? && s.offset < s.qsize
    requires ParseAt(s.rbuf, s.offset) == Got(p, s.offset + LONG_BYTES + |p|)
    ensures Reachable(Session(), s.(batch := s.batch + [Deserialise(p)], offset := s.offset + LONG_BYTES + |p|,
                         processed := s.processed + 1))
  {
    StepIsReachable(Session(), s, Consumer);
  }

  lemma ConsumerDelivers(s: State)
    requires Reachable(Session(), s) && s.ring.Valid() && !s.crashed && s.cpc.Parsing? && s.offset >= s.qsize
    ensures Reachable(Session(), s.(delivered := s.delivered + [s.batch], batch := [],
                                    callbacks := s.callbacks + 1, cpc := Idle))
  {
    var s1 := Step(Session(), s, Consumer);
    assert s1 == s.(cpc := Deliver);
    StepIsReachable(Session(), s, Consumer);
    var s2 := Step(Session(), s1, Consumer);
    assert s2 == s1.(delivered := s.delivered + [s.batch], batch := [], cpc := CountBatch);
    StepIsReachable(Session(), s1, Consumer);
    StepIsReachable(Session(), s2, Consumer);
  }

  /** One message written at `p` and resting in the ring, its dot unread. */
  lemma WriteOne(s: State, p: nat, i: nat) returns (r: State)
    requires Reachable(Session(), s) && Quiet(s, p, i) && i < ROUNDS + 1 && p + FRAME < CAPACITY
    ensures Reachable(Session(), r) && r.ring == s.ring.StoreRest(NthFrame(i)) && r.ring.Valid()
    ensures r.ring.Contents() == NthFrame(i)
    ensures r == s.(ring := r.ring, dots := 1, next := i + 1, recv := i + 1, accepted := s.accepted + [Nth(i)])
  {
    NthIsFull(i);
    ProducerReachesGuard(s, i);
    var m := Nth(i);
    var s1 := s.(next := i + 1, lock := ByProducer, ppc := Testing(m, NthFrame(i)));
    StoreRestAppends(s.ring, s1.ppc.f);
    ProducerFinishes(s1);
    r := s1.(ring := s.ring.StoreRest(s1.ppc.f), lock := Nobody, dots := 1, ppc := Ready,
             recv := s.recv + 1, accepted := s.accepted + [m]);
  }

  /** The one frame in the ring is counted, copied and at the start of the drain loop. */
  lemma CopyOne(s: State, i: nat) returns (r: State)
    requires Reachable(Session(), s) && s.ring.Valid() && !s.crashed && s.lock.Nobody? && s.ppc.Ready?
    requires s.cpc.Idle? && s.dots == 1 && i < ROUNDS + 2 && s.ring.Contents() == NthFrame(i)
    ensures Reachable(Session(), r) && r.ring == s.ring.AfterTake(FRAME) && r.ring.Valid()
    ensures FRAME <= |s.rbuf| && r.rbuf == NthFrame(i) + s.rbuf[FRAME..]
    ensures r == s.(dots := 0, ring := r.ring, rbuf := r.rbuf, qsize := FRAME, offset := 0, batch := [],
                    claim := NthFrame(i), claimedUpTo := |s.accepted|, taken := |s.accepted|,
                    drains := s.drains + [NthFrame(i)], cpc := Parsing)
  {
    var s1 := Step(Session(), s, Consumer);
    assert s1 == s.(dots := 0, cpc := Snapshot);
    StepIsReachable(Session(), s, Consumer);
    ConsumerTakesSnapshot(s1);
    SessionIsGood();
    r := ConsumerCopies(Session(), TakeSnapshot(s1));
  }

  lemma Round(s: State, p: nat, i: nat) returns (r: State)
    requires Reachable(Session(), s) && Quiet(s, p, i) && i < ROUNDS && p + FRAME < CAPACITY
    ensures Reachable(Session(), r) && Quiet(r, p + FRAME, i + 1)
  {
    NthIsFull(i);
    var s1 := WriteOne(s, p, i);
    var s4 := CopyOne(s1, i);
    FirstFrameParses(s4, i);
    ConsumerParses(s4, Serialise(Nth(i)));
    var s5 := s4.(batch := s4.batch + [Deserialise(Serialise(Nth(i)))], offset := FRAME, processed := s4.processed + 1);
    ConsumerDelivers(s5);
    r := s5.(delivered := s5.delivered + [s5.batch], batch := [], callbacks := s5.callbacks + 1, cpc := Idle);
    forall k | FRAME <= k < CAPACITY
      ensures r.rbuf[k] == 0
    {
      assert r.rbuf[k] == s.rbuf[FRAME..][k - FRAME] == s.rbuf[k];
    }
  }

  lemma FirstFrameParses(s: State, i: nat)
    requires i < ROUNDS + 2 && s.offset == 0 && NthFrame(i) <= s.rbuf
    ensures ParseAt(s.rbuf, 0) == Got(Serialise(Nth(i)), FRAME)
  {
    NthIsFull(i);
    ParseFrame(s.rbuf, 0, Serialise(Nth(i)));
  }

  lemma {:induction false} Rounds(i: nat) returns (s: State)
    requires i <= ROUNDS
    ensures Reachable(Session(), s) && Quiet(s, FRAME * i, i)
  {
    if i == 0 {
      s := Start(Session(), 0);
      StartIsReachable(Session());
    } else {
      var before := Rounds(i - 1);
      s := Round(before, FRAME * (i - 1), i - 1);
    }
  }

  // ---------------------------------------------------------------------------------------------
  // The torn snapshot.

  /** Bytes of the last frame that fit before the end of the array. */
  const CUT: nat := 196

  /** The last message is split by the wrap: 196 of its 507 bytes are visible. */
  lemma LastMessageIsSplit() returns (s: State)
    ensures Reachable(Session(), s) && s.ring.Valid() && !s.crashed && !s.torn && s.lock.ByProducer? && s.dots == 0
    ensures s.cpc.Snapshot? && s.ppc == MidWrap(Nth(ROUNDS + 1), NthFrame(ROUNDS + 1), CUT)
    ensures s.ring.Contents() == NthFrame(ROUNDS) + NthFrame(ROUNDS + 1)[..CUT]
    ensures |s.rbuf| == CAPACITY && forall k :: FRAME <= k < CAPACITY ==> s.rbuf[k] == 0
  {
    var s0 := Rounds(ROUNDS);
    var s1 := WriteOne(s0, FRAME * ROUNDS, ROUNDS);
    var s2 := Step(Session(), s1, Consumer);
    assert s2 == s1.(dots := 0, cpc := Snapshot);
    StepIsReachable(Session(), s1, Consumer);
    ProducerReachesGuard(s2, ROUNDS + 1);
    var m, f := Nth(ROUNDS + 1), NthFrame(ROUNDS + 1);
    var s3 := s2.(next := ROUNDS + 2, lock := ByProducer, ppc := Testing(m, f));
    assert s3.ring.WrapsWriting(FRAME) && s3.ring.N() - s3.ring.t == CUT;
    StoreToEndShowsPrefix(s3.ring, f);
    s := Step(Session(), s3, Producer);
    assert s == s3.(ring := s3.ring.StoreToEnd(f), ppc := MidWrap(m, f, CUT));
    StepIsReachable(Session(), s3, Producer);
  }

  /** The snapshot counts the piece, and the bytes it counts are what lands in rbuf. */
  lemma SnapshotIsTorn() returns (s: State)
    ensures Reachable(Session(), s) && s.ring.Valid() && !s.crashed && s.torn && s.cpc.Parsing?
    ensures s.offset == 0 && s.qsize == FRAME + CUT && s.batch == []
    ensures |s.rbuf| == CAPACITY && (forall k :: FRAME + CUT <= k < CAPACITY ==> s.rbuf[k] == 0)
    ensures s.rbuf[..FRAME + CUT] == NthFrame(ROUNDS) + NthFrame(ROUNDS + 1)[..CUT]
  {
    var s0 := LastMessageIsSplit();
    ConsumerTakesSnapshot(s0);
    var s1 := TakeSnapshot(s0);
    assert s1 == s0.(qsize := FRAME + CUT, offset := 0, batch := [], cpc := WantRead, claim := s0.ring.Contents(),
                     claimedUpTo := |s0.accepted|, torn := true);
    var s2 := ProducerReleases(s1);
    SessionIsGood();
    s := ConsumerCopies(Session(), s2);
    forall k | FRAME + CUT <= k < CAPACITY
      ensures s.rbuf[k] == 0
    {
      assert s.rbuf[k] == s0.rbuf[FRAME + CUT..][k - (FRAME + CUT)] == s0.rbuf[k];
    }
  }

  lemma ProducerReleases(s: State) returns (r: State)
    requires Reachable(Session(), s) && s.ring.Valid() && !s.crashed && s.lock.ByProducer? && s.ppc.MidWrap?
    ensures Reachable(Session(), r) && r.ring.Valid() && !r.crashed && r.lock.Nobody? && r.ppc.SendDot?
    ensures r == s.(ring := r.ring, lock := Nobody, ppc := r.ppc, accepted := r.accepted)
  {
    SessionIsGood();
    ReachableIsRaw(Session(), s);
    var s1 := Step(Session(), s, Producer);
    ProducerShows(Session(), s);
    StepIsReachable(Session(), s, Producer);
    r := Step(Session(), s1, Producer);
    StepIsReachable(Session(), s1, Producer);
  }

  /** The message that comes out: the head of the last message, its missing bytes read as stale zeros. */
  function Bogus(): Msg {
    Msg(Stream, ROUNDS + 1, Ones(185) + seq(311, _ => 0))
  }

  lemma LastMessageBytes()
    ensures NthFrame(ROUNDS + 1)[..CUT] == LongBytes(499) + ([0, 180, 15] + Ones(185))
    ensures Serialise(Bogus()) == [0, 180, 15] + Ones(185) + seq(311, _ => 0)
  {
    NthIsFull(ROUNDS + 1);
    assert Digits(15) == [15];
    assert Digits(ROUNDS + 1) == [180] + Digits(15) == [180, 15];
    var m := Nth(ROUNDS + 1);
    assert m.body == Ones(496);
    assert Serialise(m) == [0, 180, 15] + Ones(496);
    assert NthFrame(ROUNDS + 1) == LongBytes(499) + Serialise(m);
  }

  lemma BogusParses(s: State)
    requires |s.rbuf| == CAPACITY && (forall k :: FRAME + CUT <= k < CAPACITY ==> s.rbuf[k] == 0)
    requires s.rbuf[FRAME..FRAME + CUT] == NthFrame(ROUNDS + 1)[..CUT]
    ensures ParseAt(s.rbuf, FRAME) == Got(Serialise(Bogus()), FRAME + FRAME)
  {
    LastMessageBytes();
    var p := Serialise(Bogus());
    assert |p| == 499;
    var head := s.rbuf[FRAME..FRAME + CUT];
    assert s.rbuf[FRAME + CUT..FRAME + FRAME] == seq(311, _ => 0);
    assert s.rbuf[FRAME..FRAME + FRAME] == head + s.rbuf[FRAME + CUT..FRAME + FRAME];
    assert s.rbuf[FRAME..FRAME + FRAME] == Frame(p);
    ParseFrame(s.rbuf, FRAME, p);
  }

  /** Every body of the session consists of ones. */
  lemma {:induction false} SentBodiesAreOnes(k: nat)
    requires k <= ROUNDS + 2
    ensures forall i :: 0 <= i < |Account(Session().codec, Session().input[..k]).sent| ==>
              0 !in Account(Session().codec, Session().input[..k]).sent[i].body
  {
    if k > 0 {
      SentBodiesAreOnes(k - 1);
      AccountNext(Session().codec, Session().input, k - 1);
      NthIsFull(k - 1);
      assert 0 !in Body(k - 1);
    } else {
      assert Session().input[..0] == [];
    }
  }

  lemma BogusWasNeverSent()
    ensures Bogus() !in Account(Session().codec, Session().input).sent
  {
    SentBodiesAreOnes(ROUNDS + 2);
    assert Session().input[..ROUNDS + 2] == Session().input;
    assert Bogus().body[185] == 0;
  }

  /** The drain loop parses the intact frame ... */
  lemma IntactFrameParses() returns (s: State)
    ensures Reachable(Session(), s) && s.ring.Valid() && !s.crashed && s.torn && s.cpc.Parsing?
    ensures s.offset == FRAME && s.qsize == FRAME + CUT && |s.batch| == 1
    ensures |s.rbuf| == CAPACITY && (forall k :: FRAME + CUT <= k < CAPACITY ==> s.rbuf[k] == 0)
    ensures s.rbuf[FRAME..FRAME + CUT] == NthFrame(ROUNDS + 1)[..CUT]
  {
    var s0 := SnapshotIsTorn();
    var p := Serialise(Nth(ROUNDS));
    NthIsFull(ROUNDS);
    var front := s0.rbuf[..FRAME + CUT];
    assert front[..FRAME] == NthFrame(ROUNDS) && front[FRAME..] == NthFrame(ROUNDS + 1)[..CUT];
    assert s0.rbuf[..FRAME] == front[..FRAME] && s0.rbuf[FRAME..FRAME + CUT] == front[FRAME..];
    FirstFrameParses(s0, ROUNDS);
    ConsumerParses(s0, p);
    s := s0.(batch := s0.batch + [Deserialise(p)], offset := FRAME, processed := s0.processed + 1);
  }

  /** ... and then the piece. */
  lemma BogusReachesBatch() returns (s: State)
    ensures Reachable(Session(), s) && s.ring.Valid() && !s.crashed && s.torn && s.cpc.Parsing? && s.offset >= s.qsize
    ensures |s.batch| == 2 && s.batch[1] == Bogus()
  {
    var s0 := IntactFrameParses();
    BogusParses(s0);
    DeserialiseUndoes(Bogus());
    ConsumerParses(s0, Serialise(Bogus()));
    s := s0.(batch := s0.batch + [Bogus()], offset := FRAME + FRAME, processed := s0.processed + 1);
  }

  /** With the original capacity, and with nothing but whole events coming in, a schedule exists after
      which q has received a message that no event of the session gave rise to. */
  lemma TornSnapshotCorrupts()
    ensures exists schedule ::
              && Executable(Session(), Start(Session(), 0), schedule)
              && var s := Run(Session(), Start(Session(), 0), schedule);
                 && s.torn && !s.crashed && s.cpc.Idle?
                 && Bogus() in Flat(s.delivered)
                 && Bogus() !in Account(Session().codec, Session().input).sent
  {
    var s0 := BogusReachesBatch();
    ConsumerDelivers(s0);
    var s := s0.(delivered := s0.delivered + [s0.batch], batch := [], callbacks := s0.callbacks + 1, cpc := Idle);
    FlatAppend(s0.delivered, s0.batch);
    assert Flat(s.delivered)[|Flat(s0.delivered)| + 1] == Bogus();
    BogusWasNeverSent();
  }
}
