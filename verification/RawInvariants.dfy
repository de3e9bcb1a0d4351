/** What every step of the protocol keeps, whatever the schedule: the shape of the state, mutual
    exclusion, the bytes, the snapshot, the dots and the waiting writer. None of it depends on frames. */
module RawInvariants {
  import opened Bytes
  import opened RingModel
  import opened Framing
  import opened Messages
  import opened Protocol

  // ---------------------------------------------------------------------------------------------
  // Messages as bytes.

  function Payloads(c: Codec, ms: seq<Msg>): (ps: seq<Payload>)
    ensures |ps| == |ms|
    ensures forall i :: 0 <= i < |ms| ==> ps[i] == c.serialise(ms[i])
  {
    seq(|ms|, i requires 0 <= i < |ms| => c.serialise(ms[i]))
  }

  /** Every message passes the size check, so its payload is one the drain loop accepts. */
  ghost predicate AllFit(c: Codec, ms: seq<Msg>) {
    forall i :: 0 <= i < |ms| ==> Sendable(c.serialise(ms[i]))
  }

  ghost function WireOf(c: Codec, ms: seq<Msg>): seq<byte>
    requires AllFit(c, ms)
  {
    Wire(Payloads(c, ms))
  }

  lemma WireOfAppend(c: Codec, ms: seq<Msg>, m: Msg)
    requires AllFit(c, ms) && Sendable(c.serialise(m))
    ensures AllFit(c, ms + [m])
    ensures WireOf(c, ms + [m]) == WireOf(c, ms) + Frame(c.serialise(m))
  {
    assert Payloads(c, ms + [m]) == Payloads(c, ms) + [c.serialise(m)];
    WireAppend(Payloads(c, ms), c.serialise(m));
  }

  lemma WireOfSplit(c: Codec, ms: seq<Msg>, k: nat)
    requires AllFit(c, ms) && k <= |ms|
    ensures AllFit(c, ms[..k]) && AllFit(c, ms[k..])
    ensures WireOf(c, ms) == WireOf(c, ms[..k]) + WireOf(c, ms[k..])
  {
    assert Payloads(c, ms[..k]) == Payloads(c, ms)[..k];
    assert Payloads(c, ms[k..]) == Payloads(c, ms)[k..];
    WireSplit(Payloads(c, ms), k);
  }

  // ---------------------------------------------------------------------------------------------
  // Shape and mutual exclusion.

  ghost predicate HasFrame(c: Codec, m: Msg, f: seq<byte>) {
    Sendable(c.serialise(m)) && f == Frame(c.serialise(m))
  }

  ghost predicate InHand(c: Codec, s: State)
    requires s.ring.Valid()
  {
    match s.ppc
    case WantLock(m, f) => HasFrame(c, m, f)
    case Testing(m, f) => HasFrame(c, m, f)
    case Waiting(m, f) => HasFrame(c, m, f)
    case MidWrap(m, f, e) =>
      && HasFrame(c, m, f) && 1 <= e <= |f|
      && s.ring.t == 0 && s.ring.h >= 1
      && |f| - e <= s.ring.Space() && !s.ring.WrapsWriting(|f| - e)
    case Unlocking(m) => Sendable(c.serialise(m))
    case SendDot(m) => Sendable(c.serialise(m))
    case _ => true
  }

  ghost predicate Shape(cfg: Config, s: State) {
    && s.ring.Valid() && s.ring.N() == cfg.n && |s.rbuf| == cfg.n
    && s.next <= |cfg.input|
    && s.dots <= cfg.cap
    && (s.lock.ByProducer? <==> s.ppc.Testing? || s.ppc.MidWrap? || s.ppc.Unlocking?)
    && (s.lock.ByConsumer? <==> s.cpc.Reading? || s.cpc.UnlockRead?)
    && InHand(cfg.codec, s)
  }

  lemma StartShape(cfg: Config, spurious: nat)
    requires cfg.n >= 1
    ensures Shape(cfg, Start(cfg, spurious))
  {
  }

  lemma TestKeepsShape(cfg: Config, s: State)
    requires Shape(cfg, s) && s.ppc.Testing?
    ensures Shape(cfg, TestAndStore(s))
  {
    var f := s.ppc.f;
    if |f| <= s.ring.Space() {
      if s.ring.WrapsWriting(|f|) { StoreToEndShowsPrefix(s.ring, f); } else { StoreRestAppends(s.ring, f); }
    }
  }

  lemma SecondStoreKeepsShape(cfg: Config, s: State)
    requires Shape(cfg, s) && s.ppc.MidWrap?
    ensures Shape(cfg, StoreSecond(s))
  {
    StoreRestAppends(s.ring, s.ppc.f[s.ppc.e..]);
  }

  lemma ProducerKeepsShape(cfg: Config, s: State)
    requires cfg.Good() && Shape(cfg, s) && ProducerEnabled(cfg, s)
    ensures Shape(cfg, ProducerStep(cfg, s))
  {
    match s.ppc
    case Testing(_, _) => TestKeepsShape(cfg, s);
    case MidWrap(_, _, _) => SecondStoreKeepsShape(cfg, s);
    case Ready =>
    case _ =>
  }

  lemma ConsumerKeepsShape(cfg: Config, s: State)
    requires Shape(cfg, s) && ConsumerEnabled(s)
    ensures Shape(cfg, ConsumerStep(cfg, s))
  {
    if s.cpc.Reading? && s.qsize <= s.ring.Size() {
      TakeRemovesPrefix(s.ring, s.qsize);
    }
  }

  // ---------------------------------------------------------------------------------------------
  // The bytes: nothing the producer stores is lost, duplicated or reordered.

  function Flat<T>(parts: seq<seq<T>>): seq<T> {
    if parts == [] then [] else Flat(parts[..|parts| - 1]) + parts[|parts| - 1]
  }

  lemma FlatAppend<T>(parts: seq<seq<T>>, part: seq<T>)
    ensures Flat(parts + [part]) == Flat(parts) + part
  {
    assert (parts + [part])[..|parts|] == parts;
  }

  /** The visible part of a frame whose second half is still to be stored. */
  function Partial(s: State): seq<byte> {
    if TornWindow(s) then s.ppc.f[..s.ppc.e] else []
  }

  /** Bytes drained so far, then bytes in the ring: exactly the frames accepted so far, in order,
      followed by what already shows of the frame being written. */
  ghost predicate BytesKept(c: Codec, s: State)
    requires s.ring.Valid()
  {
    AllFit(c, s.accepted) && Flat(s.drains) + s.ring.Contents() == WireOf(c, s.accepted) + Partial(s)
  }

  /** The bytes the next producer step makes visible. */
  function Shown(s: State): seq<byte>
    requires s.ring.Valid()
  {
    match s.ppc
    case Testing(_, f) =>
      if |f| > s.ring.Space() then []
      else if s.ring.WrapsWriting(|f|) && s.ring.N() - s.ring.t <= |f| then f[..s.ring.N() - s.ring.t]
      else f
    case MidWrap(_, f, e) => if e <= |f| then f[e..] else []
    case _ => []
  }

  /** All other producer steps leave the ring and the history alone. */
  lemma OtherStepsShowNothing(cfg: Config, s: State)
    requires s.ring.Valid() && ProducerEnabled(cfg, s) && !s.ppc.Testing? && !s.ppc.MidWrap?
    ensures var r := ProducerStep(cfg, s);
            && r.ring == s.ring && r.accepted == s.accepted && !r.crashed
            && !TornWindow(s) && !TornWindow(r)
  {
  }

  lemma ProducerShows(cfg: Config, s: State)
    requires Shape(cfg, s) && ProducerEnabled(cfg, s)
    ensures ProducerStep(cfg, s).ring.Contents() == s.ring.Contents() + Shown(s)
    ensures !ProducerStep(cfg, s).crashed
  {
    match s.ppc
    case Testing(m, f) =>
      if |f| <= s.ring.Space() {
        if s.ring.WrapsWriting(|f|) { StoreToEndShowsPrefix(s.ring, f); } else { StoreRestAppends(s.ring, f); }
      }
    case MidWrap(m, f, e) => StoreRestAppends(s.ring, f[e..]);
    case _ => OtherStepsShowNothing(cfg, s);
  }

  /** The first store shows a piece of the frame, or all of it and then the message counts as accepted. */
  lemma TestShows(s: State)
    requires s.ring.Valid() && s.ppc.Testing?
    ensures var r := TestAndStore(s);
            || (r.accepted == s.accepted && Partial(r) == Shown(s))
            || (r.accepted == s.accepted + [s.ppc.m] && Partial(r) == [] && Shown(s) == s.ppc.f)
  {
    var f := s.ppc.f;
    if |f| <= s.ring.Space() && s.ring.WrapsWriting(|f|) {
      StoreToEndShowsPrefix(s.ring, f);
      assert f[..|f|] == f;
    }
  }

  lemma TestAccepts(c: Codec, s: State)
    requires s.ring.Valid() && s.ppc.Testing? && HasFrame(c, s.ppc.m, s.ppc.f) && AllFit(c, s.accepted)
    ensures var r := TestAndStore(s);
            && AllFit(c, r.accepted)
            && WireOf(c, r.accepted) + Partial(r) == WireOf(c, s.accepted) + Partial(s) + Shown(s)
  {
    TestShows(s);
    WireOfAppend(c, s.accepted, s.ppc.m);
    var w, r := WireOf(c, s.accepted), TestAndStore(s);
    assert w + Partial(s) == w;
    if r.accepted != s.accepted {
      assert WireOf(c, r.accepted) + Partial(r) == WireOf(c, r.accepted);
    }
  }

  lemma SecondStoreAccepts(c: Codec, s: State)
    requires s.ring.Valid() && s.ppc.MidWrap? && InHand(c, s) && AllFit(c, s.accepted)
    ensures var r := StoreSecond(s);
            && AllFit(c, r.accepted)
            && WireOf(c, r.accepted) + Partial(r) == WireOf(c, s.accepted) + Partial(s) + Shown(s)
  {
    var f, e := s.ppc.f, s.ppc.e;
    WireOfAppend(c, s.accepted, s.ppc.m);
    assert f[..e] + f[e..] == f;
    ConcatAssociates(WireOf(c, s.accepted), f[..e], f[e..]);
  }

  /** The history follows the bytes: a producer step extends `accepted` and `Partial` by what it shows. */
  lemma ProducerAccepts(cfg: Config, s: State)
    requires Shape(cfg, s) && ProducerEnabled(cfg, s) && AllFit(cfg.codec, s.accepted)
    ensures var r := ProducerStep(cfg, s);
            && AllFit(cfg.codec, r.accepted)
            && WireOf(cfg.codec, r.accepted) + Partial(r) == WireOf(cfg.codec, s.accepted) + Partial(s) + Shown(s)
  {
    if s.ppc.Testing? {
      assert ProducerStep(cfg, s) == TestAndStore(s);
      TestAccepts(cfg.codec, s);
    } else if s.ppc.MidWrap? {
      assert ProducerStep(cfg, s) == StoreSecond(s);
      SecondStoreAccepts(cfg.codec, s);
    } else {
      OtherStepsShowNothing(cfg, s);
      assert Shown(s) == [];
    }
  }

  lemma ProducerKeepsBytes(cfg: Config, s: State)
    requires Shape(cfg, s) && ProducerEnabled(cfg, s) && BytesKept(cfg.codec, s)
    ensures BytesKept(cfg.codec, ProducerStep(cfg, s))
  {
    ProducerShows(cfg, s);
    ProducerAccepts(cfg, s);
    ConcatAssociates(Flat(s.drains), s.ring.Contents(), Shown(s));
  }

  /** Taking the front of the ring and recording it as drained changes nothing in the sum. */
  lemma DrainMovesBytes(s: State, n: nat)
    requires s.ring.Valid() && n <= s.ring.Size()
    ensures Flat(s.drains + [s.ring.Taken(n)]) + s.ring.AfterTake(n).Contents() == Flat(s.drains) + s.ring.Contents()
  {
    var all := s.ring.Contents();
    TakeRemovesPrefix(s.ring, n);
    FlatAppend(s.drains, all[..n]);
    assert all == all[..n] + all[n..];
    ConcatAssociates(Flat(s.drains), all[..n], all[n..]);
  }

  /** The consumer never touches what belongs to the Solace thread, except to wake it. */
  predicate ProducerUntouched(s: State, r: State) {
    && r.next == s.next && r.recv == s.recv && r.accepted == s.accepted && r.dropped == s.dropped
    && (r.ppc == s.ppc || (s.ppc.Waiting? && r.ppc == WantLock(s.ppc.m, s.ppc.f)))
  }

  lemma ConsumerLeavesProducer(cfg: Config, s: State)
    requires ConsumerEnabled(s) && s.ring.Valid()
    ensures ProducerUntouched(s, ConsumerStep(cfg, s))
  {
  }

  lemma ConsumerMovesBytes(cfg: Config, s: State)
    requires ConsumerEnabled(s) && s.ring.Valid()
    ensures var r := ConsumerStep(cfg, s);
            Flat(r.drains) + r.ring.Contents() == Flat(s.drains) + s.ring.Contents()
  {
    var r := ConsumerStep(cfg, s);
    if s.cpc.Reading? && s.qsize <= s.ring.Size() {
      DrainMovesBytes(s, s.qsize);
    } else {
      assert r.ring == s.ring && r.drains == s.drains;
    }
  }

  lemma ConsumerKeepsBytes(cfg: Config, s: State)
    requires ConsumerEnabled(s) && s.ring.Valid() && BytesKept(cfg.codec, s)
    ensures BytesKept(cfg.codec, ConsumerStep(cfg, s))
  {
    ConsumerLeavesProducer(cfg, s);
    ConsumerMovesBytes(cfg, s);
  }

  // ---------------------------------------------------------------------------------------------
  // The snapshot taken without the lock never overstates.

  predicate Claiming(s: State) {
    s.cpc.WantRead? || s.cpc.Reading?
  }

  /** What the snapshot counted is still at the front of the ring, so cb_read never refuses. */
  predicate ClaimHolds(s: State)
    requires s.ring.Valid()
  {
    Claiming(s) ==>
      && 0 < s.qsize <= s.ring.Size() && s.offset == 0
      && s.ring.Contents()[..s.qsize] == s.claim
  }

  lemma ProducerKeepsSnapshot(cfg: Config, s: State)
    requires s.ring.Valid() && ProducerEnabled(cfg, s)
    ensures var r := ProducerStep(cfg, s);
            r.cpc == s.cpc && r.qsize == s.qsize && r.offset == s.offset && r.claim == s.claim
  {
  }

  lemma ClaimSurvives(s: State, r: State, shown: seq<byte>)
    requires s.ring.Valid() && r.ring.Valid() && ClaimHolds(s)
    requires r.cpc == s.cpc && r.qsize == s.qsize && r.offset == s.offset && r.claim == s.claim
    requires r.ring.Contents() == s.ring.Contents() + shown
    ensures ClaimHolds(r)
  {
  }

  lemma ProducerKeepsClaim(cfg: Config, s: State)
    requires Shape(cfg, s) && ProducerEnabled(cfg, s) && ClaimHolds(s)
    ensures ClaimHolds(ProducerStep(cfg, s))
  {
    ProducerShows(cfg, s);
    ProducerKeepsSnapshot(cfg, s);
    ClaimSurvives(s, ProducerStep(cfg, s), Shown(s));
  }

  lemma ConsumerKeepsClaim(cfg: Config, s: State)
    requires Shape(cfg, s) && ConsumerEnabled(s) && ClaimHolds(s)
    ensures ClaimHolds(ConsumerStep(cfg, s))
  {
    if s.cpc.Snapshot? {
      var all := s.ring.Contents();
      assert all[..|all|] == all;
    }
  }

  // ---------------------------------------------------------------------------------------------
  // No wake-up is lost, although a full socket silently refuses dots.

  /** Bytes in the ring that no snapshot has counted yet. */
  function Unclaimed(s: State): int
    requires s.ring.Valid()
  {
    s.ring.Size() - if Claiming(s) then s.qsize else 0
  }

  /** The producer has stored bytes and still owes the dot for them. */
  predicate OwesDot(s: State) {
    s.ppc.MidWrap? || s.ppc.Unlocking? || s.ppc.SendDot?
  }

  predicate WakeUpComing(s: State)
    requires s.ring.Valid()
  {
    Unclaimed(s) > 0 ==> s.dots > 0 || OwesDot(s) || s.cpc.Snapshot?
  }

  lemma ProducerKeepsWakeUp(cfg: Config, s: State)
    requires cfg.Good() && Shape(cfg, s) && ProducerEnabled(cfg, s) && WakeUpComing(s)
    ensures WakeUpComing(ProducerStep(cfg, s))
  {
    ProducerShows(cfg, s);
  }

  lemma ConsumerKeepsWakeUp(cfg: Config, s: State)
    requires Shape(cfg, s) && ConsumerEnabled(s) && ClaimHolds(s) && WakeUpComing(s)
    ensures WakeUpComing(ConsumerStep(cfg, s))
  {
    if s.cpc.Reading? {
      TakeRemovesPrefix(s.ring, s.qsize);
    }
  }

  // ---------------------------------------------------------------------------------------------
  // The writer that waits for space.

  /** A waiting writer has too little space, or the signal that wakes it is about to be sent. */
  predicate WaitJustified(s: State)
    requires s.ring.Valid()
  {
    s.ppc.Waiting? ==> |s.ppc.f| > s.ring.Space() || s.cpc.UnlockRead? || s.cpc.Signal?
  }

  lemma ProducerKeepsWait(cfg: Config, s: State)
    requires Shape(cfg, s) && ProducerEnabled(cfg, s) && WaitJustified(s)
    ensures WaitJustified(ProducerStep(cfg, s))
  {
  }

  lemma ConsumerKeepsWait(cfg: Config, s: State)
    requires Shape(cfg, s) && ConsumerEnabled(s) && ClaimHolds(s) && WaitJustified(s)
    ensures WaitJustified(ConsumerStep(cfg, s))
  {
  }

  // ---------------------------------------------------------------------------------------------
  // The counters.

  predicate Queued(s: State) {
    s.ppc.Unlocking? || s.ppc.SendDot? || (s.ppc.MidWrap? && s.ppc.e == |s.ppc.f|)
  }

  /** The history follows the account of the events taken so far, event by event. */
  ghost predicate BooksKept(cfg: Config, s: State) {
    && s.next <= |cfg.input|
    && (s.ppc.Ready? ==>
          var t := Account(cfg.codec, cfg.input[..s.next]);
          s.recv == t.recv && s.accepted == t.sent && s.dropped == |t.dropped|)
    && (!s.ppc.Ready? ==>
          && s.next > 0 && cfg.input[s.next - 1].Event?
          && var t := Account(cfg.codec, cfg.input[..s.next - 1]);
             var u := Account(cfg.codec, cfg.input[..s.next]);
             var m := Number(t, cfg.input[s.next - 1]);
             && s.recv == t.recv && s.dropped == |u.dropped|
             && (s.ppc.Counting? ==> m.kind.Stream? && s.accepted == u.sent)
             && (!s.ppc.Counting? ==>
                   && s.ppc.m == m && cfg.codec.Fits(m)
                   && s.accepted == if Queued(s) then u.sent else t.sent))
  }

  lemma TakeEventKeepsBooks(cfg: Config, s: State)
    requires s.ppc.Ready? && s.next < |cfg.input| && BooksKept(cfg, s)
    ensures BooksKept(cfg, TakeEvent(cfg, s))
  {
    AccountNext(cfg.codec, cfg.input, s.next);
  }

  /** Once an event is in hand, queueing its message is exactly what the account expects of it. */
  lemma QueueingFollowsAccount(cfg: Config, s: State)
    requires BooksKept(cfg, s) && !s.ppc.Ready? && !s.ppc.Counting?
    ensures var t := Account(cfg.codec, cfg.input[..s.next - 1]);
            var u := Account(cfg.codec, cfg.input[..s.next]);
            && u.sent == t.sent + [s.ppc.m]
            && u.recv == t.recv + (if s.ppc.m.kind.Stream? then 1 else 0)
  {
    AccountNext(cfg.codec, cfg.input, s.next - 1);
  }

  lemma TestKeepsBooks(cfg: Config, s: State)
    requires Shape(cfg, s) && BooksKept(cfg, s) && s.ppc.Testing?
    ensures BooksKept(cfg, TestAndStore(s))
  {
    QueueingFollowsAccount(cfg, s);
  }

  lemma SecondStoreKeepsBooks(cfg: Config, s: State)
    requires Shape(cfg, s) && BooksKept(cfg, s) && s.ppc.MidWrap?
    ensures BooksKept(cfg, StoreSecond(s))
  {
    QueueingFollowsAccount(cfg, s);
  }

  lemma CountingKeepsBooks(cfg: Config, s: State)
    requires s.ppc.Counting? && BooksKept(cfg, s)
    ensures BooksKept(cfg, s.(recv := s.recv + 1, ppc := Ready))
  {
    AccountNext(cfg.codec, cfg.input, s.next - 1);
  }

  /** Moving on with the same message, queued or not as before, changes nothing in the books. */
  lemma SameMessageSameBooks(cfg: Config, s: State, r: State)
    requires BooksKept(cfg, s)
    requires !s.ppc.Ready? && !s.ppc.Counting? && !r.ppc.Ready? && !r.ppc.Counting?
    requires r.next == s.next && r.recv == s.recv && r.accepted == s.accepted && r.dropped == s.dropped
    requires r.ppc.m == s.ppc.m && Queued(r) == Queued(s)
    ensures BooksKept(cfg, r)
  {
  }

  lemma SendDotKeepsBooks(cfg: Config, s: State, dots: nat)
    requires BooksKept(cfg, s) && s.ppc.SendDot?
    ensures BooksKept(cfg, s.(dots := dots, ppc := if s.ppc.m.kind.Stream? then Counting else Ready))
  {
    QueueingFollowsAccount(cfg, s);
  }

  lemma ProducerKeepsBooks(cfg: Config, s: State)
    requires Shape(cfg, s) && ProducerEnabled(cfg, s) && BooksKept(cfg, s)
    ensures BooksKept(cfg, ProducerStep(cfg, s))
  {
    match s.ppc
    case Ready => TakeEventKeepsBooks(cfg, s);
    case Counting => CountingKeepsBooks(cfg, s);
    case Testing(m, f) => TestKeepsBooks(cfg, s);
    case MidWrap(m, f, e) => SecondStoreKeepsBooks(cfg, s);
    case SendDot(m) => SendDotKeepsBooks(cfg, s, ProducerStep(cfg, s).dots);
    case WantLock(m, f) => SameMessageSameBooks(cfg, s, ProducerStep(cfg, s));
    case Unlocking(m) => SameMessageSameBooks(cfg, s, ProducerStep(cfg, s));
  }

  lemma BooksDependOnProducer(cfg: Config, s: State, r: State)
    requires BooksKept(cfg, s) && ProducerUntouched(s, r)
    ensures BooksKept(cfg, r)
  {
  }

  lemma ConsumerKeepsBooks(cfg: Config, s: State)
    requires ConsumerEnabled(s) && s.ring.Valid() && BooksKept(cfg, s)
    ensures BooksKept(cfg, ConsumerStep(cfg, s))
  {
    ConsumerLeavesProducer(cfg, s);
    BooksDependOnProducer(cfg, s, ConsumerStep(cfg, s));
  }

  /** Callbacks that ran, the one that is running, and unread dots: never more than frames queued. */
  predicate DotsPaid(s: State) {
    s.callbacks + s.dots + (if s.cpc.Idle? then 0 else 1) + (if Queued(s) then 1 else 0) <= |s.accepted|
  }

  /** Every callback either handed a batch to q or found the ring empty; the last one may not be counted yet. */
  predicate CallbacksExplained(s: State) {
    |s.delivered| + s.emptySnapshots == s.callbacks + (if s.cpc.CountBatch? then 1 else 0)
  }

  /** Every drain became a batch; the last one may not be handed over yet. */
  predicate DrainsExplained(s: State) {
    |s.drains|
    == |s.delivered| + if s.cpc.UnlockRead? || s.cpc.Signal? || s.cpc.Parsing? || s.cpc.Deliver? then 1 else 0
  }

  lemma ConsumerKeepsCallbacks(cfg: Config, s: State)
    requires ConsumerEnabled(s) && s.ring.Valid() && ClaimHolds(s)
    requires CallbacksExplained(s) && DrainsExplained(s)
    ensures CallbacksExplained(ConsumerStep(cfg, s)) && DrainsExplained(ConsumerStep(cfg, s))
  {
    match s.cpc
    case Parsing =>
    case _ =>
  }

  lemma ProducerKeepsCallbacks(cfg: Config, s: State)
    requires ProducerEnabled(cfg, s) && s.ring.Valid() && CallbacksExplained(s) && DrainsExplained(s)
    ensures CallbacksExplained(ProducerStep(cfg, s)) && DrainsExplained(ProducerStep(cfg, s))
  {
  }

  lemma ProducerKeepsDotsPaid(cfg: Config, s: State)
    requires Shape(cfg, s) && ProducerEnabled(cfg, s) && DotsPaid(s)
    ensures DotsPaid(ProducerStep(cfg, s))
  {
  }

  lemma ConsumerKeepsDotsPaid(cfg: Config, s: State)
    requires ConsumerEnabled(s) && s.ring.Valid() && DotsPaid(s)
    ensures DotsPaid(ConsumerStep(cfg, s))
  {
    ConsumerLeavesProducer(cfg, s);
    match s.cpc
    case Idle =>
    case CountBatch =>
    case _ =>
  }

  // ---------------------------------------------------------------------------------------------
  // All of it, over whole runs.

  ghost predicate Raw(cfg: Config, s: State) {
    && Shape(cfg, s)
    && BytesKept(cfg.codec, s)
    && ClaimHolds(s)
    && WakeUpComing(s)
    && WaitJustified(s)
    && BooksKept(cfg, s)
    && DotsPaid(s)
    && CallbacksExplained(s)
    && DrainsExplained(s)
  }

  lemma StartIsRaw(cfg: Config, spurious: nat)
    requires cfg.Good()
    ensures Raw(cfg, Start(cfg, spurious))
  {
    StartShape(cfg, spurious);
    assert cfg.input[..0] == [];
    assert WireOf(cfg.codec, []) == [];
  }

  lemma WakeKeepsRaw(cfg: Config, s: State)
    requires Raw(cfg, s) && Enabled(cfg, s, SpuriousWakeUp)
    ensures Raw(cfg, Step(cfg, s, SpuriousWakeUp))
  {
  }

  lemma StepKeepsRaw(cfg: Config, s: State, who: Who)
    requires cfg.Good() && Raw(cfg, s) && Enabled(cfg, s, who)
    ensures Raw(cfg, Step(cfg, s, who))
  {
    match who
    case SpuriousWakeUp => WakeKeepsRaw(cfg, s);
    case Producer =>
      ProducerKeepsShape(cfg, s);
      ProducerKeepsBytes(cfg, s);
      ProducerKeepsClaim(cfg, s);
      ProducerKeepsWakeUp(cfg, s);
      ProducerKeepsWait(cfg, s);
      ProducerKeepsBooks(cfg, s);
      ProducerKeepsDotsPaid(cfg, s);
      ProducerKeepsCallbacks(cfg, s);
    case Consumer =>
      ConsumerKeepsShape(cfg, s);
      ConsumerKeepsBytes(cfg, s);
      ConsumerKeepsClaim(cfg, s);
      ConsumerKeepsWakeUp(cfg, s);
      ConsumerKeepsWait(cfg, s);
      ConsumerKeepsBooks(cfg, s);
      ConsumerKeepsDotsPaid(cfg, s);
      ConsumerKeepsCallbacks(cfg, s);
  }

  lemma {:induction false} RunKeepsRaw(cfg: Config, s: State, schedule: seq<Who>)
    requires cfg.Good() && Raw(cfg, s) && Executable(cfg, s, schedule)
    ensures Raw(cfg, Run(cfg, s, schedule))
    decreases |schedule|
  {
    if schedule != [] {
      StepKeepsRaw(cfg, s, schedule[0]);
      RunKeepsRaw(cfg, Step(cfg, s, schedule[0]), schedule[1..]);
    }
  }
}
