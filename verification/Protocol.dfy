/** The feed queue as two threads see it. The Solace thread (producer) turns events into frames and
    writes them to the ring; the q main thread (consumer) is woken by dots on a socket pair and drains
    the ring. Every access to shared state is a step of its own: the two stores to `t` in cb_write, the
    unlocked size snapshot in callback, the condition variable, and the dot.

    A schedule says which thread moves next, so a statement about every schedule is a statement about
    every interleaving. */
module Protocol {
  import opened Bytes
  import opened RingModel
  import opened Framing
  import opened Messages

  /** `input` are the events of one session, `n` the capacity of the ring and of the drain buffer, `cap`
      the number of unread dots the socket pair holds. */
  datatype Config = Config(codec: Codec, input: seq<Event>, n: nat, cap: nat) {
    ghost predicate Good() {
      codec.Good() && MAX_FRAME < n && cap >= 1
    }
  }

  datatype Owner = Nobody | ByProducer | ByConsumer

  /** Where the Solace thread stands. `m` is the current message and `f` its frame in msgbuff. */
  datatype ProducerPc =
    | Ready                                      // between two events
    | WantLock(m: Msg, f: seq<byte>)             // about to lock in cb_write, or woken and locking again
    | Testing(m: Msg, f: seq<byte>)              // at the guard n > cb_space
    | Waiting(m: Msg, f: seq<byte>)              // in the condition wait
    | MidWrap(m: Msg, f: seq<byte>, e: nat)      // t = 0 is stored, t += n is not; e bytes were copied
    | Unlocking(m: Msg)
    | SendDot(m: Msg)
    | Counting                                   // about to do msg_recv++

  /** Where the q main thread stands. */
  datatype ConsumerPc =
    | Idle                                       // back in the q event loop
    | Snapshot                                   // a dot is read, cb_size is not
    | WantRead                                   // qsize > 0, about to lock in cb_read
    | Reading                                    // at the guard n > cb_size
    | UnlockRead
    | Signal                                     // about to signal the writer
    | Parsing
    | Deliver
    | CountBatch

  datatype State = State(
    // shared between the threads
    ring: Ring, lock: Owner, dots: nat, crashed: bool,
    // Solace thread
    ppc: ProducerPc, next: nat, recv: nat,
    // q main thread
    cpc: ConsumerPc, qsize: nat, rbuf: seq<byte>, offset: nat, batch: seq<Msg>,
    processed: nat, callbacks: nat, delivered: seq<seq<Msg>>,
    // what the scheduler may still do to a waiting thread for no reason
    spurious: nat,
    // history: messages whose bytes are completely visible in the ring so far, how many of them have
    // been drained or are claimed by a snapshot, the bytes claimed and drained, oversize messages,
    // snapshots that found the ring empty, and whether a snapshot ever fell between the two stores of
    // a split frame
    accepted: seq<Msg>, taken: nat, claimedUpTo: nat, claim: seq<byte>, drains: seq<seq<byte>>,
    dropped: nat, emptySnapshots: nat, torn: bool)

  function Start(cfg: Config, spurious: nat): (s: State)
    requires cfg.n >= 1
    ensures s.ring.Valid()
  {
    State(Fresh(cfg.n), Nobody, 0, false,
          Ready, 0, 0,
          Idle, 0, seq(cfg.n, _ => 0), 0, [], 0, 0, [],
          spurious,
          [], 0, 0, [], [], 0, 0, false)
  }

  /** The producer stands between its two stores to `t` and its frame is only partly visible. */
  predicate TornWindow(s: State) {
    s.ppc.MidWrap? && s.ppc.e < |s.ppc.f|
  }

  // ---------------------------------------------------------------------------------------------
  // The Solace thread.

  predicate ProducerEnabled(cfg: Config, s: State) {
    && !s.crashed
    && match s.ppc
       case Ready => s.next < |cfg.input|
       case WantLock(_, _) => s.lock.Nobody?
       case Waiting(_, _) => false
       case _ => true
  }

  /** make_msg_dict, the serialisation, and the size check of write_to_buffer. */
  function TakeEvent(cfg: Config, s: State): State
    requires s.next < |cfg.input|
  {
    match cfg.input[s.next]
    case Unreadable => s.(next := s.next + 1)
    case Event(kind, body) =>
      var m := Msg(kind, s.recv, body);
      if cfg.codec.Fits(m) then
        s.(next := s.next + 1, ppc := WantLock(m, Frame(cfg.codec.serialise(m))))
      else if kind.Stream? then
        s.(next := s.next + 1, ppc := Counting, dropped := s.dropped + 1)
      else
        s.(next := s.next + 1)
  }

  /** The guard of cb_write and its first store to `t`. */
  function TestAndStore(s: State): State
    requires s.ppc.Testing? && s.ring.Valid()
  {
    var m, f := s.ppc.m, s.ppc.f;
    if |f| > s.ring.Space() then
      s.(lock := Nobody, ppc := Waiting(m, f))
    else if s.ring.WrapsWriting(|f|) then
      var e := s.ring.N() - s.ring.t;
      s.(ring := s.ring.StoreToEnd(f), ppc := MidWrap(m, f, e),
         accepted := if e == |f| then s.accepted + [m] else s.accepted)
    else
      s.(ring := s.ring.StoreRest(f), ppc := Unlocking(m), accepted := s.accepted + [m])
  }

  /** The second store to `t` after a wrap. A copy past the end of the array would be a crash. */
  function StoreSecond(s: State): State
    requires s.ppc.MidWrap?
  {
    var m, f, e := s.ppc.m, s.ppc.f, s.ppc.e;
    if e <= |f| && s.ring.t + (|f| - e) < s.ring.N() then
      s.(ring := s.ring.StoreRest(f[e..]), ppc := Unlocking(m),
         accepted := if e == |f| then s.accepted else s.accepted + [m])
    else
      s.(crashed := true)
  }

  function ProducerStep(cfg: Config, s: State): (r: State)
    requires ProducerEnabled(cfg, s) && s.ring.Valid()
    ensures r.ring.Valid()
  {
    match s.ppc
    case Ready => TakeEvent(cfg, s)
    case WantLock(m, f) => s.(lock := ByProducer, ppc := Testing(m, f))
    case Testing(_, _) => TestAndStore(s)
    case MidWrap(_, _, _) => StoreSecond(s)
    // The signal that follows the unlock has no waiter: cb_read is only called with w = 0.
    case Unlocking(m) => s.(lock := Nobody, ppc := SendDot(m))
    // The socket is non-blocking and the result of the write is ignored.
    case SendDot(m) =>
      s.(dots := if s.dots < cfg.cap then s.dots + 1 else s.dots,
         ppc := if m.kind.Stream? then Counting else Ready)
    case Counting => s.(recv := s.recv + 1, ppc := Ready)
  }

  // ---------------------------------------------------------------------------------------------
  // The q main thread.

  predicate ConsumerEnabled(s: State) {
    && !s.crashed
    && match s.cpc
       case Idle => s.dots > 0
       case WantRead => s.lock.Nobody?
       case _ => true
  }

  /** `qsize = cb_size(&queue)`, without the lock. */
  function TakeSnapshot(s: State): State
    requires s.ring.Valid()
  {
    var size := s.ring.Size();
    if size > 0 then
      s.(qsize := size, offset := 0, batch := [], cpc := WantRead,
         claim := s.ring.Contents(), claimedUpTo := |s.accepted|, torn := s.torn || TornWindow(s))
    else
      s.(cpc := CountBatch, emptySnapshots := s.emptySnapshots + 1)
  }

  /** cb_read under the lock. A refusal would go unnoticed: callback ignores the result. */
  function ReadRing(s: State): State
    requires s.ring.Valid()
  {
    if s.qsize > s.ring.Size() then
      s.(lock := Nobody, cpc := Parsing)
    else if s.qsize > |s.rbuf| then
      s.(crashed := true)
    else
      s.(rbuf := s.ring.Taken(s.qsize) + s.rbuf[s.qsize..], ring := s.ring.AfterTake(s.qsize),
         drains := s.drains + [s.ring.Taken(s.qsize)], taken := s.claimedUpTo, cpc := UnlockRead)
  }

  /** Waking a thread from the condition wait: it has to take the lock again. */
  function Wake(s: State): State {
    if s.ppc.Waiting? then s.(ppc := WantLock(s.ppc.m, s.ppc.f)) else s
  }

  /** One round of the drain loop. */
  function ParseRound(cfg: Config, s: State): State {
    if s.offset >= s.qsize then s.(cpc := Deliver) else
      match ParseAt(s.rbuf, s.offset)
      case Dies => s.(crashed := true)
      case Got(p, end) =>
        s.(batch := s.batch + [cfg.codec.deserialise(p)], offset := end, processed := s.processed + 1)
  }

  function ConsumerStep(cfg: Config, s: State): (r: State)
    requires ConsumerEnabled(s) && s.ring.Valid()
    ensures r.ring.Valid()
  {
    match s.cpc
    case Idle => s.(dots := s.dots - 1, cpc := Snapshot)
    case Snapshot => TakeSnapshot(s)
    case WantRead => s.(lock := ByConsumer, cpc := Reading)
    case Reading => ReadRing(s)
    case UnlockRead => s.(lock := Nobody, cpc := Signal)
    case Signal => Wake(s).(cpc := Parsing)
    case Parsing => ParseRound(cfg, s)
    case Deliver => s.(delivered := s.delivered + [s.batch], batch := [], cpc := CountBatch)
    case CountBatch => s.(callbacks := s.callbacks + 1, cpc := Idle)
  }

  // ---------------------------------------------------------------------------------------------
  // Schedules.

  datatype Who = Producer | Consumer | SpuriousWakeUp

  predicate Enabled(cfg: Config, s: State, who: Who) {
    match who
    case Producer => ProducerEnabled(cfg, s)
    case Consumer => ConsumerEnabled(s)
    case SpuriousWakeUp => !s.crashed && s.ppc.Waiting? && s.spurious > 0
  }

  function Step(cfg: Config, s: State, who: Who): (r: State)
    requires Enabled(cfg, s, who) && s.ring.Valid()
    ensures r.ring.Valid()
  {
    match who
    case Producer => ProducerStep(cfg, s)
    case Consumer => ConsumerStep(cfg, s)
    case SpuriousWakeUp => Wake(s).(spurious := s.spurious - 1)
  }

  /** `schedule` can be followed from `s`. */
  predicate Executable(cfg: Config, s: State, schedule: seq<Who>)
    requires s.ring.Valid()
    decreases |schedule|
  {
    schedule != [] ==>
      && Enabled(cfg, s, schedule[0])
      && Executable(cfg, Step(cfg, s, schedule[0]), schedule[1..])
  }

  function Run(cfg: Config, s: State, schedule: seq<Who>): (r: State)
    requires s.ring.Valid() && Executable(cfg, s, schedule)
    ensures r.ring.Valid()
    decreases |schedule|
  {
    if schedule == [] then s else Run(cfg, Step(cfg, s, schedule[0]), schedule[1..])
  }

  /** No thread can move. */
  predicate Stuck(cfg: Config, s: State) {
    forall who: Who :: !Enabled(cfg, s, who)
  }

  lemma {:induction false} RunConcat(cfg: Config, s: State, a: seq<Who>, b: seq<Who>)
    requires s.ring.Valid() && Executable(cfg, s, a) && Executable(cfg, Run(cfg, s, a), b)
    ensures Executable(cfg, s, a + b) && Run(cfg, s, a + b) == Run(cfg, Run(cfg, s, a), b)
    decreases |a|
  {
    if a == [] {
      assert a + b == b;
    } else {
      RunConcat(cfg, Step(cfg, s, a[0]), a[1..], b);
      assert (a + b)[1..] == a[1..] + b;
    }
  }
}
