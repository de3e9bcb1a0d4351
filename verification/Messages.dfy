/** What the Solace thread makes of the events it receives (messageReceiveCallback, common_eventCallback,
    make_msg_dict): which of them become queued messages and which sequence number each one carries. */
module Messages {
  import opened Bytes
  import opened Framing

  datatype Kind = Stream | Admin

  /** The dictionary of make_msg_dict, with the fields that do not matter here folded into `body`. */
  datatype Msg = Msg(kind: Kind, seqn: nat, body: seq<byte>)

  /** A callback run by the Solace library. `Unreadable` stands for its early exits: the payload could
      not be decoded, or the dictionary could not be serialised. */
  datatype Event = Event(kind: Kind, body: seq<byte>) | Unreadable

  /** The q serialisation b9 and its inverse d9. */
  datatype Codec = Codec(serialise: Msg -> seq<byte>, deserialise: seq<byte> -> Msg) {
    ghost predicate Good() {
      forall m: Msg :: |serialise(m)| > 0 && deserialise(serialise(m)) == m
    }

    /** The size check of write_to_buffer. */
    predicate Fits(m: Msg) {
      |serialise(m)| < MAX_MSG_SIZE
    }
  }

  /** The books after a run of events: the counter msg_recv, the messages queued, the sequence numbers
      lost to the size check, and the number of queued admin messages. */
  datatype Tally = Tally(recv: nat, sent: seq<Msg>, dropped: seq<nat>, admins: nat)

  function Number(t: Tally, e: Event): Msg
    requires e.Event?
  {
    Msg(e.kind, t.recv, e.body)
  }

  function AfterEvent(c: Codec, t: Tally, e: Event): Tally {
    match e
    case Unreadable => t
    case Event(kind, _) =>
      var m := Number(t, e);
      var fits := c.Fits(m);
      Tally(
        if kind.Stream? then t.recv + 1 else t.recv,
        if fits then t.sent + [m] else t.sent,
        if kind.Stream? && !fits then t.dropped + [t.recv] else t.dropped,
        if kind.Admin? && fits then t.admins + 1 else t.admins)
  }

  function Account(c: Codec, events: seq<Event>): Tally {
    if events == [] then Tally(0, [], [], 0)
    else AfterEvent(c, Account(c, events[..|events| - 1]), events[|events| - 1])
  }

  lemma AccountNext(c: Codec, events: seq<Event>, k: nat)
    requires k < |events|
    ensures Account(c, events[..k + 1]) == AfterEvent(c, Account(c, events[..k]), events[k])
  {
    assert events[..k + 1][..k] == events[..k];
  }

  // ---------------------------------------------------------------------------------------------
  // The same, without running counters.

  /** The stream messages among the events: msg_recv after them. */
  function Streams(events: seq<Event>): nat {
    if events == [] then 0
    else Streams(events[1..]) + (if events[0].Event? && events[0].kind.Stream? then 1 else 0)
  }

  /** The message an event becomes: its own kind and content, numbered by the stream messages before it. */
  function MessageOf(events: seq<Event>, k: nat): Msg
    requires k < |events| && events[k].Event?
  {
    Msg(events[k].kind, Streams(events[..k]), events[k].body)
  }

  /** The readable events from the `k`-th on whose messages fit, as messages, in order. */
  function Survivors(c: Codec, events: seq<Event>, k: nat): seq<Msg>
    requires k <= |events|
    decreases |events| - k
  {
    if k == |events| then [] else
      (if events[k].Event? && c.Fits(MessageOf(events, k)) then [MessageOf(events, k)] else [])
      + Survivors(c, events, k + 1)
  }

  lemma {:induction false} StreamsAppend(events: seq<Event>, e: Event)
    ensures Streams(events + [e]) == Streams(events) + (if e.Event? && e.kind.Stream? then 1 else 0)
  {
    if events == [] {
      assert [e][1..] == [];
    } else {
      StreamsAppend(events[1..], e);
      assert (events + [e])[1..] == events[1..] + [e];
    }
  }

  lemma {:induction false} AccountCountsStreams(c: Codec, events: seq<Event>, k: nat)
    requires k <= |events|
    ensures Account(c, events[..k]).recv == Streams(events[..k])
  {
    if k > 0 {
      AccountCountsStreams(c, events, k - 1);
      AccountNext(c, events, k - 1);
      StreamsAppend(events[..k - 1], events[k - 1]);
      assert events[..k] == events[..k - 1] + [events[k - 1]];
    }
  }

  lemma {:induction false} AccountThenSurvivors(c: Codec, events: seq<Event>, k: nat)
    requires k <= |events|
    ensures Account(c, events).sent == Account(c, events[..k]).sent + Survivors(c, events, k)
    decreases |events| - k
  {
    if k == |events| {
      assert events[..k] == events;
    } else {
      AccountThenSurvivors(c, events, k + 1);
      AccountNext(c, events, k);
      AccountCountsStreams(c, events, k);
    }
  }

  /** The messages queued in a session are those of its readable events that fit, in order, each with its
      own content and numbered by the stream messages before it. */
  lemma SentAreSurvivors(c: Codec, events: seq<Event>)
    ensures Account(c, events).sent == Survivors(c, events, 0)
    ensures Account(c, events).recv == Streams(events)
  {
    AccountThenSurvivors(c, events, 0);
    AccountCountsStreams(c, events, |events|);
    assert events[..0] == [] && events[..|events|] == events;
  }

  // ---------------------------------------------------------------------------------------------
  // Sequence numbers over a whole session.

  predicate NonDecreasing(ms: seq<Msg>) {
    forall i, j :: 0 <= i < j < |ms| ==> ms[i].seqn <= ms[j].seqn
  }

  predicate StreamsIncrease(ms: seq<Msg>) {
    forall i, j :: 0 <= i < j < |ms| && ms[i].kind.Stream? && ms[j].kind.Stream? ==> ms[i].seqn < ms[j].seqn
  }

  predicate CarriesStream(ms: seq<Msg>, n: nat) {
    exists i :: 0 <= i < |ms| && ms[i].kind.Stream? && ms[i].seqn == n
  }

  function CountAdmins(ms: seq<Msg>): nat {
    if ms == [] then 0 else CountAdmins(ms[..|ms| - 1]) + (if ms[|ms| - 1].kind.Admin? then 1 else 0)
  }

  /** Every queued message fits, and its number was current when it was built. */
  predicate Bounded(c: Codec, t: Tally) {
    forall i :: 0 <= i < |t.sent| ==>
      c.Fits(t.sent[i]) && t.sent[i].seqn <= t.recv && (t.sent[i].kind.Stream? ==> t.sent[i].seqn < t.recv)
  }

  /** The numbers below msg_recv are split between queued stream messages and oversize ones. */
  ghost predicate Partitioned(t: Tally) {
    && (forall n: nat :: n < t.recv ==> CarriesStream(t.sent, n) != (n in t.dropped))
    && (forall n: nat :: n >= t.recv ==> !CarriesStream(t.sent, n) && n !in t.dropped)
    && (forall i, j :: 0 <= i < j < |t.dropped| ==> t.dropped[i] < t.dropped[j])
  }

  predicate Counted(t: Tally) {
    && t.admins == CountAdmins(t.sent)
    && |t.sent| + |t.dropped| == t.recv + t.admins
  }

  ghost predicate WellNumbered(c: Codec, t: Tally) {
    && NonDecreasing(t.sent)
    && StreamsIncrease(t.sent)
    && Bounded(c, t)
    && Partitioned(t)
    && Counted(t)
  }

  lemma CarriesStreamAppend(ms: seq<Msg>, m: Msg, n: nat)
    ensures CarriesStream(ms + [m], n) <==> CarriesStream(ms, n) || (m.kind.Stream? && m.seqn == n)
  {
    if CarriesStream(ms, n) {
      var i :| 0 <= i < |ms| && ms[i].kind.Stream? && ms[i].seqn == n;
      assert (ms + [m])[i] == ms[i];
    }
    if m.kind.Stream? && m.seqn == n {
      assert (ms + [m])[|ms|] == m;
    }
  }

  lemma EventKeepsPartition(c: Codec, t: Tally, e: Event)
    requires Partitioned(t)
    ensures Partitioned(AfterEvent(c, t, e))
  {
    if e.Event? {
      var m := Number(t, e);
      forall n: nat
        ensures CarriesStream(t.sent + [m], n) <==> CarriesStream(t.sent, n) || (m.kind.Stream? && m.seqn == n)
      {
        CarriesStreamAppend(t.sent, m, n);
      }
      forall i | 0 <= i < |t.dropped|
        ensures t.dropped[i] < t.recv
      {
        assert t.dropped[i] in t.dropped;
      }
    }
  }

  lemma EventKeepsCounts(c: Codec, t: Tally, e: Event)
    requires Counted(t)
    ensures Counted(AfterEvent(c, t, e))
  {
    if e.Event? {
      assert (t.sent + [Number(t, e)])[..|t.sent|] == t.sent;
    }
  }

  lemma EventKeepsOrder(c: Codec, t: Tally, e: Event)
    requires NonDecreasing(t.sent) && StreamsIncrease(t.sent) && Bounded(c, t)
    ensures var u := AfterEvent(c, t, e); NonDecreasing(u.sent) && StreamsIncrease(u.sent) && Bounded(c, u)
  {
  }

  /** Over any session: queued messages have non-decreasing sequence numbers, stream messages strictly
      increasing ones, and every number below msg_recv belongs either to exactly one queued stream
      message or to one that was too big, never to both. */
  lemma {:induction false} SessionIsWellNumbered(c: Codec, events: seq<Event>)
    ensures WellNumbered(c, Account(c, events))
  {
    if events != [] {
      SessionIsWellNumbered(c, events[..|events| - 1]);
      var before, e := Account(c, events[..|events| - 1]), events[|events| - 1];
      EventKeepsOrder(c, before, e);
      EventKeepsPartition(c, before, e);
      EventKeepsCounts(c, before, e);
    }
  }
}
