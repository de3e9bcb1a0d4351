/** The session and its topics as values: what each request does to the table and what it answers
    (init, subscribe, unsubscribe, disconnect in src/solace_k.c, session-down in src/solace.c), and what
    the table says about the requests so far. */
module TopicTable {

  const MAX_TOPIC_COUNT: nat := 250

  /** A line of gettopics. */
  datatype Row = Row(topic: string, subscribed: bool)

  datatype Session = Closed | Open(rows: seq<Row>)

  /** The requests of the user and the one event that ends a session from outside. The parameters are
      what the code learns on the way: the type of its argument, whether memory could be had, and what
      the broker answered. */
  datatype Request =
    | Init(isDict: bool, connected: bool)
    | Subscribe(isString: bool, topic: string, hasMemory: bool, brokerOk: bool)
    | Unsubscribe(isString: bool, topic: string, brokerOk: bool)
    | Disconnect(brokerOk: bool)
    | SessionDown

  datatype Reply = Fine | Error(reason: string) | BrokerError

  /** findTopicInList: the first row with this topic, or the number of rows. */
  function Find(rows: seq<Row>, topic: string): (pos: nat)
    ensures pos <= |rows|
    ensures pos < |rows| ==> rows[pos].topic == topic
    ensures forall i :: 0 <= i < pos ==> rows[i].topic != topic
  {
    if rows == [] || rows[0].topic == topic then 0 else 1 + Find(rows[1..], topic)
  }

  /** The request gets past the guards and, for a new topic, past the allocation. */
  predicate Accepts(s: Session, r: Request) {
    match r
    case Subscribe(isString, topic, hasMemory, _) =>
      s.Open? && isString && |s.rows| < MAX_TOPIC_COUNT && (Find(s.rows, topic) < |s.rows| || hasMemory)
    case Unsubscribe(isString, _, _) => s.Open? && isString
    case Init(isDict, connected) => s.Closed? && isDict && connected
    case Disconnect(brokerOk) => s.Open? && brokerOk
    case SessionDown => true
  }

  function After(s: Session, r: Request): Session {
    if !Accepts(s, r) then s else
      match r
      case Init(_, _) => Open([])
      case Subscribe(_, topic, _, _) =>
        var pos := Find(s.rows, topic);
        Open(if pos == |s.rows| then s.rows + [Row(topic, true)] else s.rows[pos := Row(topic, true)])
      case Unsubscribe(_, topic, _) =>
        var pos := Find(s.rows, topic);
        Open(if pos == |s.rows| then s.rows else s.rows[pos := Row(topic, false)])
      case Disconnect(_) => Closed
      case SessionDown => Closed
  }

  function Answer(s: Session, r: Request): Reply {
    match r
    case Init(isDict, connected) =>
      if s.Open? then Error("alreadyinit")
      else if !isDict then Error("expecteddict")
      else if !connected then BrokerError else Fine
    case Subscribe(isString, topic, hasMemory, brokerOk) =>
      if s.Closed? then Error("noinit")
      else if !isString then Error("topictype")
      else if |s.rows| >= MAX_TOPIC_COUNT then Error("maxtopics")
      else if Find(s.rows, topic) == |s.rows| && !hasMemory then Error("memory")
      else if !brokerOk then BrokerError else Fine
    case Unsubscribe(isString, _, brokerOk) =>
      if s.Closed? then Error("noinit")
      else if !isString then Error("topictype")
      else if !brokerOk then BrokerError else Fine
    case Disconnect(brokerOk) =>
      if s.Closed? then Error("nonconnected") else if !brokerOk then BrokerError else Fine
    case SessionDown => Fine
  }

  /** The caller can tell: a subscribe or unsubscribe took effect on the table unless the answer is an
      error of the library, whatever the broker said; the other requests unless it is any error. */
  lemma AcceptedIffNoError(s: Session, r: Request)
    ensures r.Subscribe? || r.Unsubscribe? ==> (Accepts(s, r) <==> !Answer(s, r).Error?)
    ensures r.Init? || r.Disconnect? ==> (Accepts(s, r) <==> Answer(s, r).Fine?)
  {
  }

  // ---------------------------------------------------------------------------------------------
  // Whole histories.

  function RunFrom(s: Session, history: seq<Request>): Session {
    if history == [] then s
    else After(RunFrom(s, history[..|history| - 1]), history[|history| - 1])
  }

  function Run(history: seq<Request>): Session {
    RunFrom(Closed, history)
  }

  function Topics(rows: seq<Row>): (topics: seq<string>)
    ensures |topics| == |rows|
  {
    seq(|rows|, i requires 0 <= i < |rows| => rows[i].topic)
  }

  /** The names the table of a session owns. */
  function TableNames(s: Session): seq<string> {
    if s.Open? then Topics(s.rows) else []
  }

  /** The names a request leaves without an owner: those of a session that is cut off. */
  function Lost(s: Session, r: Request): seq<string> {
    if r.SessionDown? then TableNames(s) else []
  }

  /** All names left behind by the sessions that were cut off, oldest first. */
  function LeftBehind(s: Session, history: seq<Request>): seq<string> {
    if history == [] then [] else
      var before := history[..|history| - 1];
      LeftBehind(s, before) + Lost(RunFrom(s, before), history[|history| - 1])
  }

  function Answers(s: Session, history: seq<Request>): seq<Reply> {
    if history == [] then [] else
      var before := history[..|history| - 1];
      Answers(s, before) + [Answer(RunFrom(s, before), history[|history| - 1])]
  }

  /** One more request, behind names left earlier. */
  lemma LeftBehindStep(names: seq<string>, s: Session, history: seq<Request>)
    requires history != []
    ensures var before, r := history[..|history| - 1], history[|history| - 1];
            names + LeftBehind(s, history) == names + LeftBehind(s, before) + Lost(RunFrom(s, before), r)
  {
  }

  /** The subscribe and unsubscribe requests accepted in the current session, oldest first. */
  datatype Entry = Sub(topic: string) | Unsub(topic: string)

  function Log(history: seq<Request>): seq<Entry> {
    if history == [] then [] else
      var before, r := history[..|history| - 1], history[|history| - 1];
      if Accepts(Run(before), r) then Noted(Log(before), r) else Log(before)
  }

  /** What an accepted request makes of the log. */
  function Noted(log: seq<Entry>, r: Request): seq<Entry> {
    match r
    case Subscribe(_, topic, _, _) => log + [Sub(topic)]
    case Unsubscribe(_, topic, _) => log + [Unsub(topic)]
    case _ => []
  }

  /** Position of the first accepted subscribe for a topic, or the length of the log. */
  function FirstSub(log: seq<Entry>, topic: string): (k: nat)
    ensures k <= |log|
    ensures k < |log| ==> log[k] == Sub(topic)
    ensures forall i :: 0 <= i < k ==> log[i] != Sub(topic)
  {
    if log == [] || log[0] == Sub(topic) then 0 else 1 + FirstSub(log[1..], topic)
  }

  /** The latest accepted request about the topic was a subscribe. */
  predicate LatestIsSub(log: seq<Entry>, topic: string) {
    exists k :: 0 <= k < |log| && log[k] == Sub(topic) && forall i :: k < i < |log| ==> log[i].topic != topic
  }

  predicate DistinctTopics(rows: seq<Row>) {
    forall i, j :: 0 <= i < j < |rows| ==> rows[i].topic != rows[j].topic
  }

  predicate FirstRequestOrder(log: seq<Entry>, rows: seq<Row>) {
    forall i, j :: 0 <= i < j < |rows| ==> FirstSub(log, rows[i].topic) < FirstSub(log, rows[j].topic)
  }

  /** The topics listed are exactly those with an accepted subscribe. */
  ghost predicate ListsSubscribed(log: seq<Entry>, rows: seq<Row>) {
    forall topic: string :: Find(rows, topic) < |rows| <==> FirstSub(log, topic) < |log|
  }

  predicate FlagsLatest(log: seq<Entry>, rows: seq<Row>) {
    forall i :: 0 <= i < |rows| ==> (rows[i].subscribed <==> LatestIsSub(log, rows[i].topic))
  }

  ghost predicate Summarises(log: seq<Entry>, rows: seq<Row>) {
    && |rows| <= MAX_TOPIC_COUNT
    && DistinctTopics(rows)
    && ListsSubscribed(log, rows)
    && FirstRequestOrder(log, rows)
    && FlagsLatest(log, rows)
  }

  lemma {:induction false} FirstSubAppend(log: seq<Entry>, e: Entry, topic: string)
    ensures FirstSub(log + [e], topic)
         == if FirstSub(log, topic) < |log| || e == Sub(topic) then FirstSub(log, topic) else |log| + 1
  {
    if log == [] {
      assert FirstSub([], topic) == 0;
      assert [e][1..] == [];
    } else {
      FirstSubAppend(log[1..], e, topic);
      assert (log + [e])[1..] == log[1..] + [e];
    }
  }

  lemma {:induction false} FindUnchanged(rows: seq<Row>, pos: nat, row: Row, topic: string)
    requires pos < |rows| && rows[pos].topic == row.topic
    ensures Find(rows[pos := row], topic) == Find(rows, topic)
  {
    if pos > 0 {
      FindUnchanged(rows[1..], pos - 1, row, topic);
      assert rows[pos := row][1..] == rows[1..][pos - 1 := row];
    } else {
      assert rows[pos := row][1..] == rows[1..];
    }
  }

  lemma {:induction false} FindAppend(rows: seq<Row>, row: Row, topic: string)
    ensures Find(rows + [row], topic)
         == if Find(rows, topic) < |rows| || row.topic == topic then Find(rows, topic) else |rows| + 1
  {
    if rows == [] {
      assert [row][1..] == [];
    } else {
      FindAppend(rows[1..], row, topic);
      assert (rows + [row])[1..] == rows[1..] + [row];
    }
  }

  lemma LatestAppend(log: seq<Entry>, e: Entry, topic: string)
    ensures LatestIsSub(log + [e], topic) <==> e == Sub(topic) || (e.topic != topic && LatestIsSub(log, topic))
  {
    var more := log + [e];
    if e == Sub(topic) {
      assert more[|log|] == Sub(topic);
    } else if e.topic != topic && LatestIsSub(log, topic) {
      var k :| 0 <= k < |log| && log[k] == Sub(topic) && forall i :: k < i < |log| ==> log[i].topic != topic;
      assert more[k] == Sub(topic);
    }
    if LatestIsSub(more, topic) {
      var k :| 0 <= k < |more| && more[k] == Sub(topic) && forall i :: k < i < |more| ==> more[i].topic != topic;
      if k < |log| {
        assert more[|log|].topic != topic && log[k] == Sub(topic);
        forall i | k < i < |log|
          ensures log[i].topic != topic
        {
          assert more[i] == log[i];
        }
      }
    }
  }

  /** A new topic goes to the end of the table. */
  lemma NewTopicSummarised(log: seq<Entry>, rows: seq<Row>, topic: string)
    requires Summarises(log, rows) && |rows| < MAX_TOPIC_COUNT && Find(rows, topic) == |rows|
    ensures Summarises(log + [Sub(topic)], rows + [Row(topic, true)])
  {
    var log', rows' := log + [Sub(topic)], rows + [Row(topic, true)];
    forall t: string
      ensures Find(rows', t) < |rows'| <==> FirstSub(log', t) < |log'|
      ensures FirstSub(log', t) == if FirstSub(log, t) < |log| || t == topic then FirstSub(log, t) else |log| + 1
    {
      FirstSubAppend(log, Sub(topic), t);
      FindAppend(rows, Row(topic, true), t);
    }
    OrderGrows(log, rows, topic);
    FlagsGrow(log, rows, Sub(topic), rows);
    LatestAppend(log, Sub(topic), topic);
  }

  lemma ListedIsSubscribed(log: seq<Entry>, rows: seq<Row>, i: nat)
    requires ListsSubscribed(log, rows) && i < |rows|
    ensures FirstSub(log, rows[i].topic) < |log|
  {
    assert Find(rows, rows[i].topic) < |rows|;
  }

  lemma OrderGrows(log: seq<Entry>, rows: seq<Row>, topic: string)
    requires Summarises(log, rows) && Find(rows, topic) == |rows|
    ensures FirstRequestOrder(log + [Sub(topic)], rows + [Row(topic, true)])
  {
    forall i | 0 <= i < |rows|
      ensures FirstSub(log + [Sub(topic)], rows[i].topic) == FirstSub(log, rows[i].topic) < |log|
    {
      ListedIsSubscribed(log, rows, i);
      FirstSubAppend(log, Sub(topic), rows[i].topic);
    }
    FirstSubAppend(log, Sub(topic), topic);
  }

  /** After one more entry, the rows of other topics keep their flags. */
  lemma FlagsGrow(log: seq<Entry>, rows: seq<Row>, e: Entry, rows': seq<Row>)
    requires FlagsLatest(log, rows) && |rows'| == |rows|
    requires forall i :: 0 <= i < |rows| ==>
               rows'[i] == if rows[i].topic == e.topic then Row(e.topic, e.Sub?) else rows[i]
    ensures FlagsLatest(log + [e], rows')
  {
    forall i | 0 <= i < |rows'|
      ensures rows'[i].subscribed <==> LatestIsSub(log + [e], rows'[i].topic)
    {
      LatestAppend(log, e, rows'[i].topic);
    }
  }

  /** No topic appears or disappears by it. */
  lemma FlagChangeKeepsTopics(log: seq<Entry>, rows: seq<Row>, e: Entry, rows': seq<Row>, t: string)
    requires ListsSubscribed(log, rows)
    requires var pos := Find(rows, e.topic);
             if pos < |rows| then rows' == rows[pos := Row(e.topic, e.Sub?)] else e.Unsub? && rows' == rows
    ensures Find(rows', t) == Find(rows, t)
    ensures FirstSub(log + [e], t) == if FirstSub(log, t) < |log| then FirstSub(log, t) else |log| + 1
  {
    var pos := Find(rows, e.topic);
    FirstSubAppend(log, e, t);
    if pos < |rows| {
      FindUnchanged(rows, pos, Row(e.topic, e.Sub?), t);
      ListedIsSubscribed(log, rows, pos);
    }
  }

  /** A request for a listed topic, or an unsubscribe for one that is not, changes at most its flag. */
  lemma FlagChangeSummarised(log: seq<Entry>, rows: seq<Row>, e: Entry, rows': seq<Row>)
    requires Summarises(log, rows)
    requires var pos := Find(rows, e.topic);
             if pos < |rows| then rows' == rows[pos := Row(e.topic, e.Sub?)] else e.Unsub? && rows' == rows
    ensures Summarises(log + [e], rows')
  {
    var pos := Find(rows, e.topic);
    forall t: string
      ensures Find(rows', t) == Find(rows, t)
      ensures FirstSub(log + [e], t) == if FirstSub(log, t) < |log| then FirstSub(log, t) else |log| + 1
    {
      FlagChangeKeepsTopics(log, rows, e, rows', t);
    }
    forall i | 0 <= i < |rows|
      ensures FirstSub(log + [e], rows'[i].topic) == FirstSub(log, rows[i].topic)
    {
      ListedIsSubscribed(log, rows, i);
    }
    FlagsGrow(log, rows, e, rows');
  }

  /** In every state of every history, the table is the summary of the requests accepted this session:
      the distinct topics with an accepted subscribe, in the order of their first one, each flagged by
      its latest accepted request, whatever the broker answered. */
  lemma {:induction false} TableSummarisesLog(history: seq<Request>)
    ensures Run(history).Open? ==> Summarises(Log(history), Run(history).rows)
  {
    if history != [] {
      var before, r := history[..|history| - 1], history[|history| - 1];
      var s := Run(before);
      TableSummarisesLog(before);
      if Accepts(s, r) {
        match r
        case Subscribe(_, topic, _, _) =>
          if Find(s.rows, topic) == |s.rows| {
            NewTopicSummarised(Log(before), s.rows, topic);
          } else {
            FlagChangeSummarised(Log(before), s.rows, Sub(topic), After(s, r).rows);
          }
        case Unsubscribe(_, topic, _) => FlagChangeSummarised(Log(before), s.rows, Unsub(topic), After(s, r).rows);
        case _ => assert Run(history).Open? ==> Summarises([], []);
      }
    }
  }

  // ---------------------------------------------------------------------------------------------
  // A full table.

  /** The session is not ended on the way. */
  predicate StaysOpen(s: Session, history: seq<Request>) {
    forall k :: 0 <= k <= |history| ==> RunFrom(s, history[..k]).Open?
  }

  /** Topics only ever join the table: as long as the session lasts, every row keeps its place. */
  lemma {:induction false} TopicsStay(s: Session, history: seq<Request>)
    requires s.Open? && StaysOpen(s, history)
    ensures RunFrom(s, history).Open?
    ensures |s.rows| <= |RunFrom(s, history).rows|
    ensures forall i :: 0 <= i < |s.rows| ==> RunFrom(s, history).rows[i].topic == s.rows[i].topic
  {
    assert history[..|history|] == history;
    if history != [] {
      var before := history[..|history| - 1];
      forall k | 0 <= k <= |before|
        ensures RunFrom(s, before[..k]).Open?
      {
        assert before[..k] == history[..k];
      }
      TopicsStay(s, before);
    }
  }

  /** Once 250 topics are listed, every later subscribe of the session is refused, also one for a topic
      that is listed and unsubscribed. */
  lemma FullTableRefuses(s: Session, history: seq<Request>, topic: string, hasMemory: bool, brokerOk: bool)
    requires s.Open? && |s.rows| >= MAX_TOPIC_COUNT && StaysOpen(s, history)
    ensures var r := Subscribe(true, topic, hasMemory, brokerOk);
            && Answer(RunFrom(s, history), r) == Error("maxtopics")
            && After(RunFrom(s, history), r) == RunFrom(s, history)
  {
    assert history[..|history|] == history;
    TopicsStay(s, history);
  }

  /** A listed topic can be subscribed again exactly when the table is not full. */
  lemma ResubscribeIff(history: seq<Request>, topic: string, hasMemory: bool, brokerOk: bool)
    requires Run(history).Open? && FirstSub(Log(history), topic) < |Log(history)|
    ensures var r := Subscribe(true, topic, hasMemory, brokerOk);
            LatestIsSub(Log(history + [r]), topic)
            <==> |Run(history).rows| < MAX_TOPIC_COUNT || LatestIsSub(Log(history), topic)
  {
    var r := Subscribe(true, topic, hasMemory, brokerOk);
    TableSummarisesLog(history);
    assert (history + [r])[..|history|] == history;
    assert Find(Run(history).rows, topic) < |Run(history).rows|;
    LatestAppend(Log(history), Sub(topic), topic);
  }

  // ---------------------------------------------------------------------------------------------
  // A history that fills the table.

  predicate Distinct(topics: seq<string>) {
    forall i, j :: 0 <= i < j < |topics| ==> topics[i] != topics[j]
  }

  /** A session that subscribes to these topics, one after the other. */
  function SubscribeAll(topics: seq<string>): seq<Request> {
    if topics == [] then [Init(true, true)] else
      SubscribeAll(topics[..|topics| - 1]) + [Subscribe(true, topics[|topics| - 1], true, true)]
  }

  lemma Last(history: seq<Request>, r: Request)
    ensures Run(history + [r]) == After(Run(history), r)
    ensures Log(history + [r]) == if Accepts(Run(history), r) then Noted(Log(history), r) else Log(history)
  {
    assert (history + [r])[..|history|] == history;
  }

  lemma NewTopicListed(rows: seq<Row>, topic: string)
    requires |rows| < MAX_TOPIC_COUNT && topic !in Topics(rows)
    ensures After(Open(rows), Subscribe(true, topic, true, true)) == Open(rows + [Row(topic, true)])
    ensures Topics(rows + [Row(topic, true)]) == Topics(rows) + [topic]
  {
    assert forall i :: 0 <= i < |rows| ==> rows[i].topic == Topics(rows)[i];
  }

  lemma TableStartsEmpty()
    ensures Run(SubscribeAll([])) == Open([])
  {
    Last([], Init(true, true));
    assert SubscribeAll([]) == [] + [Init(true, true)];
  }

  lemma {:induction false} AllListed(topics: seq<string>)
    requires Distinct(topics) && |topics| <= MAX_TOPIC_COUNT
    ensures Run(SubscribeAll(topics)).Open? && Topics(Run(SubscribeAll(topics)).rows) == topics
  {
    if topics == [] {
      TableStartsEmpty();
    } else {
      var before, topic := topics[..|topics| - 1], topics[|topics| - 1];
      assert topics == before + [topic];
      AllListed(before);
      NewTopicListed(Run(SubscribeAll(before)).rows, topic);
      Last(SubscribeAll(before), Subscribe(true, topic, true, true));
    }
  }

  /** Any 250 topics will do: after them a topic that was unsubscribed stays so, and the answer to the
      subscribe is maxtopics. */
  lemma UnsubscribeIsFinal(topics: seq<string>, k: nat)
    requires Distinct(topics) && |topics| == MAX_TOPIC_COUNT && k < |topics|
    ensures var history := SubscribeAll(topics) + [Unsubscribe(true, topics[k], true)];
            var again := Subscribe(true, topics[k], true, true);
            && Run(history).Open? && |Run(history).rows| == MAX_TOPIC_COUNT
            && Answer(Run(history), again) == Error("maxtopics")
            && !LatestIsSub(Log(history + [again]), topics[k])
  {
    AllListed(topics);
    var history := SubscribeAll(topics);
    var rows := Run(history).rows;
    var r, again := Unsubscribe(true, topics[k], true), Subscribe(true, topics[k], true, true);
    assert rows[k].topic == Topics(rows)[k];
    Last(history, r);
    LatestAppend(Log(history), Unsub(topics[k]), topics[k]);
    Last(history + [r], again);
  }

  /** A table can be filled: 250 topics that differ in length. */
  lemma TableCanFill() returns (topics: seq<string>)
    ensures Distinct(topics) && |topics| == MAX_TOPIC_COUNT
    ensures Run(SubscribeAll(topics)).Open? && |Run(SubscribeAll(topics)).rows| == MAX_TOPIC_COUNT
  {
    topics := seq(MAX_TOPIC_COUNT, i requires 0 <= i => seq(i + 1, _ => 'a'));
    assert forall i :: 0 <= i < |topics| ==> |topics[i]| == i + 1;
    AllListed(topics);
  }
}
