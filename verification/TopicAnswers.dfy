/** What the user is told: for every request of every history the exact answer, in terms of the requests
    before it. */
module TopicAnswers {
  import opened TopicTable

  // ---------------------------------------------------------------------------------------------
  // When a session is open.

  predicate Opens(r: Request) {
    r == Init(true, true)
  }

  predicate Ends(r: Request) {
    r == Disconnect(true) || r == SessionDown
  }

  /** A successful init that nothing has ended since. */
  predicate InSession(history: seq<Request>) {
    exists k :: 0 <= k < |history| && Opens(history[k]) && forall j :: k < j < |history| ==> !Ends(history[j])
  }

  lemma InSessionAppend(before: seq<Request>, r: Request)
    ensures InSession(before + [r]) <==> Opens(r) || (InSession(before) && !Ends(r))
  {
    var history := before + [r];
    if Opens(r) {
      assert Opens(history[|before|]);
    } else if InSession(before) && !Ends(r) {
      var k :| 0 <= k < |before| && Opens(before[k]) && forall j :: k < j < |before| ==> !Ends(before[j]);
      assert Opens(history[k]);
    }
    if InSession(history) && !Opens(r) {
      var k :| 0 <= k < |history| && Opens(history[k]) && forall j :: k < j < |history| ==> !Ends(history[j]);
      assert k < |before| && Opens(before[k]);
      assert !Ends(history[|before|]);
      forall j | k < j < |before|
        ensures !Ends(before[j])
      {
        assert !Ends(history[j]);
      }
    }
  }

  /** A session is open exactly if there was an init with a dictionary and a connection, and neither an
      accepted disconnect nor a session-down event since. */
  lemma {:induction false} OpenIff(history: seq<Request>)
    ensures Run(history).Open? <==> InSession(history)
  {
    if history != [] {
      var before, r := history[..|history| - 1], history[|history| - 1];
      OpenIff(before);
      InSessionAppend(before, r);
      assert history == before + [r];
    }
  }

  // ---------------------------------------------------------------------------------------------
  // How many topics are listed.

  /** The topics with an accepted subscribe in the log. */
  function Subscribed(log: seq<Entry>): set<string> {
    set e | e in log && e.Sub? :: e.topic
  }

  lemma {:induction false} DistinctRows(rows: seq<Row>)
    requires DistinctTopics(rows)
    ensures |set row | row in rows :: row.topic| == |rows|
  {
    if rows != [] {
      var front, last := rows[..|rows| - 1], rows[|rows| - 1];
      DistinctRows(front);
      assert rows == front + [last];
      assert (set row | row in rows :: row.topic) == (set row | row in front :: row.topic) + {last.topic};
    }
  }

  lemma FindIff(rows: seq<Row>, topic: string)
    ensures Find(rows, topic) < |rows| <==> topic in set row | row in rows :: row.topic
  {
    if Find(rows, topic) < |rows| {
      assert rows[Find(rows, topic)] in rows;
    }
  }

  lemma FirstSubIff(log: seq<Entry>, topic: string)
    ensures FirstSub(log, topic) < |log| <==> topic in Subscribed(log)
  {
    if FirstSub(log, topic) < |log| {
      assert log[FirstSub(log, topic)] in log;
    }
  }

  /** The table has as many rows as there are topics with an accepted subscribe, and lists those. */
  lemma RowsAreSubscribed(history: seq<Request>)
    requires Run(history).Open?
    ensures |Run(history).rows| == |Subscribed(Log(history))|
    ensures forall topic: string ::
              Find(Run(history).rows, topic) < |Run(history).rows| <==> topic in Subscribed(Log(history))
  {
    var log, rows := Log(history), Run(history).rows;
    TableSummarisesLog(history);
    forall topic: string
      ensures Find(rows, topic) < |rows| <==> topic in Subscribed(log)
      ensures topic in (set row | row in rows :: row.topic) <==> topic in Subscribed(log)
    {
      FindIff(rows, topic);
      FirstSubIff(log, topic);
    }
    assert (set row | row in rows :: row.topic) == Subscribed(log);
    DistinctRows(rows);
  }

  // ---------------------------------------------------------------------------------------------
  // The answers.

  /** The library has no objection and turns to the broker. `open`, `full` and `known` say how things
      stand: a session is open, 250 topics are listed, the topic of the request is among them. */
  predicate ReachesBroker(open: bool, full: bool, known: bool, r: Request) {
    match r
    case Init(isDict, _) => !open && isDict
    case Subscribe(isString, _, hasMemory, _) => open && isString && !full && (known || hasMemory)
    case Unsubscribe(isString, _, _) => open && isString
    case Disconnect(_) => open
    case SessionDown => false
  }

  predicate BrokerAgrees(r: Request) {
    match r
    case Init(_, connected) => connected
    case Subscribe(_, _, _, brokerOk) => brokerOk
    case Unsubscribe(_, _, brokerOk) => brokerOk
    case Disconnect(brokerOk) => brokerOk
    case SessionDown => true
  }

  /** Why the library objects, if it does: the first reason in the order of its checks. */
  predicate Objects(open: bool, full: bool, known: bool, r: Request, reason: string) {
    || (reason == "alreadyinit" && r.Init? && open)
    || (reason == "expecteddict" && r.Init? && !open && !r.isDict)
    || (reason == "noinit" && (r.Subscribe? || r.Unsubscribe?) && !open)
    || (reason == "nonconnected" && r.Disconnect? && !open)
    || (reason == "topictype" && (r.Subscribe? || r.Unsubscribe?) && open && !r.isString)
    || (reason == "maxtopics" && r.Subscribe? && open && r.isString && full)
    || (reason == "memory" && r.Subscribe? && open && r.isString && !full && !known && !r.hasMemory)
  }

  /** The whole of what an answer says. */
  ghost predicate Tells(open: bool, full: bool, known: bool, r: Request, a: Reply) {
    && (a.Fine? <==> r.SessionDown? || (ReachesBroker(open, full, known, r) && BrokerAgrees(r)))
    && (a.BrokerError? <==> ReachesBroker(open, full, known, r) && !BrokerAgrees(r))
    && (forall reason: string :: a == Error(reason) <==> Objects(open, full, known, r, reason))
  }

  lemma AnswerTells(s: Session, r: Request)
    ensures var open := s.Open?;
            var full := open && |s.rows| >= MAX_TOPIC_COUNT;
            var known := open && (r.Subscribe? || r.Unsubscribe?) && Find(s.rows, r.topic) < |s.rows|;
            Tells(open, full, known, r, Answer(s, r))
  {
  }

  lemma {:induction false} AnswerAt(s: Session, history: seq<Request>, k: nat)
    requires k < |history|
    ensures |Answers(s, history)| == |history| && Answers(s, history)[k] == Answer(RunFrom(s, history[..k]), history[k])
  {
    var before := history[..|history| - 1];
    if k < |before| {
      AnswerAt(s, before, k);
      assert before[..k] == history[..k];
    } else if before != [] {
      AnswerAt(s, before, 0);
    }
  }

  /** For every request of every history: Fine, the broker's refusal and each reason of the library are
      answered exactly when the requests before it say so. */
  lemma AnswersTell(history: seq<Request>, k: nat)
    requires k < |history|
    ensures |Answers(Closed, history)| == |history|
    ensures var before, r := history[..k], history[k];
            var open := InSession(before);
            var full := open && |Subscribed(Log(before))| >= MAX_TOPIC_COUNT;
            var known := open && (r.Subscribe? || r.Unsubscribe?) && r.topic in Subscribed(Log(before));
            Tells(open, full, known, r, Answers(Closed, history)[k])
  {
    var before, r := history[..k], history[k];
    AnswerAt(Closed, history, k);
    OpenIff(before);
    if InSession(before) {
      RowsAreSubscribed(before);
    }
    AnswerTells(Run(before), r);
  }
}
