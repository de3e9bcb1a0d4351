/** The session and topic bookkeeping of src/solace_k.c in place: the fixed arrays of `topicindex`, the
    `initiated` flag, and the heap the topic names live on. A name that was freed is no longer in `heap`,
    so reading or freeing it would not verify. */
module TopicRegistry {
  import opened TopicTable

  /** The address of an allocated name. */
  type Ptr = nat

  ghost function Addresses(ptrs: seq<Ptr>): set<Ptr> {
    set p | p in ptrs
  }

  /** `ptrs` are the addresses allocated, each of them once. */
  ghost predicate Accounts(ptrs: seq<Ptr>, heap: map<Ptr, string>) {
    && (forall i, j :: 0 <= i < j < |ptrs| ==> ptrs[i] != ptrs[j])
    && heap.Keys == Addresses(ptrs)
  }

  /** The names at these addresses. */
  ghost function NamesAt(ptrs: seq<Ptr>, heap: map<Ptr, string>): (names: seq<string>)
    ensures |names| == |ptrs|
  {
    seq(|ptrs|, i requires 0 <= i < |ptrs| => if ptrs[i] in heap then heap[ptrs[i]] else "")
  }

  /** A new address joins; the names at the others, here those of `kept`, stay. */
  lemma Allocating(kept: seq<Ptr>, rest: seq<Ptr>, heap: map<Ptr, string>, p: Ptr, name: string)
    requires Accounts(kept + rest, heap) && p !in heap
    ensures Accounts(kept + rest + [p], heap[p := name])
    ensures NamesAt(kept, heap[p := name]) == NamesAt(kept, heap)
  {
    forall i | 0 <= i < |kept|
      ensures NamesAt(kept, heap[p := name])[i] == NamesAt(kept, heap)[i]
    {
      assert (kept + rest)[i] == kept[i];
    }
  }

  /** Some addresses go; the others account for the rest. */
  lemma Freeing(kept: seq<Ptr>, freed: seq<Ptr>, heap: map<Ptr, string>)
    requires Accounts(kept + freed, heap)
    ensures var left := heap - Addresses(freed);
            Accounts(kept, left) && NamesAt(kept, left) == NamesAt(kept, heap)
  {
    var all := kept + freed;
    assert forall i :: 0 <= i < |kept| ==> all[i] == kept[i];
    assert forall i :: 0 <= i < |freed| ==> all[|kept| + i] == freed[i];
    assert forall p :: p in kept ==> p in all && p !in freed;
    assert forall p :: p in all && p !in freed ==> p in kept;
  }

  /** The loop that frees a table meets a live name every time. */
  lemma FreeingNext(slots: seq<Ptr>, heap: map<Ptr, string>, n: nat, i: nat)
    requires i < n <= |slots| && LiveAndDistinct(slots, heap, n)
    ensures slots[i] in heap - Addresses(slots[..i])
    ensures heap - Addresses(slots[..i]) - {slots[i]} == heap - Addresses(slots[..i + 1])
  {
    assert slots[..i + 1] == slots[..i] + [slots[i]];
  }

  /** The names of a table, behind those of `kept`. */
  lemma NamesOfTable(kept: seq<Ptr>, slots: seq<Ptr>, ends: seq<int>, heap: map<Ptr, string>, n: nat)
    requires n <= |slots| == |ends| && forall i :: 0 <= i < n ==> slots[i] in heap
    ensures NamesAt(kept + slots[..n], heap) == NamesAt(kept, heap) + Topics(RowsOf(slots, ends, heap, n))
  {
  }

  lemma {:induction false} AddressesCount(ptrs: seq<Ptr>)
    requires forall i, j :: 0 <= i < j < |ptrs| ==> ptrs[i] != ptrs[j]
    ensures |Addresses(ptrs)| == |ptrs|
  {
    if ptrs != [] {
      var kept, last := ptrs[..|ptrs| - 1], ptrs[|ptrs| - 1];
      AddressesCount(kept);
      assert ptrs == kept + [last];
      assert Addresses(ptrs) == Addresses(kept) + {last};
    }
  }

  /** The rows that `n` slots stand for. */
  ghost function RowsOf(slots: seq<Ptr>, ends: seq<int>, heap: map<Ptr, string>, n: nat): (rows: seq<Row>)
    requires n <= |slots| == |ends| && forall i :: 0 <= i < n ==> slots[i] in heap
    ensures |rows| == n
    ensures forall i :: 0 <= i < n ==> rows[i] == Row(heap[slots[i]], ends[i] == 0)
  {
    seq(n, i requires 0 <= i < n => Row(heap[slots[i]], ends[i] == 0))
  }

  /** The first `n` slots hold live names, no address and no name twice. */
  ghost predicate LiveAndDistinct(slots: seq<Ptr>, heap: map<Ptr, string>, n: nat)
    requires n <= |slots|
  {
    && (forall i :: 0 <= i < n ==> slots[i] in heap)
    && (forall i, j :: 0 <= i < j < n ==> slots[i] != slots[j])
    && (forall i, j :: 0 <= i < j < n ==> heap[slots[i]] != heap[slots[j]])
  }

  lemma NamesGrow(slots: seq<Ptr>, heap: map<Ptr, string>, n: nat, p: Ptr, name: string)
    requires n < |slots| && LiveAndDistinct(slots, heap, n) && p !in heap
    requires forall i :: 0 <= i < n ==> heap[slots[i]] != name
    ensures LiveAndDistinct(slots[n := p], heap[p := name], n + 1)
  {
  }

  lemma RowsGrow(slots: seq<Ptr>, ends: seq<int>, heap: map<Ptr, string>, n: nat, p: Ptr, name: string)
    requires n < |slots| == |ends| && p !in heap && forall i :: 0 <= i < n ==> slots[i] in heap
    ensures RowsOf(slots[n := p], ends[n := 0], heap[p := name], n + 1)
         == RowsOf(slots, ends, heap, n) + [Row(name, true)]
  {
  }

  /** A new name joins the table. */
  lemma TableGrows(slots: seq<Ptr>, ends: seq<int>, n: nat, orphans: seq<Ptr>, heap: map<Ptr, string>, p: Ptr,
                   name: string)
    requires n < |slots| == |ends| && p !in heap
    requires LiveAndDistinct(slots, heap, n) && Accounts(orphans + slots[..n], heap)
    requires Find(RowsOf(slots, ends, heap, n), name) == n
    ensures var slots', ends', heap' := slots[n := p], ends[n := 0], heap[p := name];
            && LiveAndDistinct(slots', heap', n + 1) && Accounts(orphans + slots'[..n + 1], heap')
            && RowsOf(slots', ends', heap', n + 1) == RowsOf(slots, ends, heap, n) + [Row(name, true)]
            && NamesAt(orphans, heap') == NamesAt(orphans, heap)
  {
    assert forall i :: 0 <= i < n ==> heap[slots[i]] == RowsOf(slots, ends, heap, n)[i].topic;
    NamesGrow(slots, heap, n, p, name);
    RowsGrow(slots, ends, heap, n, p, name);
    Allocating(orphans, slots[..n], heap, p, name);
    assert orphans + slots[n := p][..n + 1] == orphans + slots[..n] + [p];
  }

  lemma RowChanges(slots: seq<Ptr>, ends: seq<int>, heap: map<Ptr, string>, n: nat, k: nat, end: int)
    requires k < n <= |slots| == |ends| && forall i :: 0 <= i < n ==> slots[i] in heap
    ensures RowsOf(slots, ends[k := end], heap, n)
         == RowsOf(slots, ends, heap, n)[k := Row(heap[slots[k]], end == 0)]
  {
  }

  class Registry {
    var initiated: bool
    /** topicindex.size */
    var size: nat
    const topics: array<Ptr>
    /** topicindex.subscribed and .unsubscribed: times, 0 for none. */
    const subscribed: array<int>
    const unsubscribed: array<int>
    /** The names that are allocated. */
    var heap: map<Ptr, string>
    /** The addresses of sessions that were cut off, oldest first: nothing points to them any more. */
    ghost var orphans: seq<Ptr>
    /** An address never handed out before. */
    var nextAddress: Ptr

    ghost predicate Valid()
      reads this, topics, subscribed, unsubscribed
    {
      && topics.Length == subscribed.Length == unsubscribed.Length == MAX_TOPIC_COUNT
      && subscribed != unsubscribed
      && size <= MAX_TOPIC_COUNT
      && (forall p :: p in heap ==> p < nextAddress)
      && (initiated ==> NamesOwned())
      && Accounts(Allocated(), heap)
    }

    /** The addresses left behind, then those of the table. */
    ghost function Allocated(): seq<Ptr>
      requires size <= topics.Length
      reads this, topics
    {
      orphans + if initiated then topics[..][..size] else []
    }

    /** The names left behind. */
    ghost function OrphanNames(): seq<string>
      reads this
    {
      NamesAt(orphans, heap)
    }

    /** Every slot below `size` holds a live name of its own, and no two names are equal. */
    ghost predicate NamesOwned()
      requires size <= topics.Length
      reads this, topics
    {
      LiveAndDistinct(topics[..], heap, size)
    }

    /** The table as gettopics shows it. */
    ghost function Rows(): (rows: seq<Row>)
      requires Valid() && initiated
      reads this, topics, subscribed, unsubscribed
      ensures |rows| == size
    {
      RowsOf(topics[..], unsubscribed[..], heap, size)
    }

    ghost function State(): Session
      requires Valid()
      reads this, topics, subscribed, unsubscribed
    {
      if initiated then Open(Rows()) else Closed
    }

    constructor ()
      ensures Valid() && State() == Closed && heap == map[] && orphans == []
      ensures fresh(topics) && fresh(subscribed) && fresh(unsubscribed)
    {
      initiated, size, heap, nextAddress := false, 0, map[], 0;
      orphans := [];
      topics := new Ptr[MAX_TOPIC_COUNT](_ => 0);
      subscribed := new int[MAX_TOPIC_COUNT](_ => 0);
      unsubscribed := new int[MAX_TOPIC_COUNT](_ => 0);
    }

    /** init: the table of an earlier session that was cut off is simply forgotten. */
    method Init(isDict: bool, connected: bool) returns (reply: Reply)
      requires Valid()
      modifies this
      ensures Valid() && heap == old(heap) && orphans == old(orphans)
      ensures State() == After(old(State()), TopicTable.Init(isDict, connected))
      ensures reply == Answer(old(State()), TopicTable.Init(isDict, connected))
    {
      if initiated {
        return Error("alreadyinit");
      }
      size := 0;
      if !isDict {
        return Error("expecteddict");
      }
      if !connected {
        return BrokerError;
      }
      initiated := true;
      assert Rows() == [];
      reply := Fine;
    }

    /** findTopicInList */
    method FindTopicInList(needle: string) returns (pos: int)
      requires Valid() && initiated
      ensures var k := Find(Rows(), needle); pos == if k < size then k else -1
    {
      var i := 0;
      while i < size
        invariant i <= size && Find(Rows(), needle) >= i
      {
        if heap[topics[i]] == needle {
          assert Rows()[i].topic == needle;
          return i;
        }
        assert Rows()[i].topic != needle;
        i := i + 1;
      }
      pos := -1;
    }

    /** The part of subscribe that gives a new topic a slot and a name of its own. */
    method AddTopic(topic: string, now: int)
      requires Valid() && initiated && size < MAX_TOPIC_COUNT
      requires Find(Rows(), topic) == size
      modifies this`heap, this`nextAddress, this`size, topics, subscribed, unsubscribed
      ensures Valid() && Rows() == old(Rows()) + [Row(topic, true)]
      ensures size == old(size) + 1 && topics[old(size)] !in old(heap)
      ensures heap == old(heap)[topics[old(size)] := topic]
      ensures OrphanNames() == old(OrphanNames())
      ensures subscribed[..] == old(subscribed[..])[old(size) := now]
    {
      ghost var slots, ends := topics[..], unsubscribed[..];
      TableGrows(slots, ends, size, orphans, heap, nextAddress, topic);
      topics[size] := nextAddress;
      heap := heap[nextAddress := topic];
      nextAddress := nextAddress + 1;
      subscribed[size] := now;
      unsubscribed[size] := 0;
      size := size + 1;
      assert topics[..] == slots[old(size) := old(nextAddress)] && unsubscribed[..] == ends[old(size) := 0];
    }

    /** The part of subscribe that marks a known topic. */
    method MarkSubscribed(pos: nat, now: int)
      requires Valid() && initiated && pos < size
      modifies subscribed, unsubscribed
      ensures Valid() && Rows() == old(Rows())[pos := Row(old(Rows())[pos].topic, true)]
      ensures subscribed[..] == old(subscribed[..])[pos := now]
    {
      RowChanges(topics[..], unsubscribed[..], heap, size, pos, 0);
      subscribed[pos] := now;
      unsubscribed[pos] := 0;
      assert unsubscribed[..] == old(unsubscribed[..])[pos := 0];
    }

    /** subscribe: the table is updated before the broker is asked. `now` is the time of day. */
    method Subscribe(isString: bool, topic: string, hasMemory: bool, brokerOk: bool, now: int)
      returns (reply: Reply)
      requires Valid() && now > 0
      modifies this, topics, subscribed, unsubscribed
      ensures Valid()
      ensures State() == After(old(State()), TopicTable.Subscribe(isString, topic, hasMemory, brokerOk))
      ensures reply == Answer(old(State()), TopicTable.Subscribe(isString, topic, hasMemory, brokerOk))
      ensures orphans == old(orphans) && OrphanNames() == old(OrphanNames())
      ensures subscribed[..] == if Accepts(old(State()), TopicTable.Subscribe(isString, topic, hasMemory, brokerOk))
                                then old(subscribed[..])[Find(old(State()).rows, topic) := now]
                                else old(subscribed[..])
      ensures heap == old(heap)
              || (&& size == old(size) + 1 && topics[old(size)] !in old(heap)
                  && heap == old(heap)[topics[old(size)] := topic])
    {
      if !initiated {
        return Error("noinit");
      }
      if !isString {
        return Error("topictype");
      }
      if size >= MAX_TOPIC_COUNT {
        return Error("maxtopics");
      }
      var pos := FindTopicInList(topic);
      if pos == -1 {
        if !hasMemory {
          return Error("memory");
        }
        AddTopic(topic, now);
      } else {
        MarkSubscribed(pos, now);
      }
      reply := if brokerOk then Fine else BrokerError;
    }

    /** unsubscribe: an unknown topic still goes to the broker. */
    method Unsubscribe(isString: bool, topic: string, brokerOk: bool, now: int) returns (reply: Reply)
      requires Valid() && now > 0
      modifies unsubscribed
      ensures Valid()
      ensures State() == After(old(State()), TopicTable.Unsubscribe(isString, topic, brokerOk))
      ensures reply == Answer(old(State()), TopicTable.Unsubscribe(isString, topic, brokerOk))
      ensures unsubscribed[..]
           == if Accepts(old(State()), TopicTable.Unsubscribe(isString, topic, brokerOk))
                 && Find(old(State()).rows, topic) < |old(State()).rows|
              then old(unsubscribed[..])[Find(old(State()).rows, topic) := now]
              else old(unsubscribed[..])
    {
      if !initiated {
        return Error("noinit");
      }
      if !isString {
        return Error("topictype");
      }
      var pos := FindTopicInList(topic);
      if pos != -1 {
        RowChanges(topics[..], unsubscribed[..], heap, size, pos, now);
        unsubscribed[pos] := now;
        assert unsubscribed[..] == old(unsubscribed[..])[pos := now];
      }
      reply := if brokerOk then Fine else BrokerError;
    }

    /** gettopics */
    method GetTopics() returns (reply: Reply, rows: seq<Row>)
      requires Valid()
      ensures !initiated ==> reply == Error("noinit") && rows == []
      ensures initiated ==> reply == Fine && rows == Rows()
    {
      rows := [];
      if !initiated {
        return Error("noinit"), [];
      }
      var i := 0;
      while i < size
        invariant i <= size && rows == Rows()[..i]
      {
        rows := rows + [Row(heap[topics[i]], unsubscribed[i] == 0)];
        i := i + 1;
      }
      reply := Fine;
    }

    /** free: only a live name can be freed. */
    method Free(p: Ptr)
      requires p in heap
      modifies this`heap
      ensures heap == old(heap) - {p}
    {
      heap := heap - {p};
    }

    /** The loop of sessiondisconnect. */
    method FreeTable()
      requires size <= topics.Length && NamesOwned()
      modifies this`heap
      ensures heap == old(heap) - Addresses(topics[..][..size])
    {
      var i := 0;
      while i < size
        invariant i <= size
        invariant heap == old(heap) - Addresses(topics[..][..i])
      {
        FreeingNext(topics[..], old(heap), size, i);
        Free(topics[i]);
        i := i + 1;
      }
    }

    /** sessiondisconnect: frees exactly the names of the table, each of them once, so that what is left
        allocated is what the session found. The size is left as it is; only the next init resets it. */
    method SessionDisconnect(brokerOk: bool) returns (reply: Reply)
      requires Valid()
      modifies this`initiated, this`heap
      ensures Valid()
      ensures State() == After(old(State()), TopicTable.Disconnect(brokerOk))
      ensures reply == Answer(old(State()), TopicTable.Disconnect(brokerOk))
      ensures old(initiated) && brokerOk ==> heap == old(heap) - Addresses(topics[..][..size])
      ensures !(old(initiated) && brokerOk) ==> heap == old(heap)
      ensures OrphanNames() == old(OrphanNames())
    {
      if !initiated {
        return Error("nonconnected");
      }
      if !brokerOk {
        assert Rows() == old(Rows());
        return BrokerError;
      }
      Freeing(orphans, topics[..][..size], heap);
      initiated := false;
      FreeTable();
      assert Allocated() == orphans;
      reply := Fine;
    }

    /** SOLCLIENT_SESSION_EVENT_DOWN_ERROR: the names stay allocated, and nobody frees them any more. */
    method SessionDown()
      requires Valid()
      modifies this`initiated, this`orphans
      ensures Valid() && State() == Closed && heap == old(heap)
      ensures old(orphans) <= orphans
      ensures OrphanNames() == old(OrphanNames()) + Lost(old(State()), TopicTable.SessionDown)
    {
      if initiated {
        NamesOfTable(orphans, topics[..], unsubscribed[..], heap, size);
        orphans := orphans + topics[..][..size];
        initiated := false;
      }
    }
  }

  // ---------------------------------------------------------------------------------------------
  // Whole histories.

  /** One request or event, at a time of day. */
  method Handle(registry: Registry, r: Request, now: int) returns (reply: Reply)
    requires registry.Valid() && now > 0
    modifies registry, registry.topics, registry.subscribed, registry.unsubscribed
    ensures registry.Valid()
    ensures registry.State() == After(old(registry.State()), r)
    ensures reply == Answer(old(registry.State()), r)
    ensures old(registry.orphans) <= registry.orphans
    ensures registry.OrphanNames() == old(registry.OrphanNames()) + Lost(old(registry.State()), r)
  {
    match r
    case Init(isDict, connected) => reply := registry.Init(isDict, connected);
    case Subscribe(isString, topic, hasMemory, brokerOk) =>
      reply := registry.Subscribe(isString, topic, hasMemory, brokerOk, now);
    case Unsubscribe(isString, topic, brokerOk) => reply := registry.Unsubscribe(isString, topic, brokerOk, now);
    case Disconnect(brokerOk) => reply := registry.SessionDisconnect(brokerOk);
    case SessionDown =>
      registry.SessionDown();
      reply := Fine;
  }

  /** The names allocated are those left behind and those of the open table, each at an address of its
      own, and no others. */
  lemma AllocatedNames(registry: Registry)
    requires registry.Valid()
    ensures Accounts(registry.Allocated(), registry.heap) && |registry.heap| == |registry.Allocated()|
    ensures NamesAt(registry.Allocated(), registry.heap)
         == registry.OrphanNames() + TableNames(registry.State())
  {
    AddressesCount(registry.Allocated());
    assert |registry.heap| == |registry.heap.Keys|;
    if registry.initiated {
      NamesOfTable(registry.orphans, registry.topics[..], registry.unsubscribed[..], registry.heap, registry.size);
    }
  }

  /** The same addresses with the same names are the same heap. */
  lemma SameNamesSameHeap(ptrs: seq<Ptr>, a: map<Ptr, string>, b: map<Ptr, string>)
    requires Accounts(ptrs, a) && Accounts(ptrs, b) && NamesAt(ptrs, a) == NamesAt(ptrs, b)
    ensures a == b
  {
    forall p | p in a
      ensures a[p] == b[p]
    {
      var i :| 0 <= i < |ptrs| && ptrs[i] == p;
      assert NamesAt(ptrs, a)[i] == NamesAt(ptrs, b)[i];
    }
  }

  lemma NothingLeaked(registry: Registry, was: map<Ptr, string>)
    requires registry.Valid() && registry.State().Closed?
    requires Accounts(registry.orphans, was) && NamesAt(registry.orphans, was) == registry.OrphanNames()
    ensures registry.heap == was
  {
    assert registry.Allocated() == registry.orphans;
    SameNamesSameHeap(registry.orphans, registry.heap, was);
  }

  /** A whole history in place: state and answers are those of the value model, and the names left behind
      are exactly those of the sessions that were cut off. */
  method Serve(registry: Registry, history: seq<Request>, clock: seq<int>) returns (replies: seq<Reply>)
    requires registry.Valid() && |clock| == |history| && forall i :: 0 <= i < |clock| ==> clock[i] > 0
    modifies registry, registry.topics, registry.subscribed, registry.unsubscribed
    ensures registry.Valid()
    ensures registry.State() == RunFrom(old(registry.State()), history)
    ensures replies == Answers(old(registry.State()), history)
    ensures old(registry.orphans) <= registry.orphans
    ensures registry.OrphanNames() == old(registry.OrphanNames()) + LeftBehind(old(registry.State()), history)
    decreases |history|
  {
    if history == [] {
      return [];
    }
    var last := |history| - 1;
    LeftBehindStep(registry.OrphanNames(), registry.State(), history);
    var before := Serve(registry, history[..last], clock[..last]);
    var reply := Handle(registry, history[last], clock[last]);
    replies := before + [reply];
  }

  /** From a closed state to a closed state, without a session that was cut off: every name allocated on
      the way is freed, and every name there was is still there. */
  method ServeWithoutLeak(registry: Registry, history: seq<Request>, clock: seq<int>)
    requires registry.Valid() && |clock| == |history| && forall i :: 0 <= i < |clock| ==> clock[i] > 0
    requires registry.State().Closed? && RunFrom(Closed, history).Closed? && LeftBehind(Closed, history) == []
    modifies registry, registry.topics, registry.subscribed, registry.unsubscribed
    ensures registry.Valid() && registry.heap == old(registry.heap)
  {
    assert registry.Allocated() == registry.orphans;
    var _ := Serve(registry, history, clock);
    assert registry.orphans == old(registry.orphans);
    NothingLeaked(registry, old(registry.heap));
  }
}
