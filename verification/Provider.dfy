/**
 The objects that the cmsutil classes allocate, and the CMS provider they call.
 Everything allocated, used, closed or freed is an event of one log. What a
 memory-safe run is, is said about the log alone, so that no class elsewhere
 can define it to its own advantage.
 */
module Provider {
  import opened Wrappers

  datatype DestinationType = TOPIC | QUEUE | TEMPORARY_TOPIC | TEMPORARY_QUEUE

  /** A destination as its users see it; a temporary queue is also a cms::Queue. */
  datatype Destination = Destination(kind: DestinationType, name: string)
  {
    predicate IsTopic() { kind == TOPIC || kind == TEMPORARY_TOPIC }
  }

  /** What an object is and which pooled session, if any, it was made for. */
  datatype What =
    // CMS objects
    | ConnectionObject
    | SessionObject(pool: nat, slot: nat)
    | ProducerObject(pool: nat, slot: nat, target: Destination)
    | ConsumerObject(pool: nat, slot: nat, target: Destination, selector: string, noLocal: bool)
    | DestinationObject(pool: nat, slot: nat, target: Destination)
    | MessageObject
    // cmsutil objects
    | PoolObject(pool: nat)
    | PooledSessionObject(pool: nat, slot: nat)
    | CachedProducerObject(pool: nat, slot: nat, key: string)
    | CachedConsumerObject(pool: nat, slot: nat, key: string)
    | SessionResolverObject(pool: nat, slot: nat)

  /** An allocated object. The id tells apart objects of the same description. */
  datatype Resource = Resource(id: nat, what: What)

  datatype Qos = Qos(deliveryMode: int, priority: int, timeToLive: int)

  /** What a producer leaves out of its messages. */
  datatype Flags = Flags(noMessageId: bool, noTimestamp: bool)

  datatype Wait = NoWait | Indefinite | Timed(milliseconds: int)

  datatype Event =
    | Made(r: Resource)
    | Freed(r: Resource)
    | Closed(r: Resource)
    | Used(r: Resource)

  type Log = seq<Event>

  /** What goes over the wire. */
  datatype Traffic =
    | Sent(producer: Resource, message: Resource, qos: Option<Qos>, flags: Flags)
    | SendFailed(producer: Resource, message: Resource, exn: Exn)
    | Received(consumer: Resource, wait: Wait)

  /** At position j the object r has been made and has not been freed. */
  ghost predicate LiveAt(log: Log, r: Resource, j: nat)
    requires j <= |log|
  {
    Made(r) in log[..j] && Freed(r) !in log[..j]
  }

  /** The same, and r has not been closed. */
  ghost predicate OpenAt(log: Log, r: Resource, j: nat)
    requires j <= |log|
  {
    LiveAt(log, r, j) && Closed(r) !in log[..j]
  }

  /** At position j the object r has been closed, and has not been freed. */
  ghost predicate ClosedAt(log: Log, r: Resource, j: nat)
    requires j <= |log|
  {
    LiveAt(log, r, j) && Closed(r) in log[..j]
  }

  /** The event e may come at position j: an object is new, one that is freed is live, any other is open. */
  ghost predicate MayFollow(log: Log, j: nat, e: Event)
    requires j <= |log|
  {
    if e.Made? then e !in log[..j] else if e.Freed? then LiveAt(log, e.r, j) else OpenAt(log, e.r, j)
  }

  /** No object is made twice, none is touched unless it is live, and a closed one is only freed. */
  ghost predicate Safe(log: Log) {
    forall j | 0 <= j < |log| :: MayFollow(log, j, log[j])
  }

  /** In a safe run nothing is used, closed or freed after it was freed. */
  lemma NoUseAfterFree(log: Log, i: nat, j: nat)
    requires Safe(log) && i < j < |log| && log[i].Freed?
    ensures log[j].r != log[i].r
  {
    assert MayFollow(log, i, log[i]) && MayFollow(log, j, log[j]);
  }

  /** In a safe run all that can happen to a closed object is that it is freed. */
  lemma NoUseAfterClose(log: Log, i: nat, j: nat)
    requires Safe(log) && i < j < |log| && log[i].Closed? && log[j].r == log[i].r
    ensures log[j].Freed?
  {
    assert MayFollow(log, i, log[i]) && MayFollow(log, j, log[j]);
  }

  lemma EndedOnlyMade(log: Log, r: Resource)
    requires Safe(log)
    ensures Freed(r) in log || Closed(r) in log ==> Made(r) in log
  {
    if Freed(r) in log || Closed(r) in log {
      var i :| 0 <= i < |log| && (log[i] == Freed(r) || log[i] == Closed(r));
      assert MayFollow(log, i, log[i]);
    }
  }

  /** In a safe run an object that was made is freed exactly once, unless it is live at the end. */
  lemma {:induction false} FreedExactlyOnce(log: Log, r: Resource)
    requires Safe(log)
    ensures multiset(log)[Made(r)] <= 1
    ensures multiset(log)[Freed(r)] == if Made(r) in log && !LiveAt(log, r, |log|) then 1 else 0
  {
    if log == [] {
    } else {
      var before, e := log[..|log| - 1], log[|log| - 1];
      assert log == before + [e];
      SafePrefix(before, e);
      FreedExactlyOnce(before, r);
      assert log[..|log|] == log && before[..|before|] == before && log[..|before|] == before;
      assert MayFollow(log, |before|, e);
      if e == Made(r) {
        EndedOnlyMade(before, r);
      }
    }
  }

  lemma SafePrefix(before: Log, e: Event)
    requires Safe(before + [e])
    ensures Safe(before)
  {
    var log := before + [e];
    forall j | 0 <= j < |before| ensures MayFollow(before, j, before[j]) {
      assert log[..j] == before[..j] && log[j] == before[j];
      assert MayFollow(log, j, log[j]);
    }
  }

  /** Appending an event that may follow keeps a log safe. */
  lemma SafeNext(before: Log, e: Event)
    requires Safe(before) && MayFollow(before, |before|, e)
    ensures Safe(before + [e])
  {
    var log := before + [e];
    forall j | 0 <= j < |log| ensures MayFollow(log, j, log[j]) {
      assert log[..j] == before[..j];
      if j < |before| {
        assert MayFollow(before, j, before[j]);
      }
    }
  }

  /** What an event changes. */
  lemma OpenNext(before: Log, e: Event)
    requires Safe(before) && (e.Made? ==> e !in before) && (e.Closed? ==> LiveAt(before, e.r, |before|))
    ensures var log := before + [e];
            && (forall r :: LiveAt(log, r, |log|) <==> (LiveAt(before, r, |before|) || e == Made(r)) && e != Freed(r))
            && (forall r :: Closed(r) in log <==> Closed(r) in before || e == Closed(r))
            && (e.Made? ==> Closed(e.r) !in log)
  {
    var log := before + [e];
    assert log[..|log|] == log && before[..|before|] == before;
    if e.Made? {
      EndedOnlyMade(before, e.r);
    }
  }

  /** The sets are what the log says. */
  ghost predicate Accounts(log: Log, live: set<Resource>, messages: set<Resource>, closed: set<Resource>,
                           gone: set<Resource>, made: set<Resource>)
  {
    && Safe(log)
    && (forall r {:trigger OpenAt(log, r, |log|)} :: r in live <==> !r.what.MessageObject? && OpenAt(log, r, |log|))
    && (forall r {:trigger OpenAt(log, r, |log|)} :: r in messages <==> r.what.MessageObject? && OpenAt(log, r, |log|))
    && (forall r {:trigger ClosedAt(log, r, |log|)} :: r in closed <==> ClosedAt(log, r, |log|))
    && (forall r {:trigger Freed(r) in log} :: r in gone <==> !r.what.MessageObject? && Freed(r) in log)
    && (forall r {:trigger Made(r) in log} :: r in made <==> Made(r) in log)
    && (forall r | r in made :: r.id < |log|)
  }

  /** A use of an object. */
  lemma AccountsUsed(log: Log, live: set<Resource>, messages: set<Resource>, closed: set<Resource>,
                     gone: set<Resource>, made: set<Resource>, r: Resource)
    requires Accounts(log, live, messages, closed, gone, made) && r in live + messages
    ensures Accounts(log + [Used(r)], live, messages, closed, gone, made)
  {
    OpenOrNot(log, live, messages, closed, gone, made, r);
    EventNext(log, Used(r));
    AccountsAfter(log, Used(r), live, messages, closed, gone, made, live, messages, closed, gone);
  }

  /** The end of an object. */
  lemma AccountsFreed(log: Log, live: set<Resource>, messages: set<Resource>, closed: set<Resource>,
                      gone: set<Resource>, made: set<Resource>, r: Resource)
    requires Accounts(log, live, messages, closed, gone, made) && r in live + messages + closed
    ensures Accounts(log + [Freed(r)], live - {r}, messages - {r}, closed - {r},
                     if r.what.MessageObject? then gone else gone + {r}, made)
  {
    OpenOrNot(log, live, messages, closed, gone, made, r);
    EventNext(log, Freed(r));
    AccountsAfter(log, Freed(r), live, messages, closed, gone, made, live - {r}, messages - {r}, closed - {r},
                  if r.what.MessageObject? then gone else gone + {r});
  }

  /** The close of an object. */
  lemma AccountsClosed(log: Log, live: set<Resource>, messages: set<Resource>, closed: set<Resource>,
                       gone: set<Resource>, made: set<Resource>, r: Resource)
    requires Accounts(log, live, messages, closed, gone, made) && r in live + messages
    ensures Accounts(log + [Closed(r)], live - {r}, messages - {r}, closed + {r}, gone, made)
  {
    OpenOrNot(log, live, messages, closed, gone, made, r);
    EventNext(log, Closed(r));
    AccountsAfter(log, Closed(r), live, messages, closed, gone, made, live - {r}, messages - {r}, closed + {r}, gone);
  }

  lemma OpenOrNot(log: Log, live: set<Resource>, messages: set<Resource>, closed: set<Resource>,
                  gone: set<Resource>, made: set<Resource>, r: Resource)
    requires Accounts(log, live, messages, closed, gone, made)
    ensures r in live <==> !r.what.MessageObject? && OpenAt(log, r, |log|)
    ensures r in messages <==> r.what.MessageObject? && OpenAt(log, r, |log|)
    ensures r in closed <==> ClosedAt(log, r, |log|)
  {
    assert OpenAt(log, r, |log|) || !OpenAt(log, r, |log|);
    assert ClosedAt(log, r, |log|) || !ClosedAt(log, r, |log|);
  }

  /** Sets that change as the event says. */
  lemma AccountsAfter(log: Log, e: Event, live: set<Resource>, messages: set<Resource>, closed: set<Resource>,
                      gone: set<Resource>, made: set<Resource>, live': set<Resource>, messages': set<Resource>,
                      closed': set<Resource>, gone': set<Resource>)
    requires Accounts(log, live, messages, closed, gone, made) && !e.Made? && Safe(log + [e])
    requires var log' := log + [e];
             && (forall r :: OpenAt(log', r, |log'|) <==> OpenAt(log, r, |log|) && (e.Used? || r != e.r))
             && (forall r :: ClosedAt(log', r, |log'|) <==>
                   (ClosedAt(log, r, |log|) && e != Freed(r)) || e == Closed(r))
    requires live' == (if e.Used? then live else live - {e.r})
    requires messages' == (if e.Used? then messages else messages - {e.r})
    requires closed' == (if e.Closed? then closed + {e.r} else if e.Freed? then closed - {e.r} else closed)
    requires gone' == (if e.Freed? && !e.r.what.MessageObject? then gone + {e.r} else gone)
    ensures Accounts(log + [e], live', messages', closed', gone', made)
  {
    var log' := log + [e];
    forall r ensures r in made <==> Made(r) in log' {
      assert Made(r) in log' <==> Made(r) in log;
    }
    forall r ensures r in gone' <==> !r.what.MessageObject? && Freed(r) in log' {
      assert Freed(r) in log' <==> Freed(r) in log || e == Freed(r);
    }
  }

  /** An event after which an object is no longer open, or is still open. */
  lemma EventNext(log: Log, e: Event)
    requires Safe(log) && !e.Made? && MayFollow(log, |log|, e)
    ensures Safe(log + [e])
    ensures var log' := log + [e];
            && (forall r :: OpenAt(log', r, |log'|) <==> OpenAt(log, r, |log|) && (e.Used? || r != e.r))
            && (forall r :: ClosedAt(log', r, |log'|) <==> (ClosedAt(log, r, |log|) && e != Freed(r)) || e == Closed(r))
  {
    var log' := log + [e];
    assert log[..|log|] == log && log'[..|log'|] == log';
    SafeNext(log, e);
    OpenNext(log, e);
  }

  /** A new object. */
  lemma AccountsMade(log: Log, live: set<Resource>, messages: set<Resource>, closed: set<Resource>,
                     gone: set<Resource>, made: set<Resource>, r: Resource)
    requires Accounts(log, live, messages, closed, gone, made) && r.id == |log|
    ensures r !in made && r !in live && r !in messages
    ensures Accounts(log + [Made(r)],
                     if r.what.MessageObject? then live else live + {r},
                     if r.what.MessageObject? then messages + {r} else messages,
                     closed, gone, made + {r})
  {
    var e := Made(r);
    var log' := log + [e];
    assert log[..|log|] == log && log'[..|log'|] == log';
    assert e !in log && !LiveAt(log, r, |log|) && !OpenAt(log, r, |log|);
    SafeNext(log, e);
    OpenNext(log, e);
    forall s ensures OpenAt(log', s, |log'|) <==> OpenAt(log, s, |log|) || s == r {
    }
    forall s ensures s in made + {r} <==> Made(s) in log' {
      assert Made(s) in log' <==> Made(s) in log || s == r;
    }
    forall s ensures s in gone <==> !s.what.MessageObject? && Freed(s) in log' {
      assert Freed(s) in log' <==> Freed(s) in log;
    }
    forall s ensures ClosedAt(log', s, |log'|) <==> ClosedAt(log, s, |log|) {
    }
  }

  lemma LastStays(log: Log, later: Log)
    requires log != [] && log <= later
    ensures log[|log| - 1] in later
  {
    assert later[|log| - 1] == log[|log| - 1];
  }

  /** The calls of a range do not fail. */
  ghost predicate Smooth(outcome: nat -> Outcome, from: nat, to: int) {
    forall k: nat | from <= k < to :: outcome(k).Fine?
  }

  /** The CMS provider. The k-th call that may fail ends as outcome(k) says. */
  class CmsProvider {
    const outcome: nat -> Outcome
    var calls: nat
    var log: Log
    var traffic: seq<Traffic>
    var flags: map<Resource, Flags>     // of the producers for which they were set
    ghost var live: set<Resource>       // the objects made and neither closed nor freed, except messages
    ghost var messages: set<Resource>   // the messages made and not freed
    ghost var closed: set<Resource>     // the objects closed and not freed
    ghost var gone: set<Resource>       // the objects freed, except messages
    ghost var made: set<Resource>       // the objects ever made

    ghost predicate Invariant()
      reads `log, `live, `messages, `closed, `gone, `made
    {
      Accounts(log, live, messages, closed, gone, made)
    }

    /** The invariant, for one object: a caller that only passes it on does not open it. */
    ghost predicate Valid()
      reads `log, `live, `messages, `closed, `gone, `made
    {
      forall p: CmsProvider {:trigger p.Invariant()} | p == this :: p.Invariant()
    }

    constructor (outcome: nat -> Outcome)
      ensures Valid() && this.outcome == outcome && calls == 0 && log == [] && traffic == []
      ensures live == {} && messages == {} && closed == {} && gone == {} && made == {}
    {
      this.outcome := outcome;
      calls, log, traffic, flags := 0, [], [], map[];
      live, messages, closed, gone, made := {}, {}, {}, {}, {};
    }

    /** What is live is no message, and the other way round. */
    lemma Kinds(r: Resource)
      requires Valid()
      ensures r in live ==> !r.what.MessageObject? && r !in closed
      ensures r in messages ==> r.what.MessageObject? && r !in closed
      ensures r in closed ==> r !in live && r !in messages
    {
      assert Invariant();
      OpenOrNot(log, live, messages, closed, gone, made, r);
    }

    /** When nothing is closed and not freed, what is live is in the two sets. */
    lemma LiveIsOpen(r: Resource)
      requires Valid() && closed == {}
      ensures LiveAt(log, r, |log|) <==> r in live || r in messages
      ensures r in live ==> !r.what.MessageObject?
      ensures r in messages ==> r.what.MessageObject?
    {
      assert Invariant();
      OpenOrNot(log, live, messages, closed, gone, made, r);
    }

    /** Allocates an object. */
    method Make(what: What) returns (r: Resource)
      requires Valid() && !what.MessageObject?
      modifies `log, `live, `made
      ensures Valid() && log == old(log) + [Made(r)] && made == old(made) + {r}
      ensures r.what == what && r !in old(live) && live == old(live) + {r}
    {
      assert Invariant();
      r := Resource(|log|, what);
      AccountsMade(log, live, messages, closed, gone, made, r);
      log, live, made := log + [Made(r)], live + {r}, made + {r};
      assert Invariant();
    }

    method MakeMessage() returns (m: Resource)
      requires Valid()
      modifies `log, `messages, `made
      ensures Valid() && log == old(log) + [Made(m)] && made == old(made) + {m}
      ensures m.what.MessageObject? && m !in old(messages) && messages == old(messages) + {m}
    {
      assert Invariant();
      m := Resource(|log|, MessageObject);
      AccountsMade(log, live, messages, closed, gone, made, m);
      log, messages, made := log + [Made(m)], messages + {m}, made + {m};
      assert Invariant();
    }

    /** Uses r in a way that cannot fail. */
    method Touch(r: Resource)
      requires Valid() && r in live + messages
      modifies `log
      ensures Valid() && log == old(log) + [Used(r)]
    {
      assert Invariant();
      AccountsUsed(log, live, messages, closed, gone, made, r);
      log := log + [Used(r)];
      assert Invariant();
    }

    method Free(r: Resource)
      requires Valid() && r in live
      modifies `log, `live, `gone
      ensures Valid() && log == old(log) + [Freed(r)] && live == old(live) - {r} && gone == old(gone) + {r}
    {
      Kinds(r);
      assert Invariant();
      AccountsFreed(log, live, messages, closed, gone, made, r);
      assert messages - {r} == messages && closed - {r} == closed;
      log, live, gone := log + [Freed(r)], live - {r}, gone + {r};
      assert Invariant();
    }

    /** Closes a connection. The outcome does not matter to any caller. */
    method Close(r: Resource)
      requires Valid() && r in live
      modifies `calls, `log, `live, `closed
      ensures Valid() && log == old(log) + [Closed(r)]
      ensures live == old(live) - {r} && closed == old(closed) + {r}
      ensures calls == old(calls) + 1
    {
      Kinds(r);
      assert Invariant();
      AccountsClosed(log, live, messages, closed, gone, made, r);
      assert messages - {r} == messages;
      log, live, closed := log + [Closed(r)], live - {r}, closed + {r};
      assert Invariant();
      calls := calls + 1;
    }

    /** Frees a closed object. */
    method FreeClosed(r: Resource)
      requires Valid() && r in closed && !r.what.MessageObject?
      modifies `log, `closed, `gone
      ensures Valid() && log == old(log) + [Freed(r)] && closed == old(closed) - {r} && gone == old(gone) + {r}
    {
      Kinds(r);
      assert Invariant();
      AccountsFreed(log, live, messages, closed, gone, made, r);
      assert messages - {r} == messages && live - {r} == live;
      log, closed, gone := log + [Freed(r)], closed - {r}, gone + {r};
      assert Invariant();
    }

    method FreeMessage(m: Resource)
      requires Valid() && m in messages
      modifies `log, `messages
      ensures Valid() && log == old(log) + [Freed(m)] && messages == old(messages) - {m}
    {
      Kinds(m);
      assert Invariant();
      AccountsFreed(log, live, messages, closed, gone, made, m);
      assert live - {m} == live && closed - {m} == closed;
      log, messages := log + [Freed(m)], messages - {m};
      assert Invariant();
    }

    /** Calls a method of r that may fail. */
    method Call(r: Resource) returns (o: Outcome)
      requires Valid() && r in live
      modifies `calls, `log
      ensures Valid() && log == old(log) + [Used(r)]
      ensures calls == old(calls) + 1 && o == outcome(old(calls))
    {
      Touch(r);
      o := outcome(calls);
      calls := calls + 1;
    }

    /** A call into code that is no object of ours: a connection factory, or a caller's code. */
    method CallOutside() returns (o: Outcome)
      modifies `calls
      ensures calls == old(calls) + 1 && o == outcome(old(calls))
    {
      o := outcome(calls);
      calls := calls + 1;
    }

    function FlagsOf(producer: Resource): Flags
      reads `flags
    {
      if producer in flags then flags[producer] else Flags(false, false)
    }

    /** setDisableMessageID. */
    method SetNoMessageId(producer: Resource, value: bool) returns (o: Outcome)
      requires Valid() && producer in live
      modifies `calls, `flags, `log
      ensures Valid() && log == old(log) + [Used(producer)]
      ensures calls == old(calls) + 1 && o == outcome(old(calls))
      ensures o.Fine? ==> FlagsOf(producer) == old(FlagsOf(producer)).(noMessageId := value)
    {
      o := Call(producer);
      if o.Fine? {
        flags := flags[producer := FlagsOf(producer).(noMessageId := value)];
      }
    }

    /** setDisableMessageTimeStamp. */
    method SetNoTimestamp(producer: Resource, value: bool) returns (o: Outcome)
      requires Valid() && producer in live
      modifies `calls, `flags, `log
      ensures Valid() && log == old(log) + [Used(producer)]
      ensures calls == old(calls) + 1 && o == outcome(old(calls))
      ensures o.Fine? ==> FlagsOf(producer) == old(FlagsOf(producer)).(noTimestamp := value)
    {
      o := Call(producer);
      if o.Fine? {
        flags := flags[producer := FlagsOf(producer).(noTimestamp := value)];
      }
    }

    method Send(producer: Resource, message: Resource, qos: Option<Qos>) returns (o: Outcome)
      requires Valid() && producer in live && message in messages
      modifies `calls, `traffic, `log
      ensures Valid() && log == old(log) + [Used(message), Used(producer)]
      ensures calls == old(calls) + 1 && o == outcome(old(calls))
      ensures traffic == old(traffic)
                         + [if o.Fine? then Sent(producer, message, qos, FlagsOf(producer))
                            else SendFailed(producer, message, o.exn)]
    {
      Touch(message);
      o := Call(producer);
      traffic := traffic + [if o.Fine? then Sent(producer, message, qos, FlagsOf(producer))
                            else SendFailed(producer, message, o.exn)];
    }

    method Receive(consumer: Resource, wait: Wait) returns (o: Outcome)
      requires Valid() && consumer in live
      modifies `calls, `traffic, `log
      ensures Valid() && log == old(log) + [Used(consumer)]
      ensures calls == old(calls) + 1 && o == outcome(old(calls))
      ensures traffic == if o.Fine? then old(traffic) + [Received(consumer, wait)] else old(traffic)
    {
      o := Call(consumer);
      if o.Fine? {
        traffic := traffic + [Received(consumer, wait)];
      }
    }
  }
}
