/** ResourceLifecycleManager.cpp: the owner of the CMS objects themselves. */
module Lifecycle {
  import opened Provider

  predicate Distinct<T(==)>(s: seq<T>) {
    forall i, j | 0 <= i < j < |s| :: s[i] != s[j]
  }

  function FreeEach(rs: seq<Resource>): Log {
    seq(|rs|, i requires 0 <= i < |rs| => Freed(rs[i]))
  }

  function CloseEach(rs: seq<Resource>): Log {
    seq(|rs|, i requires 0 <= i < |rs| => Closed(rs[i]))
  }

  /** The log that Destroy leaves. */
  function Teardown(log: Log, connections: seq<Resource>, producers: seq<Resource>, consumers: seq<Resource>,
                    destinations: seq<Resource>, sessions: seq<Resource>): Log {
    log + CloseEach(connections) + FreeEach(producers) + FreeEach(consumers) + FreeEach(destinations)
    + FreeEach(sessions) + FreeEach(connections)
  }

  /** The phase of a teardown that an event belongs to. */
  function Phase(e: Event): nat {
    if !e.Freed? then 0
    else if e.r.what.ProducerObject? || e.r.what.ConsumerObject? then 1
    else if e.r.what.DestinationObject? then 2
    else if e.r.what.SessionObject? then 3
    else 4
  }

  ghost predicate Kinds(connections: seq<Resource>, producers: seq<Resource>, consumers: seq<Resource>,
                        destinations: seq<Resource>, sessions: seq<Resource>)
  {
    && (forall r | r in connections :: r.what.ConnectionObject?)
    && (forall r | r in sessions :: r.what.SessionObject?)
    && (forall r | r in destinations :: r.what.DestinationObject?)
    && (forall r | r in producers :: r.what.ProducerObject?)
    && (forall r | r in consumers :: r.what.ConsumerObject?)
  }

  ghost predicate Ordered(log: Log) {
    forall i, j | 0 <= i < j < |log| :: Phase(log[i]) <= Phase(log[j])
  }

  /**
   Every close precedes every delete; producers and consumers go before destinations,
   destinations before sessions, and sessions before connections.
   */
  lemma {:induction false} TeardownOrder(log: Log, connections: seq<Resource>, producers: seq<Resource>,
                                         consumers: seq<Resource>, destinations: seq<Resource>, sessions: seq<Resource>)
    requires Kinds(connections, producers, consumers, destinations, sessions)
    ensures var torn := Teardown(log, connections, producers, consumers, destinations, sessions);
            |log| <= |torn| && torn[..|log|] == log && Ordered(torn[|log|..])
  {
  }

  class ResourceLifecycleManager {
    const provider: CmsProvider
    var connections: seq<Resource>
    var sessions: seq<Resource>
    var destinations: seq<Resource>
    var producers: seq<Resource>
    var consumers: seq<Resource>
    ghost var managed: set<Resource>   // the elements of the five lists

    ghost predicate Invariant()
      reads this
    {
      && Distinct(connections) && Distinct(sessions) && Distinct(destinations)
      && Distinct(producers) && Distinct(consumers)
      && Kinds(connections, producers, consumers, destinations, sessions)
      && forall r :: r in managed <==>
           r in connections || r in sessions || r in destinations || r in producers || r in consumers
    }

    /** The invariant, for one object: a caller that only passes it on does not open it. */
    ghost predicate Valid()
      reads this
    {
      forall m: ResourceLifecycleManager {:trigger m.Invariant()} | m == this :: m.Invariant()
    }

    ghost predicate IsEmpty()
      reads this
    {
      connections == sessions == destinations == producers == consumers == [] && managed == {}
    }

    constructor (provider: CmsProvider)
      ensures Valid() && this.provider == provider && IsEmpty()
    {
      this.provider := provider;
      connections, sessions, destinations, producers, consumers := [], [], [], [], [];
      managed := {};
    }

    method ReleaseAll()
      modifies this
      ensures Valid() && IsEmpty()
    {
      connections, sessions, destinations, producers, consumers := [], [], [], [], [];
      managed := {};
    }

    method DeleteAll(rs: seq<Resource>)
      requires provider.Valid() && Distinct(rs) && forall r | r in rs :: r in provider.live
      modifies provider`log, provider`live, provider`gone
      ensures provider.Valid() && provider.log == old(provider.log) + FreeEach(rs)
      ensures forall r :: r in provider.live <==> r in old(provider.live) && r !in rs
    {
      for i := 0 to |rs|
        invariant provider.Valid() && provider.log == old(provider.log) + FreeEach(rs[..i])
        invariant forall r :: r in provider.live <==> r in old(provider.live) && r !in rs[..i]
      {
        assert rs[..i + 1] == rs[..i] + [rs[i]];
        provider.Free(rs[i]);
        assert FreeEach(rs[..i + 1]) == FreeEach(rs[..i]) + [Freed(rs[i])];
      }
      assert rs[..|rs|] == rs;
    }

    method CloseAll(rs: seq<Resource>)
      requires provider.Valid() && Distinct(rs) && forall r | r in rs :: r in provider.live
      modifies provider`calls, provider`log, provider`live, provider`closed
      ensures provider.Valid() && provider.log == old(provider.log) + CloseEach(rs)
      ensures forall r :: r in provider.live <==> r in old(provider.live) && r !in rs
      ensures forall r :: r in provider.closed <==> r in old(provider.closed) || r in rs
      ensures provider.calls == old(provider.calls) + |rs|
    {
      for i := 0 to |rs|
        invariant provider.Valid() && provider.log == old(provider.log) + CloseEach(rs[..i])
        invariant forall r :: r in provider.live <==> r in old(provider.live) && r !in rs[..i]
        invariant forall r :: r in provider.closed <==> r in old(provider.closed) || r in rs[..i]
        invariant provider.calls == old(provider.calls) + i
      {
        assert rs[..i + 1] == rs[..i] + [rs[i]];
        provider.Close(rs[i]);
        assert CloseEach(rs[..i + 1]) == CloseEach(rs[..i]) + [Closed(rs[i])];
      }
      assert rs[..|rs|] == rs;
    }

    method DeleteAllClosed(rs: seq<Resource>)
      requires provider.Valid() && Distinct(rs)
      requires forall r | r in rs :: r in provider.closed && r.what.ConnectionObject?
      modifies provider`log, provider`closed, provider`gone
      ensures provider.Valid() && provider.log == old(provider.log) + FreeEach(rs)
      ensures forall r :: r in provider.closed <==> r in old(provider.closed) && r !in rs
    {
      for i := 0 to |rs|
        invariant provider.Valid() && provider.log == old(provider.log) + FreeEach(rs[..i])
        invariant forall r :: r in provider.closed <==> r in old(provider.closed) && r !in rs[..i]
      {
        assert rs[..i + 1] == rs[..i] + [rs[i]];
        provider.FreeClosed(rs[i]);
        assert FreeEach(rs[..i + 1]) == FreeEach(rs[..i]) + [Freed(rs[i])];
      }
      assert rs[..|rs|] == rs;
    }

    method Destroy()
      requires Valid() && provider.Valid() && managed <= provider.live && provider.closed == {}
      modifies this, provider`calls, provider`log, provider`live, provider`closed, provider`gone
      ensures Valid() && provider.Valid() && IsEmpty()
      ensures provider.calls == old(provider.calls) + |old(connections)|
      ensures provider.log == old(Teardown(provider.log, connections, producers, consumers, destinations, sessions))
      ensures provider.live == old(provider.live - managed) && provider.closed == {}
      ensures old(IsEmpty()) ==> provider.log == old(provider.log)
    {
      assert Invariant();
      assert CloseEach([]) == [] && FreeEach([]) == [];
      CloseAll(connections);
      DeleteAll(producers);
      DeleteAll(consumers);
      DeleteAll(destinations);
      DeleteAll(sessions);
      DeleteAllClosed(connections);
      ReleaseAll();
    }

    method AddConnection(r: Resource)
      requires Valid() && r.what.ConnectionObject? && r !in managed
      modifies `connections, `managed
      ensures Valid() && connections == old(connections) + [r] && managed == old(managed) + {r}
    {
      assert Invariant();
      connections, managed := connections + [r], managed + {r};
      assert Invariant();
    }

    method AddSession(r: Resource)
      requires Valid() && r.what.SessionObject? && r !in managed
      modifies `sessions, `managed
      ensures Valid() && sessions == old(sessions) + [r] && managed == old(managed) + {r}
    {
      assert Invariant();
      sessions, managed := sessions + [r], managed + {r};
      assert Invariant();
    }

    method AddDestination(r: Resource)
      requires Valid() && r.what.DestinationObject? && r !in managed
      modifies `destinations, `managed
      ensures Valid() && destinations == old(destinations) + [r] && managed == old(managed) + {r}
    {
      assert Invariant();
      destinations, managed := destinations + [r], managed + {r};
      assert Invariant();
    }

    method AddMessageProducer(r: Resource)
      requires Valid() && r.what.ProducerObject? && r !in managed
      modifies `producers, `managed
      ensures Valid() && producers == old(producers) + [r] && managed == old(managed) + {r}
    {
      assert Invariant();
      producers, managed := producers + [r], managed + {r};
      assert Invariant();
    }

    method AddMessageConsumer(r: Resource)
      requires Valid() && r.what.ConsumerObject? && r !in managed
      modifies `consumers, `managed
      ensures Valid() && consumers == old(consumers) + [r] && managed == old(managed) + {r}
    {
      assert Invariant();
      consumers, managed := consumers + [r], managed + {r};
      assert Invariant();
    }
  }
}
