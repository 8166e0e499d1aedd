/**
 PooledSession.cpp and SessionPool.cpp. A pooled session is kept as a value at
 its place in the list of its pool, where it stays until the pool is deleted;
 a pointer to it is that place.
 */
module Pools {
  import opened Wrappers
  import opened Provider
  import opened Lifecycle
  import opened CacheKeys
  import opened PoolHistory

  /** A cms::Destination pointer: a caller's object, or one from the lifecycle manager. */
  datatype DestinationPointer = Foreign(destination: Destination) | Managed(r: Resource)
  {
    function Target(): Destination
      requires Managed? ==> r.what.DestinationObject?
    {
      if Managed? then r.what.target else destination
    }

    /** A managed pointer must not dangle; the caller keeps its own objects alive. */
    ghost predicate Valid(live: set<Resource>) {
      Managed? ==> r in live && r.what.DestinationObject?
    }
  }

  /** The wrapper around a real producer. Its close does nothing. */
  datatype CachedProducer = CachedProducer(handle: Resource, producer: Resource)
  {
    /** It was made for a place, and its producer for a destination with that key. */
    ghost predicate IsFor(pool: nat, slot: nat, key: string) {
      && handle.what == CachedProducerObject(pool, slot, key)
      && producer.what.ProducerObject?
      && producer.what.pool == pool && producer.what.slot == slot
      && UniqueDestName(producer.what.target) == key
    }
  }

  datatype CachedConsumer = CachedConsumer(handle: Resource, consumer: Resource)
  {
    ghost predicate IsFor(pool: nat, slot: nat, key: string) {
      && handle.what == CachedConsumerObject(pool, slot, key)
      && consumer.what.ConsumerObject?
      && consumer.what.pool == pool && consumer.what.slot == slot
      && ConsumerKey(consumer.what.target, consumer.what.selector, consumer.what.noLocal) == key
    }
  }

  datatype PooledSession = PooledSession(
    handle: Resource,
    session: Resource,
    producerCache: map<string, CachedProducer>,
    consumerCache: map<string, CachedConsumer>)
  {
    ghost predicate Valid(pool: nat, slot: nat) {
      && handle.what == PooledSessionObject(pool, slot)
      && session.what == SessionObject(pool, slot)
      && (forall key | key in producerCache :: producerCache[key].IsFor(pool, slot, key))
      && (forall key | key in consumerCache :: consumerCache[key].IsFor(pool, slot, key))
    }

    /** r is an object that this session deletes with itself. */
    ghost predicate Owns(r: Resource) {
      r == handle || CachesProducer(r, producerCache.Keys) || CachesConsumer(r, consumerCache.Keys)
    }

    ghost predicate CachesProducer(r: Resource, keys: set<string>) {
      && r.what.CachedProducerObject? && r.what.key in keys
      && r.what.key in producerCache && producerCache[r.what.key].handle == r
    }

    ghost predicate CachesConsumer(r: Resource, keys: set<string>) {
      && r.what.CachedConsumerObject? && r.what.key in keys
      && r.what.key in consumerCache && consumerCache[r.what.key].handle == r
    }

    /** r is a CMS object that this session uses and the manager owns. */
    ghost predicate Uses(r: Resource) {
      match r.what
      case SessionObject(_, _) => r == session
      case ProducerObject(_, _, target) =>
        var key := UniqueDestName(target);
        key in producerCache && producerCache[key].producer == r
      case ConsumerObject(_, _, target, selector, noLocal) =>
        var key := ConsumerKey(target, selector, noLocal);
        key in consumerCache && consumerCache[key].consumer == r
      case _ => false
    }
  }

  /** The place of the pooled session that an object was made for. */
  function SlotOf(w: What): int {
    match w
    case PooledSessionObject(_, slot) => slot
    case CachedProducerObject(_, slot, _) => slot
    case CachedConsumerObject(_, slot, _) => slot
    case SessionObject(_, slot) => slot
    case ProducerObject(_, slot, _) => slot
    case ConsumerObject(_, slot, _, _, _) => slot
    case _ => -1
  }

  /** The pool that an object belongs to. */
  function PoolOf(w: What): int {
    match w
    case PoolObject(pool) => pool
    case PooledSessionObject(pool, _) => pool
    case CachedProducerObject(pool, _, _) => pool
    case CachedConsumerObject(pool, _, _) => pool
    case SessionObject(pool, _) => pool
    case ProducerObject(pool, _, _) => pool
    case ConsumerObject(pool, _, _, _, _) => pool
    case _ => -1
  }

  /** owned is the pool itself with all that its sessions own. */
  ghost predicate OwnedBy(owned: set<Resource>, pool: nat, handle: Resource, sessions: seq<PooledSession>) {
    && handle.what == PoolObject(pool)
    && forall r {:trigger Owning(r, handle, sessions)} :: r in owned <==> Owning(r, handle, sessions)
  }

  ghost predicate Owning(r: Resource, handle: Resource, sessions: seq<PooledSession>) {
    r == handle || (0 <= SlotOf(r.what) < |sessions| && sessions[SlotOf(r.what)].Owns(r))
  }

  /** used is all that the sessions of a pool use. */
  ghost predicate UsedBy(used: set<Resource>, sessions: seq<PooledSession>) {
    forall r {:trigger Using(r, sessions)} :: r in used <==> Using(r, sessions)
  }

  ghost predicate Using(r: Resource, sessions: seq<PooledSession>) {
    0 <= SlotOf(r.what) < |sessions| && sessions[SlotOf(r.what)].Uses(r)
  }

  ghost predicate SessionsValid(pool: nat, sessions: seq<PooledSession>) {
    forall i {:trigger ValidAt(sessions, i, pool)} | 0 <= i < |sessions| :: ValidAt(sessions, i, pool)
  }

  ghost predicate ValidAt(sessions: seq<PooledSession>, i: nat, pool: nat)
    requires i < |sessions|
  {
    sessions[i].Valid(pool, i)
  }

  lemma OpenOwned(owned: set<Resource>, pool: nat, handle: Resource, sessions: seq<PooledSession>)
    requires OwnedBy(owned, pool, handle, sessions)
    ensures forall r :: r in owned <==>
              r == handle || (0 <= SlotOf(r.what) < |sessions| && sessions[SlotOf(r.what)].Owns(r))
  {
    forall r ensures r in owned <==>
              r == handle || (0 <= SlotOf(r.what) < |sessions| && sessions[SlotOf(r.what)].Owns(r))
    {
      assert Owning(r, handle, sessions) <==>
             r == handle || (0 <= SlotOf(r.what) < |sessions| && sessions[SlotOf(r.what)].Owns(r));
    }
  }

  /** What a session owns is what its pool owns at its place. */
  lemma OwnedInSlot(owned: set<Resource>, pool: nat, handle: Resource, sessions: seq<PooledSession>, i: nat)
    requires OwnedBy(owned, pool, handle, sessions) && SessionsValid(pool, sessions) && i < |sessions|
    ensures sessions[i].Valid(pool, i)
    ensures forall r :: sessions[i].Owns(r) <==> r in owned && SlotOf(r.what) == i
  {
    assert ValidAt(sessions, i, pool);
    forall r ensures sessions[i].Owns(r) <==> r in owned && SlotOf(r.what) == i {
      assert Owning(r, handle, sessions) <==>
             r == handle || (0 <= SlotOf(r.what) < |sessions| && sessions[SlotOf(r.what)].Owns(r));
    }
  }

  lemma OpenUsed(used: set<Resource>, sessions: seq<PooledSession>)
    requires UsedBy(used, sessions)
    ensures forall r :: r in used <==> 0 <= SlotOf(r.what) < |sessions| && sessions[SlotOf(r.what)].Uses(r)
  {
    forall r ensures r in used <==> 0 <= SlotOf(r.what) < |sessions| && sessions[SlotOf(r.what)].Uses(r) {
      assert Using(r, sessions) <==> 0 <= SlotOf(r.what) < |sessions| && sessions[SlotOf(r.what)].Uses(r);
    }
  }

  lemma AddSession(pool: nat, handle: Resource, sessions: seq<PooledSession>, owned: set<Resource>, used: set<Resource>,
                   s: PooledSession)
    requires SessionsValid(pool, sessions) && OwnedBy(owned, pool, handle, sessions) && UsedBy(used, sessions)
    requires s.Valid(pool, |sessions|) && s.producerCache == map[] && s.consumerCache == map[]
    ensures SessionsValid(pool, sessions + [s])
    ensures OwnedBy(owned + {s.handle}, pool, handle, sessions + [s])
    ensures UsedBy(used + {s.session}, sessions + [s])
  {
    var after := sessions + [s];
    forall i | 0 <= i < |after| ensures ValidAt(after, i, pool) {
      if i < |sessions| { assert ValidAt(sessions, i, pool); }
    }
    OpenOwned(owned, pool, handle, sessions);
    OpenUsed(used, sessions);
  }

  /** A pooled session whose cache grew by one entry keeps its pool in order. */
  lemma ChangeSession(pool: nat, handle: Resource, sessions: seq<PooledSession>, owned: set<Resource>,
                      used: set<Resource>, slot: nat, s: PooledSession, wrapper: Resource, inner: Resource)
    requires SessionsValid(pool, sessions) && OwnedBy(owned, pool, handle, sessions) && UsedBy(used, sessions)
    requires slot < |sessions| && s.Valid(pool, slot)
    requires SlotOf(wrapper.what) == slot == SlotOf(inner.what)
    requires forall r :: s.Owns(r) <==> sessions[slot].Owns(r) || r == wrapper
    requires forall r :: s.Uses(r) <==> sessions[slot].Uses(r) || r == inner
    ensures SessionsValid(pool, sessions[slot := s])
    ensures OwnedBy(owned + {wrapper}, pool, handle, sessions[slot := s])
    ensures UsedBy(used + {inner}, sessions[slot := s])
  {
    var after := sessions[slot := s];
    forall i | 0 <= i < |after| ensures ValidAt(after, i, pool) {
      assert ValidAt(sessions, i, pool);
    }
    OpenOwned(owned, pool, handle, sessions);
    OpenUsed(used, sessions);
  }

  lemma CacheMoreProducer(pool: nat, slot: nat, s: PooledSession, key: string, c: CachedProducer)
    requires s.Valid(pool, slot) && key !in s.producerCache && c.IsFor(pool, slot, key)
    ensures var s' := s.(producerCache := s.producerCache[key := c]);
            && s'.Valid(pool, slot)
            && (forall r :: s'.Owns(r) <==> s.Owns(r) || r == c.handle)
            && (forall r :: s'.Uses(r) <==> s.Uses(r) || r == c.producer)
  {
  }

  lemma AddProducer(pool: nat, handle: Resource, sessions: seq<PooledSession>, owned: set<Resource>,
                    used: set<Resource>, slot: nat, key: string, c: CachedProducer)
    requires SessionsValid(pool, sessions) && OwnedBy(owned, pool, handle, sessions) && UsedBy(used, sessions)
    requires slot < |sessions| && key !in sessions[slot].producerCache
    requires c.IsFor(pool, slot, key)
    ensures var after := WithProducer(sessions, slot, key, c);
            && SessionsValid(pool, after)
            && OwnedBy(owned + {c.handle}, pool, handle, after) && UsedBy(used + {c.producer}, after)
  {
    var s := sessions[slot];
    assert ValidAt(sessions, slot, pool);
    var s' := s.(producerCache := s.producerCache[key := c]);
    CacheMoreProducer(pool, slot, s, key, c);
    ChangeSession(pool, handle, sessions, owned, used, slot, s', c.handle, c.producer);
  }

  lemma CacheMoreConsumer(pool: nat, slot: nat, s: PooledSession, key: string, c: CachedConsumer)
    requires s.Valid(pool, slot) && key !in s.consumerCache && c.IsFor(pool, slot, key)
    ensures var s' := s.(consumerCache := s.consumerCache[key := c]);
            && s'.Valid(pool, slot)
            && (forall r :: s'.Owns(r) <==> s.Owns(r) || r == c.handle)
            && (forall r :: s'.Uses(r) <==> s.Uses(r) || r == c.consumer)
  {
  }

  lemma AddConsumer(pool: nat, handle: Resource, sessions: seq<PooledSession>, owned: set<Resource>,
                    used: set<Resource>, slot: nat, key: string, c: CachedConsumer)
    requires SessionsValid(pool, sessions) && OwnedBy(owned, pool, handle, sessions) && UsedBy(used, sessions)
    requires slot < |sessions| && key !in sessions[slot].consumerCache
    requires c.IsFor(pool, slot, key)
    ensures var after := WithConsumer(sessions, slot, key, c);
            && SessionsValid(pool, after)
            && OwnedBy(owned + {c.handle}, pool, handle, after) && UsedBy(used + {c.consumer}, after)
  {
    var s := sessions[slot];
    assert ValidAt(sessions, slot, pool);
    var s' := s.(consumerCache := s.consumerCache[key := c]);
    CacheMoreConsumer(pool, slot, s, key, c);
    ChangeSession(pool, handle, sessions, owned, used, slot, s', c.handle, c.consumer);
  }

  function WithProducer(sessions: seq<PooledSession>, slot: nat, key: string, c: CachedProducer): seq<PooledSession>
    requires slot < |sessions|
  {
    sessions[slot := sessions[slot].(producerCache := sessions[slot].producerCache[key := c])]
  }

  function WithConsumer(sessions: seq<PooledSession>, slot: nat, key: string, c: CachedConsumer): seq<PooledSession>
    requires slot < |sessions|
  {
    sessions[slot := sessions[slot].(consumerCache := sessions[slot].consumerCache[key := c])]
  }

  class SessionPool {
    const provider: CmsProvider
    const manager: ResourceLifecycleManager
    const connection: Resource
    const acknowledgeMode: nat
    const handle: Resource
    var available: seq<nat>
    var sessions: seq<PooledSession>
    ghost var owned: set<Resource>
    ghost var used: set<Resource>

    ghost predicate Invariant()
      reads this
    {
      && connection.what.ConnectionObject? && manager.provider == provider
      && SessionsValid(acknowledgeMode, sessions)
      && OwnedBy(owned, acknowledgeMode, handle, sessions) && UsedBy(used, sessions)
      && State().Valid()
    }

    /** The invariant, for one object: a caller that only passes it on does not open it. */
    ghost predicate Valid()
      reads this
    {
      forall p: SessionPool {:trigger p.Invariant()} | p == this :: p.Invariant()
    }

    function State(): PoolState
      reads this
    {
      PoolState(available, |sessions|)
    }

    /** What the pool has is live, and the manager knows the CMS objects. */
    ghost predicate Grounded()
      reads this, provider, manager
    {
      && provider.Valid() && manager.Valid()
      && connection in manager.managed && owned <= provider.live && used <= manager.managed <= provider.live
    }

    constructor (connection: Resource, ackMode: nat, manager: ResourceLifecycleManager)
      requires manager.provider.Valid() && connection.what.ConnectionObject?
      modifies manager.provider`log, manager.provider`live, manager.provider`made
      ensures Valid() && State() == EMPTY && provider.log == old(manager.provider.log) + [Made(handle)]
      ensures this.manager == manager && this.connection == connection && acknowledgeMode == ackMode
      ensures provider == manager.provider && provider.Valid()
      ensures handle.what == PoolObject(ackMode) && handle !in old(manager.provider.live)
      ensures owned == {handle} && used == {}
      ensures provider.live == old(manager.provider.live) + {handle}
    {
      var handle := manager.provider.Make(PoolObject(ackMode));
      this.provider, this.manager, this.connection := manager.provider, manager, connection;
      this.acknowledgeMode, this.handle := ackMode, handle;
      available, sessions, owned, used := [], [], {handle}, {};
      new;
      assert Invariant();
    }

    method TakeSession() returns (res: Result<nat>)
      requires Valid() && Grounded()
      modifies this, manager`sessions, manager`managed
      modifies provider`calls, provider`log, provider`live, provider`made
      ensures Valid() && Grounded()
      // the pool is used, and the connection when there is no session
      ensures old(provider.log) + [Used(handle)] + (if old(available) == [] then [Used(connection)] else [])
              <= provider.log
      ensures res.Ok? ==> res.value == old(State()).Next() && State() == old(State()).Take()
      // an available session is handed out as it is
      ensures old(available) != [] ==> res.Ok? && Untouched()
      // otherwise a new one is put at the end of the list, with empty caches
      ensures old(available) == [] && res.Ok? ==>
                && sessions[..|old(sessions)|] == old(sessions)
                && sessions[res.value].producerCache == map[] && sessions[res.value].consumerCache == map[]
                && Added(sessions[res.value].handle, sessions[res.value].session)
                && manager.sessions == old(manager.sessions) + [sessions[res.value].session]
      ensures res.Throws? ==> Untouched() && State() == old(State())
      ensures provider.calls == old(provider.calls) + if old(available) == [] then 1 else 0
      ensures res.Throws? <==> old(available) == [] && provider.outcome(old(provider.calls)).Fails?
    {
      assert Invariant();
      PoolIsLive();
      provider.Touch(handle);
      if available == [] {
        var o := provider.Call(connection);
        if o.Fails? {
          return Throws(o.exn);
        }
        var slot := NewSession();
        return Ok(slot);
      } else {
        TakeIsValid(State());
        var slot := available[0];
        available := available[1..];
        assert Invariant();
        return Ok(slot);
      }
    }

    /** A pool is there with everything that it owns. */
    lemma PoolIsLive()
      requires Valid() && Grounded()
      ensures handle in owned && handle in provider.live
    {
      assert Invariant();
      assert Owning(handle, handle, sessions);
    }

    /** So are a pooled session of it and the session that it wraps. */
    lemma SessionIsLive(slot: nat)
      requires Valid() && Grounded() && slot < |sessions|
      ensures sessions[slot].handle in provider.live && sessions[slot].session in provider.live
    {
      assert Invariant();
      assert ValidAt(sessions, slot, acknowledgeMode);
      assert Owning(sessions[slot].handle, handle, sessions) && Using(sessions[slot].session, sessions);
    }

    lemma SessionIsValid(slot: nat)
      requires Valid() && slot < |sessions|
      ensures sessions[slot].Valid(acknowledgeMode, slot)
    {
      assert Invariant();
      assert ValidAt(sessions, slot, acknowledgeMode);
    }

    lemma CachedProducerIsThere(slot: nat, key: string)
      requires Valid() && slot < |sessions| && key in sessions[slot].producerCache
      ensures var c := sessions[slot].producerCache[key];
              c.IsFor(acknowledgeMode, slot, key) && c.handle in owned && c.producer in used
    {
      assert Invariant();
      assert ValidAt(sessions, slot, acknowledgeMode);
      var c := sessions[slot].producerCache[key];
      assert Owning(c.handle, handle, sessions) && Using(c.producer, sessions);
    }

    lemma CachedConsumerIsThere(slot: nat, key: string)
      requires Valid() && slot < |sessions| && key in sessions[slot].consumerCache
      ensures var c := sessions[slot].consumerCache[key];
              c.IsFor(acknowledgeMode, slot, key) && c.handle in owned && c.consumer in used
    {
      assert Invariant();
      assert ValidAt(sessions, slot, acknowledgeMode);
      var c := sessions[slot].consumerCache[key];
      assert Owning(c.handle, handle, sessions) && Using(c.consumer, sessions);
    }

    /** The pool makes a session. */
    method NewSession() returns (slot: nat)
      requires Valid() && Grounded()
      modifies `sessions, `owned, `used, manager`sessions, manager`managed
      modifies provider`log, provider`live, provider`made
      ensures old(provider.log) <= provider.log
      ensures Valid() && Grounded()
      ensures slot == |old(sessions)| && |sessions| == slot + 1 && sessions[..slot] == old(sessions)
      ensures sessions[slot].producerCache == map[] && sessions[slot].consumerCache == map[]
      ensures Added(sessions[slot].handle, sessions[slot].session)
      ensures manager.sessions == old(manager.sessions) + [sessions[slot].session]
    {
      assert Invariant();
      slot := |sessions|;
      var session := provider.Make(SessionObject(acknowledgeMode, slot));
      manager.AddSession(session);
      var handle := provider.Make(PooledSessionObject(acknowledgeMode, slot));
      var s := PooledSession(handle, session, map[], map[]);
      AddSession(acknowledgeMode, this.handle, sessions, owned, used, s);
      sessions := sessions + [s];
      owned, used := owned + {handle}, used + {session};
      assert Invariant();
    }

    /** Nothing was made, whatever was called. */
    twostate predicate Untouched()
      reads this, provider, manager
    {
      && sessions == old(sessions) && owned == old(owned) && used == old(used)
      && unchanged(manager) && provider.live == old(provider.live)
    }

    /** One object of cmsutil and one CMS object were made. */
    twostate predicate Added(wrapper: Resource, inner: Resource)
      reads this, provider, manager
    {
      && wrapper !in old(provider.live) && inner !in old(provider.live)
      && provider.live == old(provider.live) + {wrapper, inner}
      && owned == old(owned) + {wrapper} && used == old(used) + {inner}
      && manager.managed == old(manager.managed) + {inner}
    }

    /** PooledSession::close, which uses the pooled session, and returnSession, which uses the pool. */
    method ReturnSession(slot: nat)
      requires Valid() && Grounded() && slot in State().Outstanding()
      modifies `available, provider`log
      ensures Valid() && Grounded() && State() == old(State()).Return(slot)
      ensures provider.log == old(provider.log) + [Used(sessions[slot].handle), Used(handle)]
    {
      assert Invariant();
      PoolIsLive();
      SessionIsLive(slot);
      provider.Touch(sessions[slot].handle);
      provider.Touch(handle);
      available := available + [slot];
      assert Invariant();
    }

    /** The pooled session and the destination are read, whatever is in the cache. */
    function Reading(slot: nat, destination: Option<DestinationPointer>): Log
      requires slot < |sessions|
      reads this
    {
      [Used(sessions[slot].handle)]
      + if destination.Some? && destination.value.Managed? then [Used(destination.value.r)] else []
    }

    method Read(slot: nat, destination: DestinationPointer)
      requires Valid() && Grounded() && slot < |sessions| && destination.Valid(provider.live)
      modifies provider`log
      ensures Valid() && Grounded() && provider.log == old(provider.log) + Reading(slot, Some(destination))
    {
      SessionIsLive(slot);
      provider.Touch(sessions[slot].handle);
      if destination.Managed? {
        provider.Touch(destination.r);
      }
    }

    method CreateCachedProducer(slot: nat, destination: Option<DestinationPointer>)
      returns (res: Result<CachedProducer>)
      requires Valid() && Grounded() && slot < |sessions|
      requires destination.Some? ==> destination.value.Valid(provider.live)
      modifies `sessions, `owned, `used, manager`producers, manager`managed
      modifies provider`calls, provider`log, provider`live, provider`made
      ensures Valid() && Grounded() && State() == old(State())
      ensures destination.Some? ==>
                var hit := UniqueDestName(destination.value.Target()) in old(sessions[slot].producerCache);
                old(provider.log + Reading(slot, destination))
                + (if hit then [] else [Used(old(sessions[slot].session))]) <= provider.log
      ensures res.Ok? ==>
                destination.Some? && res.value.IsFor(acknowledgeMode, slot, UniqueDestName(destination.value.Target()))
      ensures res.Ok? ==> res.value.handle in owned && res.value.producer in used
      ensures res.Ok? ==>
                var key, cache := UniqueDestName(destination.value.Target()), old(sessions[slot].producerCache);
                if key in cache then
                  res.value == cache[key] && Untouched()
                else
                  && sessions == WithProducer(old(sessions), slot, key, res.value)
                  && res.value.producer.what.target == destination.value.Target()
                  && Added(res.value.handle, res.value.producer)
                  && manager.producers == old(manager.producers) + [res.value.producer]
      ensures res.Throws? ==> Untouched()
      ensures destination == None ==> res == Throws(CmsException) && provider.calls == old(provider.calls)
      ensures destination.Some? ==>
                var hit := UniqueDestName(destination.value.Target()) in old(sessions[slot].producerCache);
                && provider.calls == old(provider.calls) + (if hit then 0 else 1)
                && (res.Ok? <==> hit || provider.outcome(old(provider.calls)).Fine?)
    {
      if destination.None? {
        return Throws(CmsException);
      }
      Read(slot, destination.value);
      var target := destination.value.Target();
      var key := UniqueDestName(target);
      if key in sessions[slot].producerCache {
        var cached := sessions[slot].producerCache[key];
        CachedProducerIsThere(slot, key);
        return Ok(cached);
      }
      SessionIsLive(slot);
      var o := provider.Call(sessions[slot].session);
      if o.Fails? {
        return Throws(o.exn);
      }
      var cached := NewProducer(slot, target, key);
      return Ok(cached);
    }

    method NewProducer(slot: nat, target: Destination, key: string) returns (cached: CachedProducer)
      requires Valid() && Grounded() && slot < |sessions|
      requires key == UniqueDestName(target) && key !in sessions[slot].producerCache
      modifies `sessions, `owned, `used, manager`producers, manager`managed
      modifies provider`log, provider`live, provider`made
      ensures old(provider.log) <= provider.log
      ensures Valid() && Grounded() && State() == old(State())
      ensures cached.IsFor(acknowledgeMode, slot, key) && cached.producer.what.target == target
      ensures sessions == WithProducer(old(sessions), slot, key, cached)
      ensures Added(cached.handle, cached.producer)
      ensures manager.producers == old(manager.producers) + [cached.producer]
    {
      cached := MakeProducer(slot, target, key);
      assert Invariant();
      AddProducer(acknowledgeMode, handle, sessions, owned, used, slot, key, cached);
      sessions := WithProducer(sessions, slot, key, cached);
      owned, used := owned + {cached.handle}, used + {cached.producer};
      assert Invariant();
    }

    /** A producer and its wrapper, before they are in the cache. */
    method MakeProducer(slot: nat, target: Destination, key: string) returns (cached: CachedProducer)
      requires Valid() && Grounded() && key == UniqueDestName(target)
      modifies manager`producers, manager`managed, provider`log, provider`live, provider`made
      ensures old(provider.log) <= provider.log && Valid() && Grounded()
      ensures cached.IsFor(acknowledgeMode, slot, key) && cached.producer.what.target == target
      ensures cached.handle !in old(provider.live) && cached.producer !in old(provider.live)
      ensures provider.live == old(provider.live) + {cached.handle, cached.producer}
      ensures manager.managed == old(manager.managed) + {cached.producer}
      ensures manager.producers == old(manager.producers) + [cached.producer]
    {
      PoolIsLive();
      assert manager.provider == provider by {
        assert Invariant();
      }
      provider.Touch(handle);
      var p := provider.Make(ProducerObject(acknowledgeMode, slot, target));
      manager.AddMessageProducer(p);
      var h := provider.Make(CachedProducerObject(acknowledgeMode, slot, key));
      cached := CachedProducer(h, p);
    }

    method CreateCachedConsumer(slot: nat, destination: Option<DestinationPointer>, selector: string, noLocal: bool)
      returns (res: Result<CachedConsumer>)
      requires Valid() && Grounded() && slot < |sessions|
      requires destination.Some? ==> destination.value.Valid(provider.live)
      modifies `sessions, `owned, `used, manager`consumers, manager`managed
      modifies provider`calls, provider`log, provider`live, provider`made
      ensures Valid() && Grounded() && State() == old(State())
      ensures destination.Some? ==>
                var key := ConsumerKey(destination.value.Target(), selector, noLocal);
                var hit := key in old(sessions[slot].consumerCache);
                old(provider.log + Reading(slot, destination))
                + (if hit then [] else [Used(old(sessions[slot].session))]) <= provider.log
      ensures res.Ok? ==>
                && destination.Some?
                && res.value.IsFor(acknowledgeMode, slot, ConsumerKey(destination.value.Target(), selector, noLocal))
      ensures res.Ok? ==> res.value.handle in owned && res.value.consumer in used
      ensures res.Ok? ==>
                var target, cache := destination.value.Target(), old(sessions[slot].consumerCache);
                var key := ConsumerKey(target, selector, noLocal);
                if key in cache then
                  res.value == cache[key] && Untouched()
                else
                  && sessions == WithConsumer(old(sessions), slot, key, res.value)
                  && res.value.consumer.what == ConsumerObject(acknowledgeMode, slot, target, selector, noLocal)
                  && Added(res.value.handle, res.value.consumer)
                  && manager.consumers == old(manager.consumers) + [res.value.consumer]
      ensures res.Throws? ==> Untouched()
      ensures destination == None ==> res == Throws(CmsException) && provider.calls == old(provider.calls)
      ensures destination.Some? ==>
                var key := ConsumerKey(destination.value.Target(), selector, noLocal);
                var hit := key in old(sessions[slot].consumerCache);
                && provider.calls == old(provider.calls) + (if hit then 0 else 1)
                && (res.Ok? <==> hit || provider.outcome(old(provider.calls)).Fine?)
    {
      if destination.None? {
        return Throws(CmsException);
      }
      Read(slot, destination.value);
      var target := destination.value.Target();
      var key := ConsumerKey(target, selector, noLocal);
      if key in sessions[slot].consumerCache {
        var cached := sessions[slot].consumerCache[key];
        CachedConsumerIsThere(slot, key);
        return Ok(cached);
      }
      SessionIsLive(slot);
      var o := provider.Call(sessions[slot].session);
      if o.Fails? {
        return Throws(o.exn);
      }
      var cached := NewConsumer(slot, target, selector, noLocal, key);
      return Ok(cached);
    }

    method NewConsumer(slot: nat, target: Destination, selector: string, noLocal: bool, key: string)
      returns (cached: CachedConsumer)
      requires Valid() && Grounded() && slot < |sessions|
      requires key == ConsumerKey(target, selector, noLocal) && key !in sessions[slot].consumerCache
      modifies `sessions, `owned, `used, manager`consumers, manager`managed
      modifies provider`log, provider`live, provider`made
      ensures old(provider.log) <= provider.log
      ensures Valid() && Grounded() && State() == old(State())
      ensures cached.IsFor(acknowledgeMode, slot, key)
      ensures cached.consumer.what == ConsumerObject(acknowledgeMode, slot, target, selector, noLocal)
      ensures sessions == WithConsumer(old(sessions), slot, key, cached)
      ensures Added(cached.handle, cached.consumer)
      ensures manager.consumers == old(manager.consumers) + [cached.consumer]
    {
      cached := MakeConsumer(slot, target, selector, noLocal, key);
      assert Invariant();
      AddConsumer(acknowledgeMode, handle, sessions, owned, used, slot, key, cached);
      sessions := WithConsumer(sessions, slot, key, cached);
      owned, used := owned + {cached.handle}, used + {cached.consumer};
      assert Invariant();
    }

    /** A consumer and its wrapper, before they are in the cache. */
    method MakeConsumer(slot: nat, target: Destination, selector: string, noLocal: bool, key: string)
      returns (cached: CachedConsumer)
      requires Valid() && Grounded() && key == ConsumerKey(target, selector, noLocal)
      modifies manager`consumers, manager`managed, provider`log, provider`live, provider`made
      ensures old(provider.log) <= provider.log && Valid() && Grounded()
      ensures cached.IsFor(acknowledgeMode, slot, key)
      ensures cached.consumer.what == ConsumerObject(acknowledgeMode, slot, target, selector, noLocal)
      ensures cached.handle !in old(provider.live) && cached.consumer !in old(provider.live)
      ensures provider.live == old(provider.live) + {cached.handle, cached.consumer}
      ensures manager.managed == old(manager.managed) + {cached.consumer}
      ensures manager.consumers == old(manager.consumers) + [cached.consumer]
    {
      PoolIsLive();
      assert manager.provider == provider by {
        assert Invariant();
      }
      provider.Touch(handle);
      var c := provider.Make(ConsumerObject(acknowledgeMode, slot, target, selector, noLocal));
      manager.AddMessageConsumer(c);
      var h := provider.Make(CachedConsumerObject(acknowledgeMode, slot, key));
      cached := CachedConsumer(h, c);
    }

    /** The destructor and the delete: every pooled session, then the pool itself. */
    method Delete()
      requires Valid() && provider.Valid() && owned <= provider.live
      modifies this, provider`log, provider`live, provider`gone
      ensures State() == EMPTY && provider.Valid()
      ensures provider.live == old(provider.live - owned)
    {
      assert Invariant();
      OpenOwned(owned, acknowledgeMode, handle, sessions);
      assert handle in owned && SlotOf(handle.what) == -1;
      for i := 0 to |sessions|
        invariant unchanged(this) && provider.Valid()
        invariant forall r :: r in provider.live <==>
                    r in old(provider.live) && !(r in owned && 0 <= SlotOf(r.what) < i)
      {
        OwnedInSlot(owned, acknowledgeMode, handle, sessions, i);
        DeleteSession(provider, acknowledgeMode, i, sessions[i]);
      }
      sessions, available := [], [];
      provider.Free(handle);
    }
  }

  /** PooledSession::~PooledSession and the delete: the wrappers in the caches, then the session. */
  method DeleteSession(provider: CmsProvider, ghost pool: nat, ghost slot: nat, s: PooledSession)
    requires provider.Valid() && s.Valid(pool, slot) && forall r | s.Owns(r) :: r in provider.live
    modifies provider`log, provider`live, provider`gone
    ensures provider.Valid()
    ensures forall r :: r in provider.live <==> r in old(provider.live) && !s.Owns(r)
  {
    DeleteCachedProducers(provider, pool, slot, s);
    DeleteCachedConsumers(provider, pool, slot, s);
    provider.Free(s.handle);
  }

  method DeleteCachedProducers(provider: CmsProvider, ghost pool: nat, ghost slot: nat, s: PooledSession)
    requires provider.Valid() && s.Valid(pool, slot)
    requires forall r | s.CachesProducer(r, s.producerCache.Keys) :: r in provider.live
    modifies provider`log, provider`live, provider`gone
    ensures provider.Valid()
    ensures forall r :: r in provider.live <==>
              r in old(provider.live) && !s.CachesProducer(r, s.producerCache.Keys)
  {
    var keys := s.producerCache.Keys;
    while keys != {}
      invariant keys <= s.producerCache.Keys && provider.Valid()
      invariant forall r :: r in provider.live <==>
                  r in old(provider.live) && !s.CachesProducer(r, s.producerCache.Keys - keys)
      decreases keys
    {
      var key :| key in keys;
      assert s.CachesProducer(s.producerCache[key].handle, s.producerCache.Keys);
      provider.Free(s.producerCache[key].handle);
      keys := keys - {key};
    }
  }

  method DeleteCachedConsumers(provider: CmsProvider, ghost pool: nat, ghost slot: nat, s: PooledSession)
    requires provider.Valid() && s.Valid(pool, slot)
    requires forall r | s.CachesConsumer(r, s.consumerCache.Keys) :: r in provider.live
    modifies provider`log, provider`live, provider`gone
    ensures provider.Valid()
    ensures forall r :: r in provider.live <==>
              r in old(provider.live) && !s.CachesConsumer(r, s.consumerCache.Keys)
  {
    var keys := s.consumerCache.Keys;
    while keys != {}
      invariant keys <= s.consumerCache.Keys && provider.Valid()
      invariant forall r :: r in provider.live <==>
                  r in old(provider.live) && !s.CachesConsumer(r, s.consumerCache.Keys - keys)
      decreases keys
    {
      var key :| key in keys;
      assert s.CachesConsumer(s.consumerCache[key].handle, s.consumerCache.Keys);
      provider.Free(s.consumerCache[key].handle);
      keys := keys - {key};
    }
  }
}
