/**
 CmsTemplate.cpp with its bases CmsDestinationAccessor.cpp and CmsAccessor.cpp.
 Every catch block of the source is an if on a failed result here, and calls
 Destroy where the source does.
 */
module Template {
  import opened Wrappers
  import opened Provider
  import opened Lifecycle
  import opened CacheKeys
  import opened PoolHistory
  import opened Pools
  import opened Resolver
  import opened Ownership
  import opened Configuration

  /** The messages whose send failed with something other than a CMSException. */
  ghost function Stranded(traffic: seq<Traffic>): set<Resource> {
    set t | t in traffic && t.SendFailed? && t.exn == OtherException :: t.message
  }

  lemma StrandedNext(before: seq<Traffic>, t: Traffic)
    ensures Stranded(before + [t]) ==
            Stranded(before) + if t.SendFailed? && t.exn == OtherException then {t.message} else {}
  {
    var after := before + [t];
    forall m | m in Stranded(before) ensures m in Stranded(after) {
      var u :| u in before && u.SendFailed? && u.exn == OtherException && u.message == m;
      assert u in after;
    }
    assert t in after;
  }

  /** setDisableMessageID and setDisableMessageTimeStamp. */
  method SetDefaults(provider: CmsProvider, c: CachedProducer, settings: Settings) returns (o: Outcome)
    requires provider.Valid() && {c.handle, c.producer} <= provider.live
    modifies provider`calls, provider`flags, provider`log
    ensures provider.Valid()
    ensures provider.calls == old(provider.calls) + Spent(provider.outcome, old(provider.calls), 2)
    ensures o.Fine? <==> Smooth(provider.outcome, old(provider.calls), old(provider.calls) + 2)
    ensures o.Fine? ==> provider.FlagsOf(c.producer) == settings.FlagsInForce()
    ensures o.Fine? ==>
              provider.FlagsOf(c.producer) == Flags(!settings.messageIdEnabled, !settings.messageTimestampEnabled)
  {
    SpentOfTwo(provider.outcome, provider.calls);
    provider.Touch(c.handle);
    o := provider.SetNoMessageId(c.producer, !settings.messageIdEnabled);
    if o.Fine? {
      provider.Touch(c.handle);
      o := provider.SetNoTimestamp(c.producer, !settings.messageTimestampEnabled);
    }
  }

  /** Makes a message, sends it, and deletes it unless the send ended in the way no handler is for. */
  method SendNew(provider: CmsProvider, c: CachedProducer, qos: Option<Qos>) returns (o: Outcome)
    requires provider.Valid() && {c.handle, c.producer} <= provider.live
    requires provider.messages == Stranded(provider.traffic)
    modifies provider`calls, provider`traffic, provider`log, provider`messages, provider`made
    ensures provider.Valid() && provider.messages == Stranded(provider.traffic)
    ensures provider.calls == old(provider.calls) + 1 && o == provider.outcome(old(provider.calls))
    ensures |provider.traffic| == |old(provider.traffic)| + 1
    ensures provider.traffic[..|old(provider.traffic)|] == old(provider.traffic)
    ensures var t := provider.traffic[|old(provider.traffic)|];
            if o.Fine? then
              t.Sent? && t.producer == c.producer && t.qos == qos && t.flags == old(provider.FlagsOf(c.producer))
            else t.SendFailed? && t.producer == c.producer && t.exn == o.exn
  {
    var message := provider.MakeMessage();
    provider.Touch(c.handle);
    o := provider.Send(c.producer, message, qos);
    StrandedNext(old(provider.traffic), provider.traffic[|old(provider.traffic)|]);
    if o.Fine? || o.exn == CmsException {
      provider.FreeMessage(message);
    }
  }

  /** The only messages are the stranded ones, and every object that was closed has been freed. */
  ghost predicate Tidy(provider: CmsProvider)
    reads provider`messages, provider`traffic, provider`closed
  {
    provider.messages == Stranded(provider.traffic) && provider.closed == {}
  }

  /** What a pool with one session owns in a role. */
  ghost function OwnedAs(x: PooledSession, pool: Resource, role: Role): Option<Resource> {
    match role
    case PoolFor(_) => Some(pool)
    case Wrapping(SessionFor(_)) => Some(x.handle)
    case Wrapping(ProducerFor(_, key)) => if key in x.producerCache then Some(x.producerCache[key].handle) else None
    case Wrapping(ConsumerFor(_, key)) => if key in x.consumerCache then Some(x.consumerCache[key].handle) else None
    case _ => None
  }

  /** What a session uses in a role. */
  ghost function UsedAs(x: PooledSession, role: Role): Option<Resource> {
    match role
    case SessionFor(_) => Some(x.session)
    case ProducerFor(_, key) => if key in x.producerCache then Some(x.producerCache[key].producer) else None
    case ConsumerFor(_, key) => if key in x.consumerCache then Some(x.consumerCache[key].consumer) else None
    case _ => None
  }

  lemma RoleTells(x: PooledSession, a: nat, pool: Resource, r: Resource)
    requires x.Valid(a, 0) && pool.what == PoolObject(a)
    ensures r == pool || x.Owns(r) ==> OwnedAs(x, pool, RoleOf(r.what)) == Some(r)
    ensures x.Uses(r) ==> UsedAs(x, RoleOf(r.what)) == Some(r)
  {
  }

  // The books of one pool.

  /** The pool is in order, and has what the books say. */
  ghost predicate PoolInvariant(p: SessionPool?, manager: ResourceLifecycleManager, owned: set<Resource>,
                                used: set<Resource>, connection: Option<Resource>)
    reads p
  {
    if p == null then
      owned == used == {}
    else
      && p.Valid() && p.provider == manager.provider && p.manager == manager
      && connection == Some(p.connection) && owned == p.owned && used == p.used
  }

  /** The invariant, for one pool: a caller that only passes it on does not open it. */
  ghost predicate PoolBooked(p: SessionPool?, manager: ResourceLifecycleManager, owned: set<Resource>,
                             used: set<Resource>, connection: Option<Resource>)
    reads p
  {
    forall q: SessionPool? {:trigger PoolInvariant(q, manager, owned, used, connection)} | q == p ::
      PoolInvariant(q, manager, owned, used, connection)
  }

  class CmsTemplate {
    const provider: CmsProvider
    const manager: ResourceLifecycleManager
    const resolver: DynamicDestinationResolver
    const sessionPools: array<SessionPool?>
    var connection: Option<Resource>
    var defaultDestination: Option<DestinationPointer>
    var initialized: bool
    var defaultDestinationName: string
    var pubSubDomain: bool
    var hasConnectionFactory: bool
    var sessionAcknowledgeMode: nat
    var settings: Settings
    ghost var book: Holdings
    ghost var Parts: set<object>   // the other objects that make up the template

    /** The template to its users. */
    ghost function View(): Config
      reads `defaultDestination, `defaultDestinationName, `pubSubDomain, `hasConnectionFactory, `sessionAcknowledgeMode
      reads `settings, `book
    {
      var d := defaultDestination;
      Config(if d.Some? && d.value.Foreign? then Some(d.value.destination) else None,
             d.Some? && d.value.Managed?,
             defaultDestinationName, pubSubDomain, hasConnectionFactory, sessionAcknowledgeMode, settings,
             book.got)
    }

    // What holds, from the inside out.

    function Pool(a: int): SessionPool?
      reads sessionPools
    {
      if 0 <= a < sessionPools.Length then sessionPools[a] else null
    }

    ghost predicate Wired()
      reads `Parts, Parts
    {
      && this !in Parts && {sessionPools, provider, manager, resolver} <= Parts
      && sessionPools.Length == NUM_SESSION_POOLS
      && manager.provider == provider && resolver.provider == provider
      && forall a | 0 <= a < NUM_SESSION_POOLS && Pool(a) != null ::
           Pool(a) in Parts && Pool(a).acknowledgeMode == a
    }

    /** Every pool is in order, and the books say what there is. */
    ghost predicate Booked()
      requires Wired()
      reads `book, `Parts, Parts
    {
      && book.live == provider.live && book.managed == manager.managed
      && book.resolvers == resolver.owned && book.dests == resolver.dests
      && |book.owned| == |book.used| == NUM_SESSION_POOLS
      && forall a | 0 <= a < NUM_SESSION_POOLS ::
           PoolBooked(Pool(a), manager, book.owned[a], book.used[a], book.connection)
    }

    /** Booked, but for an object of a pool and a managed object that it just made. */
    ghost predicate BookedBut(a: nat, w: Resource, m: Resource)
      requires Wired()
      reads `book, `Parts, Parts
    {
      && book.live + {w, m} == provider.live && book.managed + {m} == manager.managed
      && book.resolvers == resolver.owned && book.dests == resolver.dests
      && |book.owned| == |book.used| == NUM_SESSION_POOLS && a < NUM_SESSION_POOLS
      && (forall b | 0 <= b < NUM_SESSION_POOLS && b != a ::
            PoolBooked(Pool(b), manager, book.owned[b], book.used[b], book.connection))
      && PoolBooked(Pool(a), manager, book.owned[a] + {w}, book.used[a] + {m}, book.connection)
    }

    /** The resolver knows only pooled sessions that exist, and gives what it makes to the manager. */
    ghost predicate ResolverOk()
      requires Wired()
      reads `initialized, `Parts, Parts
    {
      && resolver.Valid()
      && (initialized || resolver.sessionResolverMap != map[] ==> resolver.resourceLifecycleManager == manager)
      && forall k | k in resolver.sessionResolverMap ::
           && k.pool < NUM_SESSION_POOLS && Pool(k.pool) != null
           && k.slot < |Pool(k.pool).sessions|
    }

    ghost predicate CoreInvariant()
      reads `connection, `initialized, `book, `Parts, Parts
    {
      && Wired() && provider.Valid() && manager.Valid()
      && Booked() && ResolverOk() && book.Balanced() && book.connection == connection
      && manager.connections == (if connection.Some? then [connection.value] else [])
      && Tidy(provider)
    }

    /** The same, but for an object of a pool and a managed object that it just made. */
    ghost predicate CoreBut(a: nat, w: Resource, m: Resource)
      reads `connection, `initialized, `book, `Parts, Parts
    {
      && Wired() && provider.Valid() && manager.Valid()
      && BookedBut(a, w, m) && ResolverOk() && book.Balanced() && book.connection == connection
      && manager.connections == (if connection.Some? then [connection.value] else [])
      && Tidy(provider)
    }

    /** Everything is owned once, and everything that is live is owned. */
    ghost predicate Core()
      reads `connection, `initialized, `book, `Parts, Parts
    {
      this !in Parts && forall t: CmsTemplate {:trigger t.CoreInvariant()} | t == this :: t.CoreInvariant()
    }

    /** Enters what a pool made into the books. */
    ghost method Enter(a: nat, w: Resource, m: Resource)
      requires CoreBut(a, w, m) && book.InPool(w, a)
      requires (m.what.SessionObject? || m.what.ProducerObject? || m.what.ConsumerObject?) && PoolOf(m.what) == a
      modifies `book
      ensures Core() && book.got == old(book.got) + {RoleOf(m.what)}
    {
      AddPair(book, a, w, m);
      book := book.(live := book.live + {w, m}, managed := book.managed + {m},
        owned := book.owned[a := book.owned[a] + {w}], used := book.used[a := book.used[a] + {m}],
        got := book.got + {RoleOf(m.what)});
      assert CoreInvariant();
    }

    /**
     A default destination that is not the caller's is the live destination of
     the current name in the current domain.
     */
    ghost predicate MemoOk()
      reads `defaultDestination, `defaultDestinationName, `pubSubDomain, resolver`dests
    {
      defaultDestination.Some? && defaultDestination.value.Managed? ==>
        var r := defaultDestination.value.r;
        && r in resolver.dests && r.what.DestinationObject?
        && r.what.target == Named(pubSubDomain, defaultDestinationName) && defaultDestinationName != ""
    }

    ghost predicate NoPools()
      reads sessionPools
    {
      forall a | 0 <= a < NUM_SESSION_POOLS :: Pool(a) == null
    }

    ghost predicate AllPools()
      reads sessionPools
    {
      forall a | 0 <= a < NUM_SESSION_POOLS :: Pool(a) != null
    }

    /** No pool has more than one session, and none except perhaps one is outstanding. */
    ghost predicate IdleExcept(busy: int)
      reads `Parts, Parts, sessionPools
    {
      forall a | 0 <= a < NUM_SESSION_POOLS && a != busy && Pool(a) != null && Pool(a) in Parts ::
        Pool(a).State() == EMPTY || Pool(a).State() == PoolState([0], 1)
    }

    ghost predicate EmptyInvariant()
      reads `Parts, Parts
    {
      && Wired() && NoPools() && manager.IsEmpty() && provider.live == {}
      && resolver.sessionResolverMap == map[] && resolver.owned == {} && resolver.dests == {}
    }

    /** No object of any kind is there. */
    ghost predicate NothingMade()
      reads `Parts, Parts
    {
      forall t: CmsTemplate {:trigger t.EmptyInvariant()} | t == this :: t.EmptyInvariant()
    }

    ghost predicate IdleInvariant()
      reads `connection, `initialized, `book, `defaultDestination, `defaultDestinationName, `pubSubDomain, `Parts, Parts
      reads resolver
    {
      && Wired() && Core() && MemoOk() && IdleExcept(-1)
      && if connection.Some? then initialized && AllPools() else NothingMade()
    }

    /** No session is outstanding, and there is a connection with all its pools or nothing at all. */
    ghost predicate Idle()
      reads `connection, `initialized, `book, `defaultDestination, `defaultDestinationName, `pubSubDomain, `Parts, Parts
      reads resolver
    {
      this !in Parts && forall t: CmsTemplate {:trigger t.IdleInvariant()} | t == this :: t.IdleInvariant()
    }

    /** What holds whenever no operation is running. */
    ghost predicate Ready()
      reads `connection, `initialized, `book, `defaultDestination, `defaultDestinationName, `pubSubDomain, `Parts, Parts
      reads resolver
    {
      Idle() && (initialized ==> connection.Some?)
    }

    ghost predicate ResetInvariant()
      reads `connection, `initialized, `book, `defaultDestination, `defaultDestinationName, `pubSubDomain, `Parts, Parts
      reads resolver
    {
      Ready() && !initialized && connection == None && defaultDestination == None && NothingMade()
    }

    /** What a failed operation leaves: a new template with the old configuration. */
    ghost predicate Reset()
      reads `connection, `initialized, `book, `defaultDestination, `defaultDestinationName, `pubSubDomain, `Parts, Parts
      reads resolver
    {
      this !in Parts && forall t: CmsTemplate {:trigger t.ResetInvariant()} | t == this :: t.ResetInvariant()
    }

    ghost predicate WorkingInvariant(slot: nat)
      reads this, Parts, resolver
    {
      && Wired() && Core() && MemoOk() && initialized && connection.Some?
      && AllPools() && IdleExcept(sessionAcknowledgeMode)
      && sessionAcknowledgeMode < NUM_SESSION_POOLS
      && slot == 0 && Pool(sessionAcknowledgeMode).State() == PoolState([], 1)
    }

    /** What holds while an operation uses the pooled session at a place of the current pool. */
    ghost predicate Working(slot: nat)
      reads this, Parts, resolver
    {
      && this !in Parts
      && forall t: CmsTemplate {:trigger t.WorkingInvariant(slot)} | t == this :: t.WorkingInvariant(slot)
    }

    /** The number of the next call when the connection, if there is one, has been closed. */
    function ToClosed(): nat
      reads `connection, provider`calls
    {
      provider.calls + if connection.Some? then 1 else 0
    }

    /** The number of the call after a step that ended well or not. */
    function CallsAfter(ok: bool): nat
      reads `connection, provider`calls
    {
      if ok then provider.calls else ToClosed()
    }

    /**
     A step that makes so many calls, if none of them fails, came to its end if and only if it was
     allowed to and none of them failed. The first failure was its last call.
     */
    twostate predicate Went(ok: bool, allowed: bool, cost: nat, next: Config)
      reads this, provider
    {
      && StepEnding(provider.outcome, old(connection).Some?, old(provider.calls), CallsAfter(ok), ok, allowed, cost)
      && (ok ==> connection.Some? && View() == next && provider.gone == old(provider.gone))
    }

    constructor (provider: CmsProvider, hasConnectionFactory: bool)
      requires provider.Valid() && provider.live == {} && Tidy(provider)
      ensures Reset() && this.provider == provider && fresh(Parts - {provider})
      ensures View() == NewConfig(hasConnectionFactory)
    {
      var mgr := new ResourceLifecycleManager(provider);
      var res := new DynamicDestinationResolver(provider);
      var pools := new SessionPool?[NUM_SESSION_POOLS](_ => null);
      this.provider, manager, resolver, sessionPools := provider, mgr, res, pools;
      connection, defaultDestination, initialized := None, None, false;
      defaultDestinationName, pubSubDomain := "", false;
      this.hasConnectionFactory := hasConnectionFactory;
      sessionAcknowledgeMode, settings := AUTO_ACKNOWLEDGE, DEFAULTS;
      book, Parts := NOTHING, {pools, provider, mgr, res};
      new;
      NothingIsBalanced();
      CloseReset();
    }

    /** To its users, a template that was reset has its properties and nothing else. */
    lemma ResetIsForgotten()
      requires Reset()
      ensures Ready() && Core() && View() == View().Forgotten() && connection == None
    {
      assert ResetInvariant() && IdleInvariant() && EmptyInvariant() && CoreInvariant() && book.Invariant();
    }

    /** A template without objects is in order. */
    lemma CloseReset()
      requires Wired() && !initialized && connection == None && defaultDestination == None
      requires EmptyInvariant() && book == NOTHING && book.Balanced()
      requires provider.Valid() && manager.Valid() && resolver.Valid()
      requires Tidy(provider)
      ensures Reset()
    {
      forall a | 0 <= a < NUM_SESSION_POOLS
        ensures PoolBooked(Pool(a), manager, book.owned[a], book.used[a], book.connection)
      {
        assert PoolInvariant(Pool(a), manager, book.owned[a], book.used[a], book.connection);
      }
      assert CoreInvariant();
      assert IdleInvariant();
      assert ResetInvariant();
    }

    // The setters.

    method SetDefaultDestination(d: Option<Destination>)
      requires Ready()
      modifies `defaultDestination
      ensures Ready() && View() == old(View()).(given := d, memo := false)
    {
      assert IdleInvariant();
      defaultDestination := if d.Some? then Some(Foreign(d.value)) else None;
      assert IdleInvariant();
    }

    method SetDefaultDestinationName(name: string)
      requires Ready()
      modifies `defaultDestination, `defaultDestinationName
      ensures Ready()
      ensures View() == if name == old(View()).name then old(View())
                        else old(View()).(given := None, memo := false, name := name)
    {
      assert IdleInvariant();
      if name != defaultDestinationName {
        defaultDestination := None;
        defaultDestinationName := name;
      }
      assert IdleInvariant();
    }

    method SetPubSubDomain(value: bool)
      requires Ready()
      modifies `defaultDestination, `pubSubDomain
      ensures Ready()
      ensures View() == if value == old(View()).pubSubDomain then old(View())
                        else old(View()).(given := None, memo := false, pubSubDomain := value)
    {
      assert IdleInvariant();
      if value != pubSubDomain {
        defaultDestination := None;
        pubSubDomain := value;
      }
      assert IdleInvariant();
    }

    method SetConnectionFactory(present: bool)
      requires Ready()
      modifies `hasConnectionFactory
      ensures Ready() && View() == old(View()).(factory := present)
    {
      hasConnectionFactory := present;
    }

    method SetSessionAcknowledgeMode(ackMode: nat)
      requires Ready()
      modifies `sessionAcknowledgeMode
      ensures Ready() && View() == old(View()).(ackMode := ackMode)
    {
      sessionAcknowledgeMode := ackMode;
    }

    /** The setters of the message, timeout and quality of service properties. */
    method Configure(settings: Settings)
      requires Ready()
      modifies `settings
      ensures Ready() && View() == old(View()).(settings := settings)
    {
      this.settings := settings;
    }

    // Setting up and tearing down.

    method PutPool(ix: nat, p: SessionPool?)
      requires ix < sessionPools.Length
      modifies sessionPools
      ensures Pool(ix) == p && forall a | a != ix :: Pool(a) == old(Pool(a))
    {
      sessionPools[ix] := p;
    }

    method DestroySessionPools()
      requires Wired() && provider.Valid() && Booked() && book.Balanced()
      modifies Parts - {manager, resolver}
      ensures Wired() && provider.Valid() && NoPools()
      ensures unchanged(provider`calls, provider`traffic, provider`messages, provider`closed, provider`made)
      ensures forall r :: r in provider.live <==>
                && r in old(provider.live)
                && !(0 <= PoolOf(r.what) < NUM_SESSION_POOLS && r in book.owned[PoolOf(r.what)])
      ensures old(NoPools()) ==> unchanged(provider)
    {
      assert book.Invariant();
      for ix := 0 to NUM_SESSION_POOLS
        invariant Wired() && provider.Valid()
        invariant unchanged(provider`calls, provider`traffic, provider`messages, provider`closed, provider`made)
        invariant forall a | 0 <= a < ix :: Pool(a) == null
        invariant forall a | ix <= a < NUM_SESSION_POOLS ::
                    Pool(a) == old(Pool(a)) && (Pool(a) != null ==> unchanged(Pool(a)))
        invariant forall r :: r in provider.live <==>
                    && r in old(provider.live)
                    && !(0 <= PoolOf(r.what) < ix && r in book.owned[PoolOf(r.what)])
        invariant old(NoPools()) ==> unchanged(provider)
      {
        assert old(PoolInvariant(Pool(ix), manager, book.owned[ix], book.used[ix], book.connection));
        if Pool(ix) != null {
          Pool(ix).Delete();
          PutPool(ix, null);
        }
      }
    }

    /** The part of Destroy that deletes things. */
    method DeleteEverything()
      requires Wired() && provider.Valid() && manager.Valid() && Booked() && resolver.Valid() && book.Balanced()
      requires provider.closed == {}
      modifies Parts
      ensures Wired() && provider.Valid() && manager.Valid() && resolver.Valid() && EmptyInvariant()
      ensures unchanged(provider`traffic, provider`messages, provider`closed, provider`made)
      ensures provider.calls == old(provider.calls) + |old(manager.connections)|
      ensures old(NothingMade()) ==> provider.log == old(provider.log)
    {
      Homes(book);
      assert book.Invariant();
      ghost var empty := NothingMade();
      if empty {
        assert EmptyInvariant();
      }
      DestroySessionPools();
      resolver.Destroy();
      manager.Destroy();
    }

    method Destroy()
      requires Core()
      modifies `initialized, `connection, `defaultDestination, `book, Parts
      ensures Reset() && Parts == old(Parts)
      ensures provider.traffic == old(provider.traffic) && provider.made == old(provider.made)
      ensures provider.calls == old(ToClosed()) && connection == None
      ensures old(NothingMade()) ==> provider.log == old(provider.log)
    {
      assert CoreInvariant();
      initialized := false;
      connection := None;
      defaultDestination := None;
      DeleteEverything();
      book := NOTHING;
      NothingIsBalanced();
      CloseReset();
    }

    method Init()
      requires Idle()
      modifies `initialized, Parts
      ensures Idle() && initialized && unchanged(provider) && Parts == old(Parts) && View() == old(View())
      ensures provider.calls == old(provider.calls) && provider.traffic == old(provider.traffic)
    {
      assert IdleInvariant() && CoreInvariant();
      if !initialized {
        assert EmptyInvariant();
        resolver.Init(manager);
        initialized := true;
        assert EmptyInvariant() && CoreInvariant();
      }
      assert IdleInvariant();
    }

    // Which roles are filled.

    /** A session, producer or consumer that is live is used by its pool. */
    lemma LiveIsUsed(a: nat, r: Resource)
      requires Core() && a < NUM_SESSION_POOLS && r in provider.live && PoolOf(r.what) == a
      requires r.what.SessionObject? || r.what.ProducerObject? || r.what.ConsumerObject?
      ensures Pool(a) != null && Using(r, Pool(a).sessions)
      ensures |book.used| == NUM_SESSION_POOLS && r in book.used[a]
    {
      assert CoreInvariant() && book.Invariant();
      assert book.Home(r) && book.Known(r);
      var p := Pool(a);
      assert PoolInvariant(p, manager, book.owned[a], book.used[a], book.connection);
      assert p != null && p.Invariant();
      assert Using(r, p.sessions) || !Using(r, p.sessions);
    }

    lemma UsedIsLive(a: nat, r: Resource)
      requires Core() && a < NUM_SESSION_POOLS && Pool(a) != null && Using(r, Pool(a).sessions)
      ensures r in provider.live
    {
      assert CoreInvariant() && book.Invariant();
      assert PoolInvariant(Pool(a), manager, book.owned[a], book.used[a], book.connection);
      assert Pool(a).Invariant();
    }

    /** What a pool keeps of each of its sessions. */
    lemma SessionIsValid(a: nat, slot: nat)
      requires Core() && a < NUM_SESSION_POOLS && Pool(a) != null && slot < |Pool(a).sessions|
      ensures Pool(a).sessions[slot].Valid(a, slot)
    {
      assert CoreInvariant();
      assert PoolInvariant(Pool(a), manager, book.owned[a], book.used[a], book.connection);
      assert Pool(a).Invariant();
      assert ValidAt(Pool(a).sessions, slot, a);
    }

    /** A pool can do its work. */
    lemma PoolIsGrounded(a: nat)
      requires Core() && a < NUM_SESSION_POOLS && Pool(a) != null
      ensures var p := Pool(a);
              && p.provider == provider && p.manager == manager && p.acknowledgeMode == a && p.Valid() && p.Grounded()
              && |book.owned| == |book.used| == NUM_SESSION_POOLS
              && book.connection == Some(p.connection) && p.owned == book.owned[a] && p.used == book.used[a]
    {
      assert CoreInvariant() && book.Invariant();
      assert PoolInvariant(Pool(a), manager, book.owned[a], book.used[a], book.connection);
      assert Pool(a).Invariant();
    }

    /** A pool made an object of its own and a managed one. */
    twostate lemma PoolGrew(a: nat)
      requires old(Core()) && a < NUM_SESSION_POOLS && old(Pool(a)) != null && Pool(a) == old(Pool(a))
      requires unchanged(`connection, `initialized, `book, `Parts) && unchanged(Parts - {Pool(a), manager, provider})
      requires unchanged(manager`connections, provider`traffic, provider`messages, provider`closed)
      requires Pool(a).Valid() && Pool(a).Grounded() && |old(Pool(a).sessions)| <= |Pool(a).sessions|
      requires Pool(a).provider == provider && Pool(a).manager == manager
      ensures forall w, m {:trigger CoreBut(a, w, m)} | Pool(a).Added(w, m) :: CoreBut(a, w, m)
    {
      assert old(CoreInvariant());
      assert old(PoolInvariant(Pool(a), manager, book.owned[a], book.used[a], book.connection));
      forall w, m | Pool(a).Added(w, m) ensures CoreBut(a, w, m) {
        assert PoolInvariant(Pool(a), manager, book.owned[a] + {w}, book.used[a] + {m}, book.connection);
      }
    }

    /** A pool was used, and made nothing. */
    twostate lemma PoolStayed(a: nat)
      requires old(Core()) && a < NUM_SESSION_POOLS && old(Pool(a)) != null && Pool(a) == old(Pool(a))
      requires unchanged(`connection, `initialized, `book, `Parts) && unchanged(Parts - {Pool(a), manager, provider})
      requires unchanged(provider`traffic, provider`messages, provider`closed)
      requires Pool(a).Valid() && Pool(a).Grounded()
      requires Pool(a).provider == provider && Pool(a).manager == manager && Pool(a).Untouched()
      ensures Core()
    {
      assert old(CoreInvariant());
      assert old(PoolInvariant(Pool(a), manager, book.owned[a], book.used[a], book.connection));
      assert PoolInvariant(Pool(a), manager, book.owned[a], book.used[a], book.connection);
      assert CoreInvariant();
    }

    lemma ConnectionIsReal()
      requires Core() && connection.Some?
      ensures connection.value.what.ConnectionObject? && connection.value in provider.live
    {
      assert CoreInvariant() && book.Invariant();
    }

    lemma ResolverIsGrounded()
      requires Core()
      ensures resolver.owned <= provider.live && resolver.dests <= manager.managed <= provider.live
    {
      assert CoreInvariant() && book.Invariant();
    }

    lemma GotIsLive()
      requires Core()
      ensures View().got == Got(provider.live)
    {
      assert CoreInvariant() && book.Invariant();
    }

    lemma GotConnection()
      requires Core()
      ensures Connecting in View().got <==> connection.Some?
    {
      assert CoreInvariant() && book.Invariant();
      if Connecting in View().got {
        var r :| r in provider.live && RoleOf(r.what) == Connecting;
        assert book.Home(r) && book.Known(r);
      }
    }

    lemma HadConnection()
      requires Idle()
      ensures Connecting in View().got <==> connection.Some?
    {
      assert IdleInvariant();
      GotConnection();
    }

    lemma Connected(slot: nat)
      requires Working(slot)
      ensures connection.Some? && Connecting in View().got && provider in Parts
    {
      assert WorkingInvariant(slot);
      GotConnection();
    }

    lemma GotSession(a: nat)
      requires Idle() && connection.Some? && a < NUM_SESSION_POOLS
      ensures Pool(a) != null
      ensures SessionFor(a) in View().got <==> Pool(a).available != []
    {
      assert IdleInvariant();
      var p := Pool(a);
      assert p.State() == EMPTY || p.State() == PoolState([0], 1);
      GotIsLive();
      if SessionFor(a) in View().got {
        var r :| r in provider.live && RoleOf(r.what) == SessionFor(a);
        LiveIsUsed(a, r);
      }
      if |p.sessions| == 1 {
        SessionIsValid(a, 0);
        UsedIsLive(a, p.sessions[0].session);
      }
    }

    lemma GotProducer(slot: nat, key: string)
      requires Working(slot)
      ensures var a := sessionAcknowledgeMode;
              && a < NUM_SESSION_POOLS && Pool(a) != null && slot < |Pool(a).sessions|
              && (ProducerFor(a, key) in View().got <==> key in Pool(a).sessions[slot].producerCache)
    {
      assert WorkingInvariant(slot);
      var a := sessionAcknowledgeMode;
      var s := Pool(a).sessions[slot];
      GotIsLive();
      if ProducerFor(a, key) in View().got {
        var r :| r in provider.live && RoleOf(r.what) == ProducerFor(a, key);
        LiveIsUsed(a, r);
      }
      if key in s.producerCache {
        SessionIsValid(a, slot);
        UsedIsLive(a, s.producerCache[key].producer);
      }
    }

    lemma GotConsumer(slot: nat, key: string)
      requires Working(slot)
      ensures var a := sessionAcknowledgeMode;
              && a < NUM_SESSION_POOLS && Pool(a) != null && slot < |Pool(a).sessions|
              && (ConsumerFor(a, key) in View().got <==> key in Pool(a).sessions[slot].consumerCache)
    {
      assert WorkingInvariant(slot);
      var a := sessionAcknowledgeMode;
      var s := Pool(a).sessions[slot];
      GotIsLive();
      if ConsumerFor(a, key) in View().got {
        var r :| r in provider.live && RoleOf(r.what) == ConsumerFor(a, key);
        LiveIsUsed(a, r);
      }
      if key in s.consumerCache {
        SessionIsValid(a, slot);
        UsedIsLive(a, s.consumerCache[key].consumer);
      }
    }

    lemma GotName(slot: nat, pubSub: bool, name: string)
      requires Working(slot)
      ensures var a := sessionAcknowledgeMode;
              Naming(a, Named(pubSub, name)) in View().got
              <==> Lookup(resolver.sessionResolverMap, SessionPointer(a, slot), pubSub, name).Some?
    {
      assert WorkingInvariant(slot) && CoreInvariant() && book.Invariant() && resolver.Invariant();
      var a, m := sessionAcknowledgeMode, resolver.sessionResolverMap;
      var k := SessionPointer(a, slot);
      if Naming(a, Named(pubSub, name)) in View().got {
        var r :| r in provider.live && RoleOf(r.what) == Naming(a, Named(pubSub, name));
        assert book.Home(r) && book.Known(r);
        assert IsRemembered(r, m);
        assert SessionPointer(r.what.pool, r.what.slot) == k;
      }
      if Lookup(m, k, pubSub, name).Some? {
        LookupIsRemembered(m, k, pubSub, name);
      }
    }

    // Getting a session.

    lemma NoPoolsNoBooks()
      requires Core() && NoPools()
      ensures |book.owned| == |book.used| == NUM_SESSION_POOLS
      ensures forall a | 0 <= a < NUM_SESSION_POOLS :: book.owned[a] == book.used[a] == {}
    {
      assert CoreInvariant();
      forall a | 0 <= a < NUM_SESSION_POOLS ensures book.owned[a] == book.used[a] == {} {
        assert PoolInvariant(Pool(a), manager, book.owned[a], book.used[a], book.connection);
      }
    }

    method CreateConnection() returns (res: Result<Resource>)
      requires Core() && connection == None && NothingMade()
      modifies `connection, `book, provider`calls, provider`log, provider`live, provider`made
      modifies manager`connections, manager`managed
      ensures Core() && NoPools()
      ensures provider.calls == old(provider.calls) + if hasConnectionFactory then 1 else 0
      ensures res.Ok? <==> hasConnectionFactory && provider.outcome(old(provider.calls)).Fine?
      ensures res.Ok? ==> connection == Some(res.value) && View() == old(View()).With(Connecting)
      ensures res.Ok? ==> res.value in provider.live
      ensures res.Throws? ==> connection == None
    {
      assert EmptyInvariant();
      if !hasConnectionFactory {
        return Throws(CmsException);
      }
      var o := CallFactory();
      if o.Fails? {
        return Throws(o.exn);
      }
      var c := KeepConnection();
      return Ok(c);
    }

    method CallFactory() returns (o: Outcome)
      requires Core()
      modifies provider`calls
      ensures Core() && provider.calls == old(provider.calls) + 1 && o == provider.outcome(old(provider.calls))
    {
      assert CoreInvariant();
      o := provider.CallOutside();
      assert CoreInvariant();
    }

    /** The connection that the factory made is registered with the manager. */
    method KeepConnection() returns (c: Resource)
      requires Core() && connection == None && NoPools()
      modifies `connection, `book, provider`log, provider`live, provider`made
      modifies manager`connections, manager`managed
      ensures Core() && connection == Some(c) && View() == old(View()).With(Connecting) && c in provider.live
    {
      ResolverIsGrounded();
      NoPoolsNoBooks();
      assert CoreInvariant();
      c := provider.Make(ConnectionObject);
      manager.AddConnection(c);
      connection := Some(c);
      EnterConnection(c);
      assert CoreInvariant();
    }

    /** Enters the connection into the books. */
    ghost method EnterConnection(c: Resource)
      requires Wired() && book.Balanced() && book.connection == None && c.what.ConnectionObject? && NoPools()
      requires book.live + {c} == provider.live && book.managed + {c} == manager.managed
      requires book.resolvers == resolver.owned && book.dests == resolver.dests
      requires forall a | 0 <= a < NUM_SESSION_POOLS :: book.owned[a] == book.used[a] == {}
      modifies `book
      ensures Booked() && book.Balanced() && book.connection == Some(c) && book.got == old(book.got) + {Connecting}
    {
      AddConnection(book, c);
      book := book.(live := book.live + {c}, managed := book.managed + {c}, connection := Some(c),
        got := book.got + {Connecting});
      forall a | 0 <= a < NUM_SESSION_POOLS
        ensures PoolBooked(Pool(a), manager, book.owned[a], book.used[a], book.connection)
      {
        assert PoolInvariant(Pool(a), manager, book.owned[a], book.used[a], book.connection);
      }
    }

    method CreateSessionPools()
      requires Core() && connection.Some? && NoPools() && resolver.sessionResolverMap == map[]
      modifies `book, `Parts, Parts - {manager, resolver}
      ensures Core() && AllPools() && IdleExcept(-1) && fresh(Parts - old(Parts)) && View() == old(View())
      ensures provider.gone == old(provider.gone) && provider.traffic == old(provider.traffic)
      ensures provider.calls == old(provider.calls) && old(provider.log) <= provider.log
    {
      assert CoreInvariant();
      RemovePools();
      CreateEachPool();
    }

    /** The pools are removed first, although there are none. */
    method RemovePools()
      requires Core() && NoPools()
      modifies Parts - {manager, resolver}
      ensures Core() && NoPools() && unchanged(provider)
    {
      assert CoreInvariant();
      NoPoolsNoBooks();
      DestroySessionPools();
      NothingInBooks();
      assert CoreInvariant();
    }

    lemma NothingInBooks()
      requires Wired() && NoPools() && |book.owned| == |book.used| == NUM_SESSION_POOLS
      requires forall a | 0 <= a < NUM_SESSION_POOLS :: book.owned[a] == book.used[a] == {}
      ensures forall a | 0 <= a < NUM_SESSION_POOLS ::
                PoolBooked(Pool(a), manager, book.owned[a], book.used[a], book.connection)
    {
      forall a | 0 <= a < NUM_SESSION_POOLS
        ensures PoolBooked(Pool(a), manager, book.owned[a], book.used[a], book.connection)
      {
        assert PoolInvariant(Pool(a), manager, book.owned[a], book.used[a], book.connection);
      }
    }

    method CreateEachPool()
      requires Core() && connection.Some? && NoPools() && resolver.sessionResolverMap == map[]
      modifies `book, `Parts, sessionPools, provider`log, provider`live, provider`made
      ensures Core() && AllPools() && IdleExcept(-1) && fresh(Parts - old(Parts)) && View() == old(View())
      ensures old(provider.log) <= provider.log
    {
      for ix := 0 to NUM_SESSION_POOLS
        invariant Core() && IdleExcept(-1) && fresh(Parts - old(Parts))
        invariant old(Parts) <= Parts && View() == old(View()) && old(provider.log) <= provider.log
        invariant forall a | 0 <= a < ix :: Pool(a) != null
        invariant forall a | ix <= a < NUM_SESSION_POOLS :: Pool(a) == null
      {
        CreateSessionPool(ix);
      }
    }

    method CreateSessionPool(ix: nat)
      requires Core() && connection.Some? && ix < NUM_SESSION_POOLS && Pool(ix) == null
      requires resolver.sessionResolverMap == map[]
      modifies `book, `Parts, sessionPools, provider`log, provider`live, provider`made
      ensures Core() && fresh(Parts - old(Parts)) && old(Parts) <= Parts && View() == old(View())
      ensures old(provider.log) <= provider.log
      ensures Pool(ix) != null && fresh(Pool(ix)) && Pool(ix).State() == EMPTY
      ensures forall a | 0 <= a < NUM_SESSION_POOLS && a != ix :: Pool(a) == old(Pool(a))
    {
      ConnectionIsReal();
      assert CoreInvariant();
      assert PoolInvariant(null, manager, book.owned[ix], book.used[ix], book.connection);
      var p := new SessionPool(connection.value, ix, manager);
      PutPool(ix, p);
      Parts := Parts + {p};
      assert PoolInvariant(p, manager, {p.handle}, {}, book.connection);
      EnterPool(ix, p);
    }

    /** Enters a pool into the books. */
    ghost method EnterPool(ix: nat, p: SessionPool)
      requires Wired() && provider.Valid() && manager.Valid() && ResolverOk() && book.Balanced()
      requires book.connection == connection
      requires manager.connections == if connection.Some? then [connection.value] else []
      requires Tidy(provider)
      requires ix < NUM_SESSION_POOLS && Pool(ix) == p && p.handle.what == PoolObject(ix)
      requires book.live + {p.handle} == provider.live && book.managed == manager.managed
      requires book.resolvers == resolver.owned && book.dests == resolver.dests
      requires book.owned[ix] == book.used[ix] == {}
      requires PoolBooked(p, manager, {p.handle}, {}, book.connection)
      requires forall a | 0 <= a < NUM_SESSION_POOLS && a != ix ::
                 PoolBooked(Pool(a), manager, book.owned[a], book.used[a], book.connection)
      modifies `book
      ensures Core() && book.got == old(book.got)
    {
      AddPool(book, ix, p.handle);
      book := book.(live := book.live + {p.handle}, owned := book.owned[ix := {p.handle}]);
      assert CoreInvariant();
    }

    method GetConnection() returns (res: Result<Resource>)
      requires Idle() && initialized
      modifies `initialized, `connection, `defaultDestination, `book, `Parts, Parts
      ensures res.Ok? ==> Idle() && initialized && connection == Some(res.value)
      ensures res.Throws? ==> Reset() && res.exn == CmsException
      ensures var c := old(View()); Went(res.Ok?, c.CanConnect(), c.ConnectCost(), c.With(Connecting))
      // a new connection has been started
      ensures res.Ok? && old(connection) == None ==> Used(res.value) in provider.log
      ensures provider.traffic == old(provider.traffic) && fresh(Parts - old(Parts))
    {
      assert IdleInvariant();
      GotConnection();
      if connection == None {
        var o := Connect();
        if o.Fails? {
          Destroy();
          return Throws(CmsException);
        }
      }
      return Ok(connection.value);
    }

    /** Creates and starts a connection, and creates the pools. */
    method Connect() returns (o: Outcome)
      requires Idle() && initialized && connection == None
      modifies `connection, `book, `Parts, Parts
      ensures if o.Fine? then Idle() && connection.Some? else Core()
      ensures var c := old(View()); Went(o.Fine?, c.factory, if c.factory then 2 else 0, c.With(Connecting))
      ensures provider.traffic == old(provider.traffic) && fresh(Parts - old(Parts))
      ensures o.Fine? ==> Used(connection.value) in provider.log
    {
      assert IdleInvariant() && EmptyInvariant();
      SpentOfTwo(provider.outcome, provider.calls);
      var made := CreateConnection();
      if made.Throws? {
        return Fails(made.exn);
      }
      o := StartConnection(made.value);
      if o.Fine? {
        ghost var started := provider.log;
        Equip();
        LastStays(started, provider.log);
      }
    }

    /** With a connection and its pools, the template is idle. */
    method Equip()
      requires Core() && connection.Some? && initialized && MemoOk() && NoPools()
      requires resolver.sessionResolverMap == map[]
      modifies `book, `Parts, Parts - {manager, resolver}
      ensures Idle() && fresh(Parts - old(Parts)) && View() == old(View())
      ensures unchanged(provider`calls, provider`traffic, provider`gone) && old(provider.log) <= provider.log
    {
      CreateSessionPools();
      assert CoreInvariant();
      assert IdleInvariant();
    }

    method StartConnection(c: Resource) returns (o: Outcome)
      requires Core() && c in provider.live
      modifies provider`calls, provider`log
      ensures Core() && provider.log == old(provider.log) + [Used(c)]
      ensures provider.calls == old(provider.calls) + 1 && o == provider.outcome(old(provider.calls))
    {
      assert CoreInvariant();
      o := provider.Call(c);
      assert CoreInvariant();
    }

    method TakeSession() returns (res: Result<nat>)
      requires Idle() && initialized && sessionAcknowledgeMode < NUM_SESSION_POOLS
      modifies `initialized, `connection, `defaultDestination, `book, `Parts, Parts
      ensures res.Ok? ==> Working(res.value)
      ensures res.Throws? ==> Reset() && res.exn == CmsException
      ensures var c := old(View()); Went(res.Ok?, c.CanConnect(), c.OpenCost(), c.Opened())
      ensures provider.traffic == old(provider.traffic) && fresh(Parts - old(Parts))
    {
      HadConnection();
      ghost var had, from, v := connection.Some?, provider.calls, View();
      var c := GetConnection();
      if c.Throws? {
        StepNotReached(provider.outcome, had, from, ToClosed(), v.CanConnect(), v.ConnectCost(), v.CanConnect(),
                       v.OpenCost() - v.ConnectCost());
        RunHandler();
        return Throws(CmsException);
      }
      ghost var mid, more := provider.calls, v.Missing(SessionFor(v.ackMode));
      res := TakeFromPool();
      StepThenStep(provider.outcome, had, from, mid, CallsAfter(res.Ok?), res.Ok?, v.CanConnect(), v.ConnectCost(),
                   true, more);
      if res.Throws? {
        Destroy();
        return Throws(CmsException);
      }
    }

    /** Takes a session from the current pool and enters it into the books. */
    method TakeFromPool() returns (res: Result<nat>)
      requires Idle() && connection.Some? && sessionAcknowledgeMode < NUM_SESSION_POOLS
      modifies `book, Parts
      ensures if res.Ok? then Working(res.value) else Core()
      ensures var c := old(View());
              var role := SessionFor(c.ackMode);
              Went(res.Ok?, true, c.Missing(role), c.With(role))
      ensures Parts == old(Parts) && provider.traffic == old(provider.traffic)
    {
      GotSession(sessionAcknowledgeMode);
      if Pool(sessionAcknowledgeMode).available == [] {
        res := TakeNew(sessionAcknowledgeMode);
      } else {
        var slot := TakeWaiting(sessionAcknowledgeMode);
        res := Ok(slot);
      }
    }

    /** The pool has to make a session. */
    method TakeNew(a: nat) returns (res: Result<nat>)
      requires Idle() && connection.Some? && a == sessionAcknowledgeMode < NUM_SESSION_POOLS
      requires Pool(a) != null && Pool(a).available == []
      modifies `book, Parts
      ensures if res.Ok? then Working(res.value) else Core()
      ensures Parts == old(Parts) && provider.traffic == old(provider.traffic) && provider.gone == old(provider.gone)
      ensures provider.calls == old(provider.calls) + 1
      ensures res.Ok? <==> provider.outcome(old(provider.calls)).Fine?
      ensures res.Ok? ==> View() == old(View()).With(SessionFor(a))
    {
      assert IdleInvariant();
      assert Pool(a).State() == EMPTY;
      res := MakeSession(a);
      if res.Ok? {
        assert WorkingInvariant(res.value);
      }
    }

    method MakeSession(a: nat) returns (res: Result<nat>)
      requires Core() && connection.Some? && a < NUM_SESSION_POOLS
      requires Pool(a) != null && Pool(a).available == []
      modifies `book, Pool(a), manager`sessions, manager`managed
      modifies provider`calls, provider`log, provider`live, provider`made
      ensures Core() && provider.calls == old(provider.calls) + 1
      ensures res.Ok? <==> provider.outcome(old(provider.calls)).Fine?
      ensures res.Ok? ==> res.value == old(Pool(a).State()).Next()
      ensures res.Ok? ==> Pool(a).State() == old(Pool(a).State()).Take()
      ensures res.Ok? ==> View() == old(View()).With(SessionFor(a))
    {
      PoolIsGrounded(a);
      var pool := Pool(a);
      res := pool.TakeSession();
      if res.Ok? {
        ghost var s := pool.sessions[res.value];
        pool.SessionIsValid(res.value);
        PoolGrew(a);
        Enter(a, s.handle, s.session);
      } else {
        PoolStayed(a);
      }
    }

    /** The pool has a session. */
    method TakeWaiting(a: nat) returns (slot: nat)
      requires Idle() && connection.Some? && a == sessionAcknowledgeMode < NUM_SESSION_POOLS
      requires Pool(a) != null && Pool(a).available != []
      modifies Parts
      ensures Working(slot)
      ensures provider.traffic == old(provider.traffic) && provider.gone == old(provider.gone)
      ensures provider.calls == old(provider.calls) && provider.live == old(provider.live)
    {
      assert IdleInvariant();
      PoolIsGrounded(a);
      var pool := Pool(a);
      assert pool.State() == EMPTY || pool.State() == PoolState([0], 1);
      var res := pool.TakeSession();
      slot := res.value;
      PoolStayed(a);
      assert WorkingInvariant(slot);
    }

    method ReturnSession(slot: nat)
      requires Working(slot)
      modifies Parts
      ensures Ready() && initialized && View() == old(View())
      ensures unchanged(provider`calls, provider`traffic, provider`gone) && Parts == old(Parts)
    {
      assert WorkingInvariant(slot);
      PutBack(sessionAcknowledgeMode, slot);
      assert IdleInvariant();
    }

    method PutBack(a: nat, slot: nat)
      requires Core() && a < NUM_SESSION_POOLS && Pool(a) != null
      requires slot in Pool(a).State().Outstanding()
      modifies Pool(a), provider`log
      ensures Core() && Pool(a).State() == old(Pool(a).State()).Return(slot)
    {
      PoolIsGrounded(a);
      var pool := Pool(a);
      pool.ReturnSession(slot);
      PoolStayed(a);
    }

    /** What was made in the current session does not disturb the work in it. */
    twostate lemma StillWorking(slot: nat)
      requires old(Working(slot)) && Core() && old(resolver.dests) <= resolver.dests
      requires unchanged(`initialized, `connection, `defaultDestination, `defaultDestinationName, `pubSubDomain)
      requires sessionAcknowledgeMode == old(sessionAcknowledgeMode)
      requires forall a | 0 <= a < NUM_SESSION_POOLS ::
                 && Pool(a) == old(Pool(a))
                 && (Pool(a) != null ==> Pool(a).State() == old(Pool(a).State()))
      ensures Working(slot)
    {
      assert old(WorkingInvariant(slot)) && CoreInvariant();
      assert WorkingInvariant(slot);
    }

    // Resolving destinations.

    /** The pointer is good, and points to d. */
    ghost predicate Aimed(p: DestinationPointer, d: Destination)
      reads provider`live
    {
      p.Valid(provider.live) && p.Target() == d
    }

    /** CmsDestinationAccessor::resolveDestinationName. */
    method ResolveDestinationName(slot: nat, name: string) returns (res: Result<Resource>)
      requires Working(slot)
      modifies `book, Parts
      ensures Working(slot) && Parts == old(Parts) && provider.traffic == old(provider.traffic)
      ensures var c := old(View());
              var role := Naming(c.ackMode, Named(c.pubSubDomain, name));
              Went(res.Ok?, name != "", if name == "" then 0 else c.Missing(role), c.With(role))
      ensures res.Ok? ==> Aimed(Managed(res.value), Named(pubSubDomain, name)) && res.value in resolver.dests
    {
      assert WorkingInvariant(slot);
      GotName(slot, pubSubDomain, name);
      res := Resolve(sessionAcknowledgeMode, slot, name, pubSubDomain);
      StillWorking(slot);
    }

    method Resolve(a: nat, slot: nat, name: string, pubSub: bool) returns (res: Result<Resource>)
      requires Core() && initialized && a < NUM_SESSION_POOLS && Pool(a) != null
      requires slot < |Pool(a).sessions|
      modifies `book, resolver, manager`destinations, manager`managed
      modifies provider`calls, provider`log, provider`live, provider`made
      ensures Core() && old(resolver.dests) <= resolver.dests
      ensures var m, k := old(resolver.sessionResolverMap), SessionPointer(a, slot);
              var hit := name == "" || Lookup(m, k, pubSub, name).Some?;
              && provider.calls == old(provider.calls) + (if hit then 0 else 1)
              && (res.Ok? <==> name != "" && (hit || provider.outcome(old(provider.calls)).Fine?))
      ensures res.Ok? ==>
                && res.value in resolver.dests && res.value in provider.live
                && res.value.what == DestinationObject(a, slot, Named(pubSub, name))
                && book.got == old(book.got) + {RoleOf(res.value.what)}
    {
      ResolverIsGrounded();
      assert CoreInvariant();
      PoolIsGrounded(a);
      Pool(a).SessionIsLive(slot);
      var s := Pool(a).sessions[slot];
      res := resolver.ResolveDestinationName(SessionPointer(a, slot), s.handle, s.session, name, pubSub);
      EnterResolved(if res.Ok? then Some(res.value) else None);
    }

    /** Enters what the resolver made into the books. */
    ghost method EnterResolved(d: Option<Resource>)
      requires Wired() && provider.Valid() && manager.Valid() && ResolverOk() && book.Balanced()
      requires book.connection == connection
      requires manager.connections == if connection.Some? then [connection.value] else []
      requires Tidy(provider)
      requires book.resolvers <= resolver.owned
      requires resolver.dests == book.dests + if d.Some? then {d.value} else {}
      requires provider.live == book.live + resolver.owned + resolver.dests
      requires manager.managed == book.managed + resolver.dests
      requires forall a | 0 <= a < NUM_SESSION_POOLS ::
                 PoolBooked(Pool(a), manager, book.owned[a], book.used[a], book.connection)
      modifies `book
      ensures Core() && book.got == old(book.got) + if d.Some? then {RoleOf(d.value.what)} else {}
    {
      ghost var h := book.(live := book.live + resolver.owned + resolver.dests,
        managed := book.managed + resolver.dests, resolvers := resolver.owned, dests := resolver.dests,
        got := book.got + if d.Some? then {RoleOf(d.value.what)} else {});
      resolver.Kinds();
      AddResolved(book, h, d);
      book := h;
      assert CoreInvariant();
    }

    method ResolveDefaultDestination(slot: nat) returns (res: Result<DestinationPointer>)
      requires Working(slot)
      modifies `initialized, `connection, `defaultDestination, `book, Parts
      ensures res.Ok? ==> Working(slot) && Aimed(res.value, old(View()).Meaning(Default))
      ensures res.Ok? ==> defaultDestination == Some(res.value)
      ensures res.Throws? ==> Reset() && res.exn == CmsException
      ensures var c := old(View()); Went(res.Ok?, c.WellFormed(Default), c.NameCost(Default), c.Resolved(Default))
      ensures Parts == old(Parts) && provider.traffic == old(provider.traffic)
    {
      assert WorkingInvariant(slot);
      if defaultDestination.Some? {
        ResolverIsGrounded();
        return Ok(defaultDestination.value);
      }
      var r: Result<Resource> := Throws(CmsException);
      if defaultDestinationName != "" {
        r := ResolveDestinationName(slot, defaultDestinationName);
      }
      assert WorkingInvariant(slot);
      if r.Throws? {
        Destroy();
        return Throws(CmsException);
      }
      defaultDestination := Some(Managed(r.value));
      assert WorkingInvariant(slot);
      return Ok(Managed(r.value));
    }

    /** ProducerExecutor, ResolveProducerExecutor, ReceiveExecutor, ResolveReceiveExecutor: getDestination. */
    method GetDestination(slot: nat, target: Target) returns (res: Result<Option<DestinationPointer>>)
      requires Working(slot)
      modifies `initialized, `connection, `defaultDestination, `book, Parts
      ensures res.Ok? ==> Working(slot) && (res.value == None <==> target == Default)
      ensures res.Ok? && res.value.Some? ==> Aimed(res.value.value, old(View()).Meaning(target))
      ensures res.Throws? ==> Reset() && res.exn == CmsException
      ensures res.Ok? ==> AsTarget(res.value) == old(View()).Located(target)
      ensures var c := old(View());
              Went(res.Ok?, target == Default || c.WellFormed(target), c.LocateCost(target), c.AfterLocating(target))
      ensures Parts == old(Parts) && provider.traffic == old(provider.traffic)
    {
      Connected(slot);
      match target
      case Default => return Ok(None);
      case To(d) => return Ok(Some(Foreign(d)));
      case ToName(name) =>
        var r := ResolveDestinationName(slot, name);
        if r.Throws? {
          assert WorkingInvariant(slot);
          Destroy();
          return Throws(CmsException);
        }
        return Ok(Some(Managed(r.value)));
    }

    /** The target that a destination pointer stands for: a null pointer stands for the default. */
    function AsTarget(dest: Option<DestinationPointer>): Target
      requires dest.Some? && dest.value.Managed? ==> dest.value.r.what.DestinationObject?
    {
      if dest.Some? then To(dest.value.Target()) else Default
    }

    ghost predicate IsGood(dest: Option<DestinationPointer>)
      reads provider`live
    {
      dest.Some? ==> dest.value.Valid(provider.live)
    }

    method OrDefault(slot: nat, dest: Option<DestinationPointer>) returns (res: Result<DestinationPointer>)
      requires Working(slot) && IsGood(dest)
      modifies `initialized, `connection, `defaultDestination, `book, Parts
      ensures res.Ok? ==> Working(slot) && Aimed(res.value, old(View()).Meaning(AsTarget(dest)))
      ensures res.Throws? ==> Reset() && res.exn == CmsException
      ensures var c, target := old(View()), AsTarget(dest);
              Went(res.Ok?, c.WellFormed(target), c.NameCost(target), c.Resolved(target))
      ensures Parts == old(Parts) && provider.traffic == old(provider.traffic)
    {
      if dest.Some? {
        Connected(slot);
        return Ok(dest.value);
      }
      res := ResolveDefaultDestination(slot);
    }

    // Producers and consumers.

    /** Asks the pooled session for its producer, and enters a new one into the books. */
    method TakeProducer(slot: nat, d: DestinationPointer) returns (res: Result<CachedProducer>)
      requires Working(slot) && d.Valid(provider.live)
      modifies `book, Parts
      ensures Working(slot) && Parts == old(Parts) && provider.traffic == old(provider.traffic)
      ensures var c := old(View());
              var role := ProducerFor(c.ackMode, UniqueDestName(d.Target()));
              Went(res.Ok?, true, c.Missing(role), c.With(role))
      ensures res.Ok? ==> {res.value.handle, res.value.producer} <= provider.live
      ensures res.Ok? ==> res.value.IsFor(sessionAcknowledgeMode, slot, UniqueDestName(d.Target()))
    {
      GotProducer(slot, UniqueDestName(d.Target()));
      Connected(slot);
      assert WorkingInvariant(slot);
      if UniqueDestName(d.Target()) in Pool(sessionAcknowledgeMode).sessions[slot].producerCache {
        var c := FindProducer(slot, d);
        res := Ok(c);
      } else {
        OneCall(provider.outcome, provider.calls);
        res := MakeProducer(slot, d);
      }
    }

    /** The pooled session has one. */
    method FindProducer(slot: nat, d: DestinationPointer) returns (c: CachedProducer)
      requires Working(slot) && d.Valid(provider.live)
      requires Pool(sessionAcknowledgeMode) != null && slot < |Pool(sessionAcknowledgeMode).sessions|
      requires UniqueDestName(d.Target()) in Pool(sessionAcknowledgeMode).sessions[slot].producerCache
      modifies Parts
      ensures Working(slot) && Parts == old(Parts) && {c.handle, c.producer} <= provider.live
      ensures unchanged(provider`calls, provider`traffic, provider`gone)
      ensures c.IsFor(sessionAcknowledgeMode, slot, UniqueDestName(d.Target()))
    {
      assert WorkingInvariant(slot);
      PoolIsGrounded(sessionAcknowledgeMode);
      var res := Pool(sessionAcknowledgeMode).CreateCachedProducer(slot, Some(d));
      c := res.value;
      PoolStayed(sessionAcknowledgeMode);
      StillWorking(slot);
    }

    /** The pooled session has to make one. */
    method MakeProducer(slot: nat, d: DestinationPointer)
      returns (res: Result<CachedProducer>)
      requires Working(slot) && d.Valid(provider.live)
      requires Pool(sessionAcknowledgeMode) != null && slot < |Pool(sessionAcknowledgeMode).sessions|
      requires UniqueDestName(d.Target()) !in Pool(sessionAcknowledgeMode).sessions[slot].producerCache
      modifies `book, Parts
      ensures Working(slot) && Parts == old(Parts)
      ensures unchanged(provider`traffic, provider`gone) && provider.calls == old(provider.calls) + 1
      ensures res.Ok? <==> provider.outcome(old(provider.calls)).Fine?
      ensures res.Ok? ==> {res.value.handle, res.value.producer} <= provider.live
      ensures res.Ok? ==> View() == old(View()).With(ProducerFor(sessionAcknowledgeMode, UniqueDestName(d.Target())))
      ensures res.Ok? ==> res.value.IsFor(sessionAcknowledgeMode, slot, UniqueDestName(d.Target()))
    {
      assert WorkingInvariant(slot);
      ghost var a := sessionAcknowledgeMode;
      PoolIsGrounded(a);
      res := Pool(sessionAcknowledgeMode).CreateCachedProducer(slot, Some(d));
      if res.Ok? {
        PoolGrew(a);
        Enter(a, res.value.handle, res.value.producer);
      } else {
        PoolStayed(a);
      }
      StillWorking(slot);
    }

    /** Asks the pooled session for its consumer, and enters a new one into the books. */
    method TakeConsumer(slot: nat, d: DestinationPointer, selector: string, noLocal: bool)
      returns (res: Result<CachedConsumer>)
      requires Working(slot) && d.Valid(provider.live)
      modifies `book, Parts
      ensures Working(slot) && Parts == old(Parts) && provider.traffic == old(provider.traffic)
      ensures var c := old(View());
              var role := ConsumerFor(c.ackMode, ConsumerKey(d.Target(), selector, noLocal));
              Went(res.Ok?, true, c.Missing(role), c.With(role))
      ensures res.Ok? ==> {res.value.handle, res.value.consumer} <= provider.live
      ensures res.Ok? ==> res.value.IsFor(sessionAcknowledgeMode, slot, ConsumerKey(d.Target(), selector, noLocal))
    {
      GotConsumer(slot, ConsumerKey(d.Target(), selector, noLocal));
      Connected(slot);
      assert WorkingInvariant(slot);
      if ConsumerKey(d.Target(), selector, noLocal) in Pool(sessionAcknowledgeMode).sessions[slot].consumerCache {
        var c := FindConsumer(slot, d, selector, noLocal);
        res := Ok(c);
      } else {
        OneCall(provider.outcome, provider.calls);
        res := MakeConsumer(slot, d, selector, noLocal);
      }
    }

    /** The pooled session has one. */
    method FindConsumer(slot: nat, d: DestinationPointer, selector: string, noLocal: bool)
      returns (c: CachedConsumer)
      requires Working(slot) && d.Valid(provider.live)
      requires Pool(sessionAcknowledgeMode) != null && slot < |Pool(sessionAcknowledgeMode).sessions|
      requires ConsumerKey(d.Target(), selector, noLocal) in Pool(sessionAcknowledgeMode).sessions[slot].consumerCache
      modifies Parts
      ensures Working(slot) && Parts == old(Parts) && {c.handle, c.consumer} <= provider.live
      ensures unchanged(provider`calls, provider`traffic, provider`gone)
      ensures c.IsFor(sessionAcknowledgeMode, slot, ConsumerKey(d.Target(), selector, noLocal))
    {
      assert WorkingInvariant(slot);
      PoolIsGrounded(sessionAcknowledgeMode);
      var res := Pool(sessionAcknowledgeMode).CreateCachedConsumer(slot, Some(d), selector, noLocal);
      c := res.value;
      PoolStayed(sessionAcknowledgeMode);
      StillWorking(slot);
    }

    /** The pooled session has to make one. */
    method MakeConsumer(slot: nat, d: DestinationPointer, selector: string, noLocal: bool)
      returns (res: Result<CachedConsumer>)
      requires Working(slot) && d.Valid(provider.live)
      requires Pool(sessionAcknowledgeMode) != null && slot < |Pool(sessionAcknowledgeMode).sessions|
      requires ConsumerKey(d.Target(), selector, noLocal) !in Pool(sessionAcknowledgeMode).sessions[slot].consumerCache
      modifies `book, Parts
      ensures Working(slot) && Parts == old(Parts)
      ensures unchanged(provider`traffic, provider`gone) && provider.calls == old(provider.calls) + 1
      ensures res.Ok? <==> provider.outcome(old(provider.calls)).Fine?
      ensures res.Ok? ==> {res.value.handle, res.value.consumer} <= provider.live
      ensures res.Ok? ==>
                View() == old(View()).With(ConsumerFor(sessionAcknowledgeMode,
                                                       ConsumerKey(d.Target(), selector, noLocal)))
      ensures res.Ok? ==> res.value.IsFor(sessionAcknowledgeMode, slot, ConsumerKey(d.Target(), selector, noLocal))
    {
      assert WorkingInvariant(slot);
      ghost var a := sessionAcknowledgeMode;
      PoolIsGrounded(a);
      res := Pool(sessionAcknowledgeMode).CreateCachedConsumer(slot, Some(d), selector, noLocal);
      if res.Ok? {
        PoolGrew(a);
        Enter(a, res.value.handle, res.value.consumer);
      } else {
        PoolStayed(a);
      }
      StillWorking(slot);
    }

    /** Takes a producer and sets it up. */
    method PrepareProducer(slot: nat, d: DestinationPointer) returns (res: Result<CachedProducer>)
      requires Working(slot) && d.Valid(provider.live)
      modifies `book, Parts
      ensures Working(slot) && Parts == old(Parts) && provider.traffic == old(provider.traffic)
      ensures var c := old(View());
              var role := ProducerFor(c.ackMode, UniqueDestName(d.Target()));
              Went(res.Ok?, true, c.Missing(role) + 2, c.With(role))
      ensures res.Ok? ==> {res.value.handle, res.value.producer} <= provider.live
      ensures res.Ok? ==> provider.FlagsOf(res.value.producer) == settings.FlagsInForce()
      ensures res.Ok? ==> res.value.IsFor(sessionAcknowledgeMode, slot, UniqueDestName(d.Target()))
    {
      res := TakeProducer(slot, d);
      if res.Ok? {
        Connected(slot);
        var o := SetUp(slot, res.value);
        res := if o.Fine? then res else Throws(o.exn);
      }
    }

    method SetUp(slot: nat, c: CachedProducer) returns (o: Outcome)
      requires Working(slot) && {c.handle, c.producer} <= provider.live
      modifies provider`calls, provider`flags, provider`log
      ensures Working(slot)
      ensures provider.calls == old(provider.calls) + Spent(provider.outcome, old(provider.calls), 2)
      ensures o.Fine? <==> Smooth(provider.outcome, old(provider.calls), old(provider.calls) + 2)
      ensures o.Fine? ==> provider.FlagsOf(c.producer) == settings.FlagsInForce()
    {
      assert WorkingInvariant(slot) && CoreInvariant();
      o := SetDefaults(provider, c, settings);
      assert CoreInvariant();
      assert WorkingInvariant(slot);
    }

    method CreateProducer(slot: nat, dest: Option<DestinationPointer>) returns (res: Result<CachedProducer>)
      requires Working(slot) && IsGood(dest)
      modifies `initialized, `connection, `defaultDestination, `book, Parts
      ensures res.Ok? ==> Working(slot) && {res.value.handle, res.value.producer} <= provider.live
      ensures res.Ok? ==> provider.FlagsOf(res.value.producer) == settings.FlagsInForce()
      ensures res.Ok? ==>
                res.value.IsFor(sessionAcknowledgeMode, slot, UniqueDestName(old(View()).Meaning(AsTarget(dest))))
      ensures res.Throws? ==> Reset() && res.exn == CmsException
      ensures var c, target := old(View()), AsTarget(dest);
              Went(res.Ok?, c.WellFormed(target), c.ProducerCost(target), c.WithProducer(target))
      ensures Parts == old(Parts) && provider.traffic == old(provider.traffic)
    {
      Connected(slot);
      ghost var c, from, target := View(), provider.calls, AsTarget(dest);
      ghost var well, first := c.WellFormed(target), c.NameCost(target);
      ghost var more := c.ProducerCost(target) - first;
      c.ResolvingMakesNone(target, c.ProducerRole(target));
      var d := OrDefault(slot, dest);
      if d.Throws? {
        StepNotReached(provider.outcome, true, from, ToClosed(), well, first, well, more);
        RunHandler();
        return Throws(CmsException);
      }
      ghost var mid := provider.calls;
      res := PrepareProducer(slot, d.value);
      StepThenStep(provider.outcome, true, from, mid, CallsAfter(res.Ok?), res.Ok?, well, first, true, more);
      if res.Throws? {
        assert WorkingInvariant(slot);
        Destroy();
        return Throws(CmsException);
      }
    }

    /** A handler that finds everything destroyed already. */
    method RunHandler()
      requires Reset()
      modifies `initialized, `connection, `defaultDestination, `book, Parts
      ensures Reset() && Parts == old(Parts)
      ensures ToClosed() == old(ToClosed()) && provider.traffic == old(provider.traffic)
      ensures provider.log == old(provider.log) && provider.made == old(provider.made)
    {
      assert ResetInvariant() && IdleInvariant();
      Destroy();
    }

    method CreateConsumer(slot: nat, dest: Option<DestinationPointer>, selector: string, noLocal: bool)
      returns (res: Result<CachedConsumer>)
      requires Working(slot) && IsGood(dest)
      modifies `initialized, `connection, `defaultDestination, `book, Parts
      ensures res.Ok? ==> Working(slot) && {res.value.handle, res.value.consumer} <= provider.live
      ensures res.Ok? ==>
                res.value.IsFor(sessionAcknowledgeMode, slot,
                                ConsumerKey(old(View()).Meaning(AsTarget(dest)), selector, noLocal))
      ensures res.Throws? ==> Reset() && res.exn == CmsException
      ensures var c, target := old(View()), AsTarget(dest);
              Went(res.Ok?, c.WellFormed(target), c.ConsumerCost(target, selector, noLocal),
                   c.WithConsumer(target, selector, noLocal))
      ensures Parts == old(Parts) && provider.traffic == old(provider.traffic)
    {
      Connected(slot);
      ghost var c, from, target := View(), provider.calls, AsTarget(dest);
      ghost var well, first := c.WellFormed(target), c.NameCost(target);
      ghost var more := c.ConsumerCost(target, selector, noLocal) - first;
      c.ResolvingMakesNone(target, c.ConsumerRole(target, selector, noLocal));
      var d := OrDefault(slot, dest);
      if d.Throws? {
        StepNotReached(provider.outcome, true, from, ToClosed(), well, first, well, more);
        RunHandler();
        return Throws(CmsException);
      }
      ghost var mid := provider.calls;
      res := TakeConsumer(slot, d.value, selector, noLocal);
      StepThenStep(provider.outcome, true, from, mid, CallsAfter(res.Ok?), res.Ok?, well, first, true, more);
      if res.Throws? {
        assert WorkingInvariant(slot);
        Destroy();
        return Throws(CmsException);
      }
    }

    // Actions.

    /** Runs a caller's code on the session. */
    method CallBack(slot: nat) returns (o: Outcome)
      requires Working(slot)
      modifies provider`calls, provider`log
      ensures Working(slot)
      ensures provider.calls == old(provider.calls) + 1 && o == provider.outcome(old(provider.calls))
    {
      assert WorkingInvariant(slot) && CoreInvariant();
      var pool := sessionPools[sessionAcknowledgeMode];
      PoolIsGrounded(sessionAcknowledgeMode);
      pool.SessionIsLive(slot);
      provider.Touch(pool.sessions[slot].handle);
      o := provider.CallOutside();
      assert CoreInvariant();
      assert WorkingInvariant(slot);
    }

    /** SendExecutor::doInCms. */
    method DoSend(slot: nat, c: CachedProducer) returns (o: Outcome)
      requires Working(slot) && {c.handle, c.producer} <= provider.live
      requires provider.FlagsOf(c.producer) == settings.FlagsInForce()
      modifies provider`calls, provider`traffic, provider`log, provider`messages, provider`made
      ensures Working(slot)
      ensures provider.calls == old(provider.calls) + Spent(provider.outcome, old(provider.calls), 2)
      ensures o.Fine? <==> Smooth(provider.outcome, old(provider.calls), old(provider.calls) + 2)
      ensures old(provider.traffic) <= provider.traffic
      ensures var sent := provider.traffic[|old(provider.traffic)|..];
              if o.Fine? then
                && |sent| == 1 && sent[0].Sent? && sent[0].producer == c.producer
                && sent[0].qos == settings.QosInForce() && sent[0].flags == settings.FlagsInForce()
              else if provider.outcome(old(provider.calls)).Fine? then
                Aborts(provider.outcome(old(provider.calls) + 1), sent)
              else sent == []
    {
      SpentOfTwo(provider.outcome, provider.calls);
      o := CallBack(slot);
      if o.Fine? {
        o := SendOne(slot, c);
      }
    }

    method SendOne(slot: nat, c: CachedProducer) returns (o: Outcome)
      requires Working(slot) && {c.handle, c.producer} <= provider.live
      modifies provider`calls, provider`traffic, provider`log, provider`messages, provider`made
      ensures Working(slot)
      ensures provider.calls == old(provider.calls) + 1 && o == provider.outcome(old(provider.calls))
      ensures old(provider.traffic) <= provider.traffic
      ensures var sent := provider.traffic[|old(provider.traffic)|..];
              && |sent| == 1
              && if o.Fine? then
                   && sent[0].Sent? && sent[0].producer == c.producer && sent[0].qos == settings.QosInForce()
                   && sent[0].flags == old(provider.FlagsOf(c.producer))
                 else sent[0].SendFailed? && sent[0].exn == o.exn
    {
      assert WorkingInvariant(slot) && CoreInvariant();
      o := SendNew(provider, c, settings.QosInForce());
      assert CoreInvariant();
      assert WorkingInvariant(slot);
    }

    method DoReceive(slot: nat, c: CachedConsumer) returns (o: Outcome)
      requires Working(slot) && {c.handle, c.consumer} <= provider.live
      modifies `initialized, `connection, `defaultDestination, `book, Parts
      ensures o.Fine? ==> Working(slot) && provider.live == old(provider.live)
      ensures o.Fine? ==> provider.traffic == old(provider.traffic) + [Received(c.consumer, settings.WaitInForce())]
      ensures o.Fails? ==> Reset() && o.exn == CmsException && provider.traffic == old(provider.traffic)
      ensures Went(o.Fine?, true, 1, old(View())) && Parts == old(Parts)
    {
      assert WorkingInvariant(slot);
      o := ReceiveOne(slot, c);
      if o.Fails? {
        assert WorkingInvariant(slot);
        Destroy();
        return Fails(CmsException);
      }
    }

    method ReceiveAndClose(slot: nat, c: CachedConsumer) returns (o: Outcome)
      requires Working(slot) && {c.handle, c.consumer} <= provider.live
      modifies `initialized, `connection, `defaultDestination, `book, Parts
      ensures o.Fine? ==> Working(slot)
      ensures o.Fine? ==> provider.traffic == old(provider.traffic) + [Received(c.consumer, settings.WaitInForce())]
      ensures o.Fails? ==> Reset() && o.exn == CmsException && provider.traffic == old(provider.traffic)
      ensures Went(o.Fine?, true, 1, old(View())) && Parts == old(Parts)
    {
      o := DoReceive(slot, c);
      if o.Fine? {
        CloseWrapper(slot, c.handle);
      }
    }

    method ReceiveOne(slot: nat, c: CachedConsumer) returns (o: Outcome)
      requires Working(slot) && {c.handle, c.consumer} <= provider.live
      modifies provider`calls, provider`traffic, provider`log
      ensures Working(slot)
      ensures provider.calls == old(provider.calls) + 1 && o == provider.outcome(old(provider.calls))
      ensures provider.traffic == if o.Fine? then old(provider.traffic) + [Received(c.consumer, settings.WaitInForce())]
                                  else old(provider.traffic)
    {
      assert WorkingInvariant(slot) && CoreInvariant();
      provider.Touch(c.handle);
      o := provider.Receive(c.consumer, settings.WaitInForce());
      assert Tidy(provider) by {
        if o.Fine? {
          StrandedNext(old(provider.traffic), Received(c.consumer, settings.WaitInForce()));
        }
      }
      assert CoreInvariant();
      assert WorkingInvariant(slot);
    }

    /** What went over the wire since the state before. */
    twostate function Delivered(): seq<Traffic>
      reads provider
      requires old(provider.traffic) <= provider.traffic
    {
      provider.traffic[|old(provider.traffic)|..]
    }

    /** A step went as this action does. */
    twostate predicate Carried(action: SessionAction, o: Outcome, allowed: bool, cost: nat, next: Config)
      reads this, provider
    {
      && old(provider.traffic) <= provider.traffic
      && CarriedOut(provider.outcome, old(View()), action, old(provider.calls), CallsAfter(o.Fine?), o, allowed, cost,
                    Delivered())
      && (o.Fine? ==> View() == next && provider.gone == old(provider.gone))
    }

    /** The part of ProducerExecutor::doInCms before the action. */
    method ObtainProducer(slot: nat, target: Target) returns (res: Result<CachedProducer>)
      requires Working(slot)
      modifies `initialized, `connection, `defaultDestination, `book, Parts
      ensures res.Ok? ==> Working(slot) && {res.value.handle, res.value.producer} <= provider.live
      ensures res.Ok? ==> provider.FlagsOf(res.value.producer) == settings.FlagsInForce()
      ensures res.Ok? ==>
                res.value.IsFor(sessionAcknowledgeMode, slot, UniqueDestName(old(View()).Meaning(target)))
      ensures res.Throws? ==> Reset() && res.exn == CmsException
      ensures var c := old(View());
              Went(res.Ok?, c.WellFormed(target), c.ProducerCost(target), c.WithProducer(target))
      ensures Parts == old(Parts) && provider.traffic == old(provider.traffic)
    {
      Connected(slot);
      ghost var c, from := View(), provider.calls;
      ghost var first, more := c.LocateCost(target), c.AfterLocating(target).ProducerCost(c.Located(target));
      c.ProducerInTwo(target);
      var d := GetDestination(slot, target);
      ghost var mid := CallsAfter(d.Ok?);
      if d.Throws? {
        StepNotReached(provider.outcome, true, from, mid, c.WellFormed(target), first, c.WellFormed(target),
                       c.ProducerCost(target) - first);
        return Throws(d.exn);
      }
      res := CreateProducer(slot, d.value);
      StepThenStep(provider.outcome, true, from, mid, CallsAfter(res.Ok?), res.Ok?,
                   target == Default || c.WellFormed(target), first,
                   c.AfterLocating(target).WellFormed(c.Located(target)), more);
    }

    /** ProducerCallback::doInCms. */
    method Act(slot: nat, c: CachedProducer, target: Target, action: ProducerAction) returns (o: Outcome)
      requires Working(slot) && {c.handle, c.producer} <= provider.live
      requires provider.FlagsOf(c.producer) == settings.FlagsInForce()
      requires c.producer.what.ProducerObject? && c.producer.what.pool == sessionAcknowledgeMode
      requires SameDestination(c.producer.what.target, View().Meaning(target))
      modifies provider`calls, provider`traffic, provider`log, provider`messages, provider`made
      ensures Working(slot)
      ensures Carried(Produce(target, action), o, true, ActCost(action), old(View()))
    {
      Connected(slot);
      match action
      case SendMessage => o := DoSend(slot, c);
      case CallerProducerAction => o := CallBack(slot);
    }

    method ActAndClose(slot: nat, c: CachedProducer, target: Target, action: ProducerAction) returns (o: Outcome)
      requires Working(slot) && {c.handle, c.producer} <= provider.live
      requires provider.FlagsOf(c.producer) == settings.FlagsInForce()
      requires c.producer.what.ProducerObject? && c.producer.what.pool == sessionAcknowledgeMode
      requires SameDestination(c.producer.what.target, View().Meaning(target))
      modifies provider`calls, provider`traffic, provider`log, provider`messages, provider`made
      ensures Working(slot)
      ensures Carried(Produce(target, action), o, true, ActCost(action), old(View()))
    {
      o := Act(slot, c, target, action);
      if o.Fine? {
        CloseWrapper(slot, c.handle);
      }
    }

    /** ProducerExecutor::doInCms. */
    method ProduceInCms(slot: nat, target: Target, action: ProducerAction) returns (o: Outcome)
      requires Working(slot)
      modifies `initialized, `connection, `defaultDestination, `book, Parts
      ensures if o.Fine? then Working(slot) else Reset() && o.exn == CmsException
      ensures var c, a := old(View()), Produce(target, action);
              Carried(a, o, c.CanWork(a), c.WorkCost(a), c.Worked(a))
      ensures Parts == old(Parts)
    {
      Connected(slot);
      ghost var c, from, a := View(), provider.calls, Produce(target, action);
      var p := ObtainProducer(slot, target);
      if p.Throws? {
        ProducerNotObtained(provider.outcome, c, target, action, from, ToClosed(), CmsException);
        RunHandler();
        return Fails(CmsException);
      }
      o := ActOn(slot, p.value, target, action, c, from);
    }

    /** The rest of ProducerExecutor::doInCms. */
    method ActOn(slot: nat, p: CachedProducer, target: Target, action: ProducerAction, ghost c: Config, ghost from: nat)
      returns (o: Outcome)
      requires Working(slot) && {p.handle, p.producer} <= provider.live
      requires provider.FlagsOf(p.producer) == settings.FlagsInForce()
      requires p.IsFor(sessionAcknowledgeMode, slot, UniqueDestName(c.Meaning(target)))
      requires c.WellFormed(target) && Smooth(provider.outcome, from, from + c.ProducerCost(target))
      requires Connecting in c.got
      requires View() == c.WithProducer(target) && provider.calls == from + c.ProducerCost(target)
      modifies `initialized, `connection, `defaultDestination, `book, Parts
      ensures if o.Fine? then Working(slot) else Reset() && o.exn == CmsException
      ensures old(provider.traffic) <= provider.traffic && Parts == old(Parts)
      ensures var a := Produce(target, action);
              CarriedOut(provider.outcome, c, a, from, CallsAfter(o.Fine?), o, c.CanWork(a), c.WorkCost(a), Delivered())
      ensures o.Fine? ==> View() == old(View()) && provider.gone == old(provider.gone)
    {
      ProducerKeyInjective(p.producer.what.target, c.Meaning(target));
      assert WorkingInvariant(slot);
      o := ActAndClose(slot, p, target, action);
      CarriedOutWithProducer(provider.outcome, c, target, action, from, CallsAfter(o.Fine?), o, Delivered());
      if o.Fails? {
        assert WorkingInvariant(slot);
        ghost var a := Produce(target, action);
        o := Handle(c, a, from, o, c.CanWork(a), c.WorkCost(a), Delivered());
      }
    }

    /** destroyProducer and destroyConsumer: a cached wrapper is closed, which does nothing, and kept. */
    method CloseWrapper(slot: nat, wrapper: Resource)
      requires Working(slot) && wrapper in provider.live
      modifies provider`log
      ensures Working(slot) && provider.log == old(provider.log) + [Used(wrapper)]
    {
      assert WorkingInvariant(slot) && CoreInvariant();
      provider.Touch(wrapper);
      assert CoreInvariant();
      assert WorkingInvariant(slot);
    }

    /** The handler of a failed action. */
    method Handle(ghost c: Config, ghost action: SessionAction, ghost from: nat, ghost failed: Outcome,
                  ghost allowed: bool, ghost cost: nat, ghost sent: seq<Traffic>)
      returns (o: Outcome)
      requires Core() && failed.Fails?
      requires CarriedOut(provider.outcome, c, action, from, ToClosed(), failed, allowed, cost, sent)
      modifies `initialized, `connection, `defaultDestination, `book, Parts
      ensures Reset() && o == Fails(CmsException) && Parts == old(Parts) && provider.traffic == old(provider.traffic)
      ensures CarriedOut(provider.outcome, c, action, from, ToClosed(), o, allowed, cost, sent)
    {
      Destroy();
      o := Fails(CmsException);
      Handled(provider.outcome, c, action, from, ToClosed(), failed, o, allowed, cost, sent);
    }

    /** ReceiveExecutor::doInCms. Its handler deletes no message: it never has one when something fails. */
    method ConsumeInCms(slot: nat, target: Target, selector: string, noLocal: bool) returns (o: Outcome)
      requires Working(slot)
      modifies `initialized, `connection, `defaultDestination, `book, Parts
      ensures if o.Fine? then Working(slot) else Reset() && o.exn == CmsException
      ensures var c, a := old(View()), Consume(target, selector, noLocal);
              Carried(a, o, c.CanWork(a), c.WorkCost(a), c.Worked(a))
      ensures Parts == old(Parts)
    {
      Connected(slot);
      ghost var c, from, a := View(), provider.calls, Consume(target, selector, noLocal);
      var consumer := ObtainConsumer(slot, target, selector, noLocal);
      if consumer.Throws? {
        ConsumerNotObtained(provider.outcome, c, target, selector, noLocal, from, ToClosed(), CmsException);
        return Fails(CmsException);
      }
      o := ReceiveOn(slot, consumer.value, target, selector, noLocal, c, from);
    }

    /** The rest of ReceiveExecutor::doInCms. */
    method ReceiveOn(slot: nat, consumer: CachedConsumer, ghost target: Target, ghost selector: string,
                     ghost noLocal: bool, ghost c: Config, ghost from: nat)
      returns (o: Outcome)
      requires Working(slot) && {consumer.handle, consumer.consumer} <= provider.live
      requires consumer.IsFor(sessionAcknowledgeMode, slot, ConsumerKey(c.Meaning(target), selector, noLocal))
      requires c.WellFormed(target) && Smooth(provider.outcome, from, from + c.ConsumerCost(target, selector, noLocal))
      requires Connecting in c.got
      requires View() == c.WithConsumer(target, selector, noLocal)
      requires provider.calls == from + c.ConsumerCost(target, selector, noLocal)
      modifies `initialized, `connection, `defaultDestination, `book, Parts
      ensures if o.Fine? then Working(slot) else Reset() && o.exn == CmsException
      ensures old(provider.traffic) <= provider.traffic && Parts == old(Parts)
      ensures var a := Consume(target, selector, noLocal);
              CarriedOut(provider.outcome, c, a, from, CallsAfter(o.Fine?), o, c.CanWork(a), c.WorkCost(a), Delivered())
      ensures o.Fine? ==> View() == old(View()) && provider.gone == old(provider.gone)
    {
      Connected(slot);
      ghost var before := provider.calls;
      o := ReceiveAndClose(slot, consumer);
      ghost var c' := c.WithConsumer(target, selector, noLocal);
      assert CarriedOut(provider.outcome, c', Consume(target, selector, noLocal), before, CallsAfter(o.Fine?), o, true,
                        1, Delivered());
      CarriedOutWithConsumer(provider.outcome, c, target, selector, noLocal, from, CallsAfter(o.Fine?), o, Delivered());
    }

    method ObtainConsumer(slot: nat, target: Target, selector: string, noLocal: bool)
      returns (res: Result<CachedConsumer>)
      requires Working(slot)
      modifies `initialized, `connection, `defaultDestination, `book, Parts
      ensures res.Ok? ==> Working(slot) && {res.value.handle, res.value.consumer} <= provider.live
      ensures res.Ok? ==>
                res.value.IsFor(sessionAcknowledgeMode, slot,
                                ConsumerKey(old(View()).Meaning(target), selector, noLocal))
      ensures res.Throws? ==> Reset() && res.exn == CmsException
      ensures var c := old(View());
              Went(res.Ok?, c.WellFormed(target), c.ConsumerCost(target, selector, noLocal),
                   c.WithConsumer(target, selector, noLocal))
      ensures Parts == old(Parts) && provider.traffic == old(provider.traffic)
    {
      Connected(slot);
      ghost var c, from := View(), provider.calls;
      ghost var first := c.LocateCost(target);
      ghost var more := c.AfterLocating(target).ConsumerCost(c.Located(target), selector, noLocal);
      c.ConsumerInTwo(target, selector, noLocal);
      var d := GetDestination(slot, target);
      ghost var mid := CallsAfter(d.Ok?);
      if d.Throws? {
        StepNotReached(provider.outcome, true, from, mid, c.WellFormed(target), first, c.WellFormed(target),
                       c.ConsumerCost(target, selector, noLocal) - first);
        return Throws(d.exn);
      }
      res := CreateConsumer(slot, d.value, selector, noLocal);
      StepThenStep(provider.outcome, true, from, mid, CallsAfter(res.Ok?), res.Ok?,
                   target == Default || c.WellFormed(target), first,
                   c.AfterLocating(target).WellFormed(c.Located(target)), more);
    }

    method DoInCms(slot: nat, action: SessionAction) returns (o: Outcome)
      requires Working(slot)
      modifies `initialized, `connection, `defaultDestination, `book, Parts
      ensures if o.Fine? then Working(slot) else Core()
      ensures var c := old(View()); Carried(action, o, c.CanWork(action), c.WorkCost(action), c.Worked(action))
      ensures Parts == old(Parts)
    {
      match action
      case Produce(target, producerAction) =>
        o := ProduceInCms(slot, target, producerAction);
        ResetIsCore(o.Fails?);
      case Consume(target, selector, noLocal) =>
        o := ConsumeInCms(slot, target, selector, noLocal);
        ResetIsCore(o.Fails?);
      case CallerSessionAction =>
        Connected(slot);
        assert WorkingInvariant(slot);
        o := CallBack(slot);
        assert WorkingInvariant(slot);
    }

    lemma ResetIsCore(failed: bool)
      requires failed ==> Reset()
      ensures failed ==> Core()
    {
      if failed {
        ResetIsForgotten();
      }
    }

    // The operations.

    /** The overload for a SessionCallback, which may be null. */
    method ExecuteSession(action: Option<SessionAction>) returns (o: Outcome)
      requires Idle() && sessionAcknowledgeMode < NUM_SESSION_POOLS
      modifies `initialized, `connection, `defaultDestination, `book, `Parts, Parts
      ensures action == None ==> o.Fine? && unchanged(this) && unchanged(Parts)
      ensures action.Some? ==>
                && (if o.Fine? then Ready() else Reset() && o.exn == CmsException)
                && var c, a := old(View()), action.value; Carried(a, o, c.Accepts(a), c.Cost(a), c.Performed(a))
      ensures fresh(Parts - old(Parts))
    {
      if action == None {
        return Fine;
      }
      Init();
      o := InSession(action.value);
      if o.Fails? {
        ghost var c := old(View());
        ghost var a := action.value;
        o := Handle(c, a, old(provider.calls), o, c.Accepts(a), c.Cost(a), Delivered());
      }
    }

    /** Takes a session, runs the action, and returns the session unless the action failed. */
    method InSession(action: SessionAction) returns (o: Outcome)
      requires Idle() && initialized && sessionAcknowledgeMode < NUM_SESSION_POOLS
      modifies `initialized, `connection, `defaultDestination, `book, `Parts, Parts
      ensures if o.Fine? then Ready() else Core()
      ensures var c := old(View()); Carried(action, o, c.Accepts(action), c.Cost(action), c.Performed(action))
      ensures fresh(Parts - old(Parts))
    {
      HadConnection();
      ghost var c, from := View(), provider.calls;
      var s := TakeSession();
      if s.Throws? {
        ResetIsCore(true);
        SessionNotOpened(provider.outcome, c, action, from, ToClosed(), s.exn);
        return Fails(s.exn);
      }
      o := WorkAndReturn(s.value, action, c, from);
    }

    /** The rest of execute, in the session that was taken. */
    method WorkAndReturn(slot: nat, action: SessionAction, ghost c: Config, ghost from: nat) returns (o: Outcome)
      requires Working(slot) && View() == c.Opened()
      requires StepEnding(provider.outcome, Connecting in c.got, from, provider.calls, true, c.CanConnect(),
                          c.OpenCost())
      modifies `initialized, `connection, `defaultDestination, `book, Parts
      ensures if o.Fine? then Ready() else Core()
      ensures old(provider.traffic) <= provider.traffic && Parts == old(Parts)
      ensures CarriedOut(provider.outcome, c, action, from, CallsAfter(o.Fine?), o, c.Accepts(action), c.Cost(action),
                         Delivered())
      ensures o.Fine? ==> View() == c.Performed(action) && provider.gone == old(provider.gone)
    {
      o := DoInCms(slot, action);
      if o.Fine? {
        ReturnSession(slot);
      }
      CarriedOutInSession(provider.outcome, c, action, from, CallsAfter(o.Fine?), o, Delivered());
    }

    /** The three overloads for a ProducerCallback. */
    method ExecuteProducer(target: Target, action: ProducerAction) returns (o: Outcome)
      requires Ready() && sessionAcknowledgeMode < NUM_SESSION_POOLS
      modifies `initialized, `connection, `defaultDestination, `book, `Parts, Parts
      ensures if o.Fine? then Ready() else Reset() && o.exn == CmsException
      ensures var c, a := old(View()), Produce(target, action); Carried(a, o, c.Accepts(a), c.Cost(a), c.Performed(a))
      ensures fresh(Parts - old(Parts))
    {
      Init();
      o := ExecuteSession(Some(Produce(target, action)));
      if o.Fails? {
        RunHandler();
      }
    }

    /** The three overloads of send. */
    method Send(target: Target) returns (o: Outcome)
      requires Ready() && sessionAcknowledgeMode < NUM_SESSION_POOLS
      modifies `initialized, `connection, `defaultDestination, `book, `Parts, Parts
      ensures if o.Fine? then Ready() else Reset() && o.exn == CmsException
      ensures var c, a := old(View()), Produce(target, SendMessage);
              Carried(a, o, c.Accepts(a), c.Cost(a), c.Performed(a))
      ensures fresh(Parts - old(Parts))
    {
      o := ExecuteProducer(target, SendMessage);
      if o.Fails? {
        RunHandler();
      }
    }

    /** The six overloads of receive and receiveSelected; those without a selector pass an empty one. */
    method Receive(target: Target, selector: string) returns (o: Outcome)
      requires Ready() && sessionAcknowledgeMode < NUM_SESSION_POOLS
      modifies `initialized, `connection, `defaultDestination, `book, `Parts, Parts
      ensures if o.Fine? then Ready() else Reset() && o.exn == CmsException
      ensures var c, a := old(View()), Consume(target, selector, settings.noLocal);
              Carried(a, o, c.Accepts(a), c.Cost(a), c.Performed(a))
      ensures fresh(Parts - old(Parts))
    {
      o := ExecuteSession(Some(Consume(target, selector, settings.noLocal)));
      if o.Fails? {
        RunHandler();
      }
    }

    // What holds at every boundary.

    /** Set up, connected, equipped with pools: all or none. */
    lemma AllOrNothing()
      requires Ready()
      ensures initialized <==> connection.Some?
      ensures initialized <==> AllPools()
      ensures !initialized <==> NoPools()
      ensures manager.connections == if initialized then [connection.value] else []
      ensures !initialized ==> NothingMade()
    {
      assert IdleInvariant() && CoreInvariant();
      if !initialized {
        assert EmptyInvariant();
      }
      assert NoPools() ==> Pool(0) == null;
    }

    /** A default destination that is not the caller's own is live, and is what the current configuration names. */
    lemma MemoIsCurrent()
      requires Ready()
      ensures defaultDestination.Some? ==> Aimed(defaultDestination.value, View().Meaning(Default))
      ensures defaultDestination.Some? && defaultDestination.value.Managed? ==>
                View().Meaning(Default) == Named(pubSubDomain, defaultDestinationName)
    {
      assert IdleInvariant();
      ResolverIsGrounded();
    }

    /** Every session that the resolver remembers is a live pooled session. */
    lemma ResolverKeysAreLive(k: SessionPointer)
      requires Ready() && k in resolver.sessionResolverMap
      ensures Pool(k.pool) != null && k.slot < |Pool(k.pool).sessions|
      ensures Pool(k.pool).sessions[k.slot].handle in provider.live
      ensures Pool(k.pool).sessions[k.slot].session in provider.live
    {
      assert IdleInvariant() && CoreInvariant();
      var p := Pool(k.pool);
      PoolIsGrounded(k.pool);
      p.SessionIsLive(k.slot);
    }

    /** A pool finds what it owns and uses in its only session. */
    lemma InOnlySession(a: nat, r: Resource)
      requires Ready() && a < NUM_SESSION_POOLS && |book.owned| == |book.used| == NUM_SESSION_POOLS
      requires r in book.owned[a] || r in book.used[a]
      ensures var p := Pool(a);
              && p != null
              && ((r in book.owned[a] && r == p.handle)
                  || (|p.sessions| == 1 && p.sessions[0].Valid(a, 0)
                      && if r in book.owned[a] then p.sessions[0].Owns(r) else p.sessions[0].Uses(r)))
    {
      assert IdleInvariant() && CoreInvariant();
      var p := Pool(a);
      assert PoolInvariant(p, manager, book.owned[a], book.used[a], book.connection);
      assert p.Invariant();
      assert Owning(r, p.handle, p.sessions) || Using(r, p.sessions);
      assert p.State() == EMPTY || p.State() == PoolState([0], 1);
      if |p.sessions| == 1 {
        SessionIsValid(a, 0);
      }
    }

    /** The objects that a template owns through a pool are unique in their role. */
    lemma OneInPool(a: nat, r: Resource, s: Resource)
      requires Ready() && a < NUM_SESSION_POOLS && RoleOf(r.what) == RoleOf(s.what)
      requires |book.owned| == |book.used| == NUM_SESSION_POOLS
      requires (r in book.owned[a] && s in book.owned[a]) || (r in book.used[a] && s in book.used[a])
      ensures r == s
    {
      InOnlySession(a, r);
      InOnlySession(a, s);
      var p := Pool(a);
      PoolHandle(a);
      if |p.sessions| == 1 {
        RoleTells(p.sessions[0], a, p.handle, r);
        RoleTells(p.sessions[0], a, p.handle, s);
      }
    }

    lemma PoolHandle(a: nat)
      requires Ready() && a < NUM_SESSION_POOLS && Pool(a) != null
      ensures Pool(a).handle.what == PoolObject(a)
      ensures |Pool(a).sessions| == 1 ==> Pool(a).sessions[0].Valid(a, 0)
    {
      assert IdleInvariant() && CoreInvariant();
      if |Pool(a).sessions| == 1 {
        SessionIsValid(a, 0);
      }
      assert PoolInvariant(Pool(a), manager, book.owned[a], book.used[a], book.connection);
      assert Pool(a).Invariant();
    }

    /** The resolver finds what it owns and remembers under its only session of the pool. */
    lemma UnderOnlySession(r: Resource)
      requires Ready() && (r in book.resolvers || r in book.dests)
      ensures r.what.SessionResolverObject? || r.what.DestinationObject?
      ensures r.what.slot == 0
      ensures if r in book.resolvers then IsResolver(r, resolver.sessionResolverMap)
              else IsRemembered(r, resolver.sessionResolverMap)
    {
      assert IdleInvariant() && CoreInvariant() && resolver.Invariant();
      var m := resolver.sessionResolverMap;
      assert IsResolver(r, m) || IsRemembered(r, m);
      var k := SessionPointer(r.what.pool, r.what.slot);
      assert k in m;
      var p := Pool(k.pool);
      assert p.State() == EMPTY || p.State() == PoolState([0], 1);
    }

    lemma OneInResolver(r: Resource, s: Resource)
      requires Ready() && RoleOf(r.what) == RoleOf(s.what)
      requires (r in book.resolvers && s in book.resolvers) || (r in book.dests && s in book.dests)
      ensures r == s
    {
      UnderOnlySession(r);
      UnderOnlySession(s);
    }

    /**
     However many operations have run, there is at most one connection, one pool and one session for
     an acknowledge mode, and with each session one producer, consumer or destination of a kind.
     */
    lemma AtMostOne(r: Resource, s: Resource)
      requires Ready() && r in provider.live && s in provider.live && RoleOf(r.what) == RoleOf(s.what)
      ensures r == s
    {
      assert IdleInvariant() && CoreInvariant() && book.Invariant();
      assert book.Home(r) && book.Home(s);
      assert r in book.managed ==> book.Known(r);
      assert s in book.managed ==> book.Known(s);
      if r.what.SessionResolverObject? || r.what.DestinationObject? {
        OneInResolver(r, s);
      } else if !r.what.ConnectionObject? {
        OneInPool(PoolOf(r.what), r, s);
      }
    }
  }
}
