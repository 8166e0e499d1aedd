/** DynamicDestinationResolver.cpp. */
module Resolver {
  import opened Wrappers
  import opened Provider
  import opened Lifecycle

  /** A cms::Session pointer as the resolver sees it: a pooled session, by its place. */
  datatype SessionPointer = SessionPointer(pool: nat, slot: nat)

  datatype SessionResolver = SessionResolver(
    handle: Resource,
    topicMap: map<string, Resource>,
    queueMap: map<string, Resource>)
  {
    ghost predicate Valid(k: SessionPointer) {
      && handle.what == SessionResolverObject(k.pool, k.slot)
      && (forall n | n in topicMap :: topicMap[n].what == DestinationObject(k.pool, k.slot, Destination(TOPIC, n)))
      && (forall n | n in queueMap :: queueMap[n].what == DestinationObject(k.pool, k.slot, Destination(QUEUE, n)))
    }

    function Names(pubSubDomain: bool): map<string, Resource> {
      if pubSubDomain then topicMap else queueMap
    }

    function With(pubSubDomain: bool, name: string, r: Resource): SessionResolver {
      if pubSubDomain then this.(topicMap := topicMap[name := r]) else this.(queueMap := queueMap[name := r])
    }
  }

  type Resolvers = map<SessionPointer, SessionResolver>

  function Named(pubSubDomain: bool, name: string): Destination {
    Destination(if pubSubDomain then TOPIC else QUEUE, name)
  }

  /** The destination remembered for a session, a kind and a name. */
  function Lookup(m: Resolvers, k: SessionPointer, pubSubDomain: bool, name: string): Option<Resource> {
    if k in m && name in m[k].Names(pubSubDomain) then Some(m[k].Names(pubSubDomain)[name]) else None
  }

  ghost predicate ResolversValid(m: Resolvers) {
    forall k {:trigger ResolverAt(m, k)} | k in m :: ResolverAt(m, k)
  }

  ghost predicate ResolverAt(m: Resolvers, k: SessionPointer)
    requires k in m
  {
    m[k].Valid(k)
  }

  /** r is the session resolver object of some session. */
  ghost predicate IsResolver(r: Resource, m: Resolvers) {
    && r.what.SessionResolverObject?
    && var k := SessionPointer(r.what.pool, r.what.slot);
    && k in m && m[k].handle == r
  }

  /** r is a remembered destination. */
  ghost predicate IsRemembered(r: Resource, m: Resolvers) {
    && r.what.DestinationObject? && (r.what.target.kind == TOPIC || r.what.target.kind == QUEUE)
    && Lookup(m, SessionPointer(r.what.pool, r.what.slot), r.what.target.kind == TOPIC, r.what.target.name) == Some(r)
  }

  ghost predicate OwnedBy(owned: set<Resource>, m: Resolvers) {
    forall r {:trigger IsResolver(r, m)} :: r in owned <==> IsResolver(r, m)
  }

  ghost predicate RememberedBy(dests: set<Resource>, m: Resolvers) {
    forall r {:trigger IsRemembered(r, m)} :: r in dests <==> IsRemembered(r, m)
  }

  /** A destination is remembered for one session, kind and name only. */
  lemma NoAliases(m: Resolvers, k: SessionPointer, p: bool, n: string, k': SessionPointer, p': bool, n': string)
    requires ResolversValid(m) && Lookup(m, k, p, n).Some? && Lookup(m, k, p, n) == Lookup(m, k', p', n')
    ensures k == k' && p == p' && n == n'
  {
    assert ResolverAt(m, k) && ResolverAt(m, k');
  }

  lemma LookupIsRemembered(m: Resolvers, k: SessionPointer, p: bool, n: string)
    requires ResolversValid(m) && Lookup(m, k, p, n).Some?
    ensures var r := Lookup(m, k, p, n).value;
            r.what == DestinationObject(k.pool, k.slot, Named(p, n)) && IsRemembered(r, m)
  {
    assert ResolverAt(m, k);
  }

  lemma AddResolver(m: Resolvers, owned: set<Resource>, dests: set<Resource>, k: SessionPointer, h: Resource)
    requires ResolversValid(m) && OwnedBy(owned, m) && RememberedBy(dests, m)
    requires k !in m && h.what == SessionResolverObject(k.pool, k.slot)
    ensures var m' := m[k := SessionResolver(h, map[], map[])];
            && ResolversValid(m') && OwnedBy(owned + {h}, m') && RememberedBy(dests, m')
            && forall k', p, n :: Lookup(m', k', p, n) == Lookup(m, k', p, n)
  {
    var m' := m[k := SessionResolver(h, map[], map[])];
    forall k' | k' in m' ensures ResolverAt(m', k') {
      if k' != k { assert ResolverAt(m, k'); }
    }
    forall r ensures IsResolver(r, m') <==> r in owned + {h} {
      assert IsResolver(r, m) <==> r in owned;
    }
    forall r ensures IsRemembered(r, m') <==> r in dests {
      assert IsRemembered(r, m) <==> r in dests;
    }
  }

  lemma AddDestination(m: Resolvers, owned: set<Resource>, dests: set<Resource>, k: SessionPointer,
                       p: bool, n: string, d: Resource)
    requires ResolversValid(m) && OwnedBy(owned, m) && RememberedBy(dests, m)
    requires k in m && n !in m[k].Names(p) && d.what == DestinationObject(k.pool, k.slot, Named(p, n))
    ensures var m' := m[k := m[k].With(p, n, d)];
            && ResolversValid(m') && OwnedBy(owned, m') && RememberedBy(dests + {d}, m')
            && forall k', p', n' :: Lookup(m', k', p', n') ==
                 if k' == k && p' == p && n' == n then Some(d) else Lookup(m, k', p', n')
  {
    var m' := m[k := m[k].With(p, n, d)];
    assert ResolverAt(m, k);
    forall k' | k' in m' ensures ResolverAt(m', k') {
      assert ResolverAt(m, k');
    }
    forall r ensures IsResolver(r, m') <==> r in owned {
      assert IsResolver(r, m) <==> r in owned;
    }
    forall r ensures IsRemembered(r, m') <==> r in dests + {d} {
      assert IsRemembered(r, m) <==> r in dests;
    }
  }

  class DynamicDestinationResolver {
    const provider: CmsProvider
    var resourceLifecycleManager: ResourceLifecycleManager?
    var sessionResolverMap: Resolvers
    ghost var owned: set<Resource>
    ghost var dests: set<Resource>

    ghost predicate Invariant()
      reads `sessionResolverMap, `owned, `dests
    {
      && ResolversValid(sessionResolverMap)
      && OwnedBy(owned, sessionResolverMap) && RememberedBy(dests, sessionResolverMap)
    }

    /** The invariant, for one object: a caller that only passes it on does not open it. */
    ghost predicate Valid()
      reads `sessionResolverMap, `owned, `dests
    {
      forall d: DynamicDestinationResolver {:trigger d.Invariant()} | d == this :: d.Invariant()
    }

    constructor (provider: CmsProvider)
      ensures Valid() && this.provider == provider && resourceLifecycleManager == null
      ensures sessionResolverMap == map[] && owned == {} && dests == {}
    {
      this.provider, resourceLifecycleManager := provider, null;
      sessionResolverMap, owned, dests := map[], {}, {};
    }

    lemma Kinds()
      requires Valid()
      ensures forall r | r in owned :: r.what.SessionResolverObject?
      ensures forall r | r in dests :: r.what.DestinationObject?
    {
      assert Invariant();
      forall r | r in owned ensures r.what.SessionResolverObject? {
        assert IsResolver(r, sessionResolverMap);
      }
      forall r | r in dests ensures r.what.DestinationObject? {
        assert IsRemembered(r, sessionResolverMap);
      }
    }

    lemma ResolverIsOwned(session: SessionPointer)
      requires Valid() && session in sessionResolverMap
      ensures sessionResolverMap[session].handle in owned
    {
      assert Invariant();
      var m := sessionResolverMap;
      assert ResolverAt(m, session) && IsResolver(m[session].handle, m);
    }

    method Init(mgr: ResourceLifecycleManager)
      requires Valid() && provider.Valid() && owned <= provider.live
      modifies this, provider`log, provider`live, provider`gone
      ensures Valid() && provider.Valid() && sessionResolverMap == map[] && owned == {} && dests == {}
      ensures resourceLifecycleManager == mgr
      ensures provider.live == old(provider.live - owned)
      ensures old(sessionResolverMap) == map[] ==> unchanged(provider)
    {
      Destroy();
      resourceLifecycleManager := mgr;
    }

    method Destroy()
      requires Valid() && provider.Valid() && owned <= provider.live
      modifies `sessionResolverMap, `owned, `dests, provider`log, provider`live, provider`gone
      ensures Valid() && provider.Valid() && sessionResolverMap == map[] && owned == {} && dests == {}
      ensures provider.live == old(provider.live - owned)
      ensures old(sessionResolverMap) == map[] ==> unchanged(provider)
    {
      assert Invariant();
      var m := sessionResolverMap;
      var keys := m.Keys;
      assert forall r :: IsResolver(r, m) <==> r in owned;
      while keys != {}
        invariant keys <= m.Keys && provider.Valid()
        invariant forall r :: r in provider.live <==>
                    && r in old(provider.live)
                    && !(IsResolver(r, m) && SessionPointer(r.what.pool, r.what.slot) in m.Keys - keys)
        invariant m == map[] ==> unchanged(provider)
        decreases keys
      {
        var k :| k in keys;
        assert ResolverAt(m, k) && IsResolver(m[k].handle, m);
        provider.Free(m[k].handle);
        keys := keys - {k};
      }
      sessionResolverMap, owned, dests := map[], {}, {};
      assert Invariant();
    }

    /** The pointer is to the pooled session handle, which passes its calls on to cmsSession. */
    method ResolveDestinationName(session: SessionPointer, handle: Resource, cmsSession: Resource, destName: string,
                                  pubSubDomain: bool)
      returns (res: Result<Resource>)
      requires Valid() && provider.Valid() && {handle, cmsSession} <= provider.live && owned <= provider.live
      requires var manager := resourceLifecycleManager;
               && manager != null && manager.Valid() && manager.provider == provider
               && dests <= manager.managed <= provider.live
      modifies `sessionResolverMap, `owned, `dests
      modifies resourceLifecycleManager`destinations, resourceLifecycleManager`managed
      modifies provider`calls, provider`log, provider`live, provider`made
      ensures Valid() && provider.Valid() && resourceLifecycleManager.Valid()
      ensures Grown() && old(provider.log) <= provider.log
      ensures sessionResolverMap.Keys <= old(sessionResolverMap.Keys) + {session}
      ensures destName == "" ==> res == Throws(CmsException)
      // the answer is the remembered one, and no other answer changes
      ensures res.Ok? ==> Lookup(sessionResolverMap, session, pubSubDomain, destName) == Some(res.value)
      ensures forall k, p, n :: Lookup(sessionResolverMap, k, p, n) ==
                if res.Ok? && k == session && p == pubSubDomain && n == destName then Some(res.value)
                else old(Lookup(sessionResolverMap, k, p, n))
      ensures destName != "" && old(Lookup(sessionResolverMap, session, pubSubDomain, destName).Some?) ==>
                && res == Ok(old(Lookup(sessionResolverMap, session, pubSubDomain, destName).value))
                && unchanged(this) && unchanged(resourceLifecycleManager)
                && provider.live == old(provider.live) && provider.made == old(provider.made)
                && provider.log == old(provider.log) + [Used(sessionResolverMap[session].handle)]
      ensures res.Ok? ==> res.value.what == DestinationObject(session.pool, session.slot, Named(pubSubDomain, destName))
      ensures dests == if res.Ok? then old(dests) + {res.value} else old(dests)
      ensures var hit := destName == "" || old(Lookup(sessionResolverMap, session, pubSubDomain, destName).Some?);
              && provider.calls == old(provider.calls) + (if hit then 0 else 1)
              && (res.Ok? <==> destName != "" && (hit || provider.outcome(old(provider.calls)).Fine?))
    {
      if destName == "" {
        return Throws(CmsException);
      }
      if session !in sessionResolverMap {
        var h := provider.Make(SessionResolverObject(session.pool, session.slot));
        assert Invariant();
        AddResolver(sessionResolverMap, owned, dests, session, h);
        sessionResolverMap := sessionResolverMap[session := SessionResolver(h, map[], map[])];
        owned := owned + {h};
        assert Invariant();
      }
      res := GetDestination(session, handle, cmsSession, destName, pubSubDomain);
    }

    /** Whatever is remembered anew is live, and new destinations are managed. */
    twostate predicate Grown()
      reads this, provider, resourceLifecycleManager
    {
      && old(owned) <= owned && old(dests) <= dests
      && (owned - old(owned)) !! old(provider.live) && (dests - old(dests)) !! old(provider.live)
      && provider.live == old(provider.live) + owned + dests
      && old(resourceLifecycleManager) != null && resourceLifecycleManager == old(resourceLifecycleManager)
      && resourceLifecycleManager.managed == old(resourceLifecycleManager.managed) + dests
    }

    /** SessionResolver::getTopic and getQueue. */
    method GetDestination(session: SessionPointer, handle: Resource, cmsSession: Resource, name: string,
                          pubSubDomain: bool)
      returns (res: Result<Resource>)
      requires Valid() && provider.Valid() && {handle, cmsSession} <= provider.live && owned <= provider.live
      requires session in sessionResolverMap
      requires var manager := resourceLifecycleManager;
               && manager != null && manager.Valid() && manager.provider == provider
               && dests <= manager.managed <= provider.live
      modifies `sessionResolverMap, `dests
      modifies resourceLifecycleManager`destinations, resourceLifecycleManager`managed
      modifies provider`calls, provider`log, provider`live, provider`made
      ensures Valid() && provider.Valid() && resourceLifecycleManager.Valid()
      ensures Grown() && sessionResolverMap.Keys == old(sessionResolverMap.Keys)
      ensures forall k, p, n :: Lookup(sessionResolverMap, k, p, n) ==
                if res.Ok? && k == session && p == pubSubDomain && n == name then Some(res.value)
                else old(Lookup(sessionResolverMap, k, p, n))
      ensures old(Lookup(sessionResolverMap, session, pubSubDomain, name).Some?) ==>
                && res == Ok(old(Lookup(sessionResolverMap, session, pubSubDomain, name).value))
                && unchanged(this) && unchanged(resourceLifecycleManager)
                && provider.live == old(provider.live) && provider.made == old(provider.made)
                && provider.log == old(provider.log) + [Used(sessionResolverMap[session].handle)]
      // the session resolver is used, and the session that it keeps when there is something to create
      ensures var h := sessionResolverMap[session].handle;
              && h == old(sessionResolverMap[session].handle) && old(provider.log) + [Used(h)] <= provider.log
      ensures old(Lookup(sessionResolverMap, session, pubSubDomain, name) == None) ==>
                var h := sessionResolverMap[session].handle;
                old(provider.log) + [Used(h), Used(handle), Used(cmsSession)] <= provider.log
      ensures res.Ok? ==> res.value.what == DestinationObject(session.pool, session.slot, Named(pubSubDomain, name))
      ensures dests == if res.Ok? then old(dests) + {res.value} else old(dests)
      ensures var hit := old(Lookup(sessionResolverMap, session, pubSubDomain, name).Some?);
              && provider.calls == old(provider.calls) + (if hit then 0 else 1)
              && (res.Ok? <==> hit || provider.outcome(old(provider.calls)).Fine?)
    {
      var resolver := sessionResolverMap[session];
      ResolverIsOwned(session);
      provider.Touch(resolver.handle);
      if name in resolver.Names(pubSubDomain) {
        assert Invariant();
        LookupIsRemembered(sessionResolverMap, session, pubSubDomain, name);
        return Ok(resolver.Names(pubSubDomain)[name]);
      }
      provider.Touch(handle);
      var o := provider.Call(cmsSession);
      if o.Fails? {
        return Throws(o.exn);
      }
      var d := MakeDestination(session, name, pubSubDomain);
      return Ok(d);
    }

    /** A new destination is managed and remembered. */
    method MakeDestination(session: SessionPointer, name: string, pubSubDomain: bool) returns (d: Resource)
      requires Valid() && provider.Valid() && owned <= provider.live
      requires session in sessionResolverMap && name !in sessionResolverMap[session].Names(pubSubDomain)
      requires var manager := resourceLifecycleManager;
               && manager != null && manager.Valid() && manager.provider == provider
               && dests <= manager.managed <= provider.live
      modifies `sessionResolverMap, `dests
      modifies resourceLifecycleManager`destinations, resourceLifecycleManager`managed
      modifies provider`log, provider`live, provider`made
      ensures Valid() && provider.Valid() && resourceLifecycleManager.Valid() && Grown()
      ensures provider.log == old(provider.log) + [Made(d)]
      ensures d.what == DestinationObject(session.pool, session.slot, Named(pubSubDomain, name))
      ensures dests == old(dests) + {d}
      ensures sessionResolverMap == old(sessionResolverMap[session := sessionResolverMap[session]
                                        .With(pubSubDomain, name, d)])
      ensures forall k, p, n :: Lookup(sessionResolverMap, k, p, n) ==
                if k == session && p == pubSubDomain && n == name then Some(d)
                else old(Lookup(sessionResolverMap, k, p, n))
    {
      assert Invariant();
      d := provider.Make(DestinationObject(session.pool, session.slot, Named(pubSubDomain, name)));
      resourceLifecycleManager.AddDestination(d);
      AddDestination(sessionResolverMap, owned, dests, session, pubSubDomain, name, d);
      sessionResolverMap := sessionResolverMap[session := sessionResolverMap[session].With(pubSubDomain, name, d)];
      dests := dests + {d};
      assert Invariant();
    }
  }
}
