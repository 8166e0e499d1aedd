/**
 Who owns the objects of a template: the lifecycle manager, the resolver, or
 one of the session pools. Ownership is split, and nothing is shared.
 */
module Ownership {
  import opened Wrappers
  import opened Provider
  import opened Pools
  import opened Configuration

  const NUM_SESSION_POOLS := 4

  datatype Holdings = Holdings(
    live: set<Resource>,                 // what the provider knows to be live
    managed: set<Resource>,              // what the manager owns
    resolvers: set<Resource>,            // what the resolver owns
    dests: set<Resource>,                // the managed destinations that the resolver remembers
    owned: seq<set<Resource>>,           // what each pool owns
    used: seq<set<Resource>>,            // the managed objects that each pool uses
    connection: Option<Resource>,        // the managed connection that the template uses
    got: set<Role>)                      // the roles of the CMS objects
  {
    /** The only owner that r may have has it. */
    ghost predicate Home(r: Resource)
      requires |owned| == NUM_SESSION_POOLS
    {
      match r.what
      case MessageObject => false
      case ConnectionObject => r in managed
      case SessionObject(_, _) => r in managed
      case ProducerObject(_, _, _) => r in managed
      case ConsumerObject(_, _, _, _, _) => r in managed
      case DestinationObject(_, _, _) => r in managed
      case SessionResolverObject(_, _) => r in resolvers
      case _ => 0 <= PoolOf(r.what) < NUM_SESSION_POOLS && r in owned[PoolOf(r.what)]
    }

    /** The template, the resolver or a pool knows the managed object r. */
    ghost predicate Known(r: Resource)
      requires |used| == NUM_SESSION_POOLS
    {
      match r.what
      case ConnectionObject => connection == Some(r)
      case DestinationObject(_, _, _) => r in dests
      case SessionObject(pool, _) => pool < NUM_SESSION_POOLS && r in used[pool]
      case ProducerObject(pool, _, _) => pool < NUM_SESSION_POOLS && r in used[pool]
      case ConsumerObject(pool, _, _, _, _) => pool < NUM_SESSION_POOLS && r in used[pool]
      case _ => false
    }

    /** Each live object has one owner, each owner owns only live objects, and no managed object is forgotten. */
    ghost predicate Invariant() {
      && |owned| == |used| == NUM_SESSION_POOLS
      && managed <= live && resolvers <= live && dests <= managed
      && (forall a | 0 <= a < NUM_SESSION_POOLS :: owned[a] <= live && used[a] <= managed)
      && (connection.Some? ==> connection.value in managed && connection.value.what.ConnectionObject?)
      && (forall r {:trigger Home(r)} | r in live :: Home(r))
      && (forall r {:trigger Known(r)} | r in managed :: Known(r))
      && (forall a, r | 0 <= a < NUM_SESSION_POOLS && r in owned[a] :: InPool(r, a))
      && (forall r | r in resolvers :: r.what.SessionResolverObject?)
      && got == Got(live)
    }

    /** The invariant, for one value: a caller that only passes it on does not open it. */
    ghost predicate Balanced() {
      && |owned| == |used| == NUM_SESSION_POOLS
      && forall h: Holdings {:trigger h.Invariant()} | h == this :: h.Invariant()
    }

    predicate InPool(r: Resource, a: int) {
      && (r.what.PoolObject? || r.what.PooledSessionObject? || r.what.CachedProducerObject?
          || r.what.CachedConsumerObject?)
      && PoolOf(r.what) == a
    }
  }

  const NOTHING := Holdings({}, {}, {}, {}, [{}, {}, {}, {}], [{}, {}, {}, {}], None, {})

  lemma NothingIsBalanced()
    ensures NOTHING.Balanced()
  {
    assert NOTHING.Invariant();
  }

  /** Every live object is with the manager, the resolver or a pool. */
  lemma Homes(h: Holdings)
    requires h.Balanced()
    ensures forall r | r in h.live ::
              || r in h.managed || r in h.resolvers
              || (0 <= PoolOf(r.what) < NUM_SESSION_POOLS && r in h.owned[PoolOf(r.what)])
    ensures forall r | r in h.managed ::
              && r !in h.resolvers
              && !(0 <= PoolOf(r.what) < NUM_SESSION_POOLS && r in h.owned[PoolOf(r.what)])
    ensures forall r | r in h.resolvers ::
              !(0 <= PoolOf(r.what) < NUM_SESSION_POOLS && r in h.owned[PoolOf(r.what)])
  {
    assert h.Invariant();
    forall r | r in h.managed
      ensures r !in h.resolvers && !(0 <= PoolOf(r.what) < NUM_SESSION_POOLS && r in h.owned[PoolOf(r.what)])
    {
      assert h.Known(r);
    }
    forall r | r in h.live
      ensures r in h.managed || r in h.resolvers
              || (0 <= PoolOf(r.what) < NUM_SESSION_POOLS && r in h.owned[PoolOf(r.what)])
    {
      assert h.Home(r);
    }
  }

  /** A new connection. */
  lemma AddConnection(h: Holdings, c: Resource)
    requires h.Balanced() && h.connection == None && c.what.ConnectionObject?
    ensures h.(live := h.live + {c}, managed := h.managed + {c}, connection := Some(c),
               got := h.got + {Connecting}).Balanced()
  {
    assert h.Invariant();
    GotMore(h.live, {c});
    var h' := h.(live := h.live + {c}, managed := h.managed + {c}, connection := Some(c), got := h.got + {Connecting});
    forall r | r in h'.live ensures h'.Home(r) { if r != c { assert h.Home(r); } }
    forall r | r in h'.managed ensures h'.Known(r) { if r != c { assert h.Known(r); } }
    assert h'.Invariant();
  }

  /** A new pool. */
  lemma AddPool(h: Holdings, a: nat, p: Resource)
    requires h.Balanced() && a < NUM_SESSION_POOLS && p.what == PoolObject(a) && h.owned[a] == {}
    ensures h.(live := h.live + {p}, owned := h.owned[a := {p}]).Balanced()
  {
    assert h.Invariant();
    GotMore(h.live, {p});
    var h' := h.(live := h.live + {p}, owned := h.owned[a := {p}]);
    forall r | r in h'.live ensures h'.Home(r) { if r != p { assert h.Home(r); } }
    forall r | r in h'.managed ensures h'.Known(r) { assert h.Known(r); }
    assert h'.Invariant();
  }

  /** A pool makes an object of its own and a managed one. */
  lemma AddPair(h: Holdings, a: nat, w: Resource, m: Resource)
    requires h.Balanced() && a < NUM_SESSION_POOLS && h.InPool(w, a)
    requires m.what.SessionObject? || m.what.ProducerObject? || m.what.ConsumerObject?
    requires PoolOf(m.what) == a
    ensures h.(live := h.live + {w, m}, managed := h.managed + {m},
               owned := h.owned[a := h.owned[a] + {w}], used := h.used[a := h.used[a] + {m}],
               got := h.got + {RoleOf(m.what)}).Balanced()
  {
    assert h.Invariant();
    GotPair(h.live, w, m);
    var h' := h.(live := h.live + {w, m}, managed := h.managed + {m},
                 owned := h.owned[a := h.owned[a] + {w}], used := h.used[a := h.used[a] + {m}],
                 got := h.got + {RoleOf(m.what)});
    forall r | r in h'.live ensures h'.Home(r) { if r != w && r != m { assert h.Home(r); } }
    forall r | r in h'.managed ensures h'.Known(r) { if r != m { assert h.Known(r); } }
    assert h'.Invariant();
  }

  /** The resolver makes session resolvers, and perhaps a managed destination. */
  lemma AddResolved(h: Holdings, h': Holdings, d: Option<Resource>)
    requires h.Balanced() && h.resolvers <= h'.resolvers
    requires h'.dests == h.dests + if d.Some? then {d.value} else {}
    requires forall r | r in h'.resolvers :: r.what.SessionResolverObject?
    requires forall r | r in h'.dests :: r.what.DestinationObject?
    requires h' == h.(live := h.live + h'.resolvers + h'.dests, managed := h.managed + h'.dests,
                      resolvers := h'.resolvers, dests := h'.dests,
                      got := h.got + if d.Some? then {RoleOf(d.value.what)} else {})
    ensures h'.Balanced()
  {
    assert h.Invariant();
    GotResolved(h.live, h'.resolvers, h.dests, d);
    forall r | r in h'.live ensures h'.Home(r) {
      if r in h.live { assert h.Home(r); }
    }
    forall r | r in h'.managed ensures h'.Known(r) {
      if r in h.managed { assert h.Known(r); }
    }
    assert h'.Invariant();
  }

  lemma GotResolved(live: set<Resource>, resolvers: set<Resource>, dests: set<Resource>, d: Option<Resource>)
    requires dests <= live && forall r | r in resolvers :: r.what.SessionResolverObject?
    requires d.Some? ==> d.value.what.DestinationObject?
    ensures var more: set<Resource> := if d.Some? then {d.value} else {};
            Got(live + resolvers + (dests + more)) == Got(live) + if d.Some? then {RoleOf(d.value.what)} else {}
  {
    var more: set<Resource> := if d.Some? then {d.value} else {};
    assert live + resolvers + (dests + more) == live + resolvers + more;
    GotMore(live, resolvers);
    GotMore(live + resolvers, more);
  }
}
