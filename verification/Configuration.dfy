/**
 What a template looks like to its users: its properties, and the CMS objects it
 already has. This says, without any pool, cache or pointer, what every operation
 means, how many calls of the CMS provider it takes, and what it leaves.
 */
module Configuration {
  import opened Wrappers
  import opened Provider
  import opened CacheKeys
  import opened Resolver

  const RECEIVE_TIMEOUT_NO_WAIT := -1
  const RECEIVE_TIMEOUT_INDEFINITE_WAIT := 0
  const AUTO_ACKNOWLEDGE := 0
  const DEFAULT_PRIORITY := 4

  datatype Settings = Settings(
    messageIdEnabled: bool,
    messageTimestampEnabled: bool,
    noLocal: bool,
    receiveTimeout: int,
    explicitQosEnabled: bool,
    qos: Qos)
  {
    /** What a send asks for beyond the defaults of its producer. */
    function QosInForce(): Option<Qos> {
      if explicitQosEnabled then Some(qos) else None
    }

    /** What producers leave out of their messages: whatever is not enabled. */
    function FlagsInForce(): Flags {
      Flags(!messageIdEnabled, !messageTimestampEnabled)
    }

    function WaitInForce(): Wait {
      if receiveTimeout == RECEIVE_TIMEOUT_NO_WAIT then NoWait
      else if receiveTimeout == RECEIVE_TIMEOUT_INDEFINITE_WAIT then Indefinite
      else Timed(ToInt32(receiveTimeout))
    }
  }

  const DEFAULTS := Settings(true, true, false, RECEIVE_TIMEOUT_INDEFINITE_WAIT, false, Qos(0, DEFAULT_PRIORITY, 0))

  /** The conversion of a long long to an int. */
  function ToInt32(x: int): int {
    var m := x % 0x1_0000_0000;
    if m < 0x8000_0000 then m else m - 0x1_0000_0000
  }

  /** Where an operation goes: the default (a null destination), a caller's destination, or a name. */
  datatype Target = Default | To(destination: Destination) | ToName(name: string)

  /** The two kinds of ProducerCallback: a SendExecutor or the caller's own. */
  datatype ProducerAction = SendMessage | CallerProducerAction

  /** The kinds of SessionCallback: a ProducerExecutor, a ReceiveExecutor or the caller's own. */
  datatype SessionAction =
    | Produce(target: Target, action: ProducerAction)
    | Consume(target: Target, selector: string, noLocal: bool)
    | CallerSessionAction
  {
    predicate IsSend() {
      Produce? && action == SendMessage
    }

    /** A caller's own action does not go anywhere in particular. */
    predicate HasTarget() {
      !CallerSessionAction?
    }
  }

  // What objects are for.

  /** What an object is needed for. A template that is not failing needs only one object for a role. */
  datatype Role =
    | Connecting
    | SessionFor(ackMode: nat)
    | Naming(ackMode: nat, target: Destination)
    | ProducerFor(ackMode: nat, key: string)
    | ConsumerFor(ackMode: nat, key: string)
    | Wrapping(role: Role)
    | PoolFor(ackMode: nat)
    | ResolverFor(ackMode: nat)
    | Carrying
  {
    /** It takes a call of the CMS provider to get one. */
    predicate IsCms() {
      Connecting? || SessionFor? || Naming? || ProducerFor? || ConsumerFor?
    }
  }

  function RoleOf(w: What): Role {
    match w
    case ConnectionObject => Connecting
    case SessionObject(a, _) => SessionFor(a)
    case ProducerObject(a, _, d) => ProducerFor(a, UniqueDestName(d))
    case ConsumerObject(a, _, d, selector, noLocal) => ConsumerFor(a, ConsumerKey(d, selector, noLocal))
    case DestinationObject(a, _, d) => Naming(a, d)
    case MessageObject => Carrying
    case PoolObject(a) => PoolFor(a)
    case PooledSessionObject(a, _) => Wrapping(SessionFor(a))
    case CachedProducerObject(a, _, key) => Wrapping(ProducerFor(a, key))
    case CachedConsumerObject(a, _, key) => Wrapping(ConsumerFor(a, key))
    case SessionResolverObject(a, _) => ResolverFor(a)
  }

  /** The roles of the CMS objects that are there. */
  ghost function Got(live: set<Resource>): set<Role> {
    set r | r in live && RoleOf(r.what).IsCms() :: RoleOf(r.what)
  }

  lemma GotMore(live: set<Resource>, more: set<Resource>)
    ensures Got(live + more) == Got(live) + Got(more)
  {
  }

  /** An object of cmsutil and a CMS object. */
  lemma GotPair(live: set<Resource>, wrapper: Resource, inner: Resource)
    requires !RoleOf(wrapper.what).IsCms() && RoleOf(inner.what).IsCms()
    ensures Got(live + {wrapper, inner}) == Got(live) + {RoleOf(inner.what)}
  {
    GotMore(live, {wrapper, inner});
    assert inner in {wrapper, inner};
  }

  // What operations mean.

  /** The traffic of an action that succeeds, given the destination that its target means. */
  ghost predicate Accomplishes(action: SessionAction, meaning: Destination, ackMode: nat, settings: Settings,
                               traffic: seq<Traffic>)
  {
    if action.IsSend() then
      && |traffic| == 1 && traffic[0].Sent?
      && traffic[0].qos == settings.QosInForce() && traffic[0].flags == settings.FlagsInForce()
      && var producer := traffic[0].producer.what;
         && producer.ProducerObject? && producer.pool == ackMode && SameDestination(producer.target, meaning)
    else if action.Consume? then
      && |traffic| == 1 && traffic[0].Received? && traffic[0].wait == settings.WaitInForce()
      && var consumer := traffic[0].consumer.what;
         && consumer.ConsumerObject? && consumer.pool == ackMode
         && ConsumerKey(consumer.target, consumer.selector, consumer.noLocal)
            == ConsumerKey(meaning, action.selector, action.noLocal)
    else traffic == []
  }

  /**
   A message is received from the destination that was meant, with the selector and flag that were
   asked for, if the texts cannot be confused in the key of the cache.
   */
  lemma ReceivedFromTheRightPlace(action: SessionAction, meaning: Destination, ackMode: nat, settings: Settings,
                                  traffic: seq<Traffic>)
    requires action.Consume? && Accomplishes(action, meaning, ackMode, settings, traffic)
    requires !HasSeparator(meaning.name) && !HasSeparator(action.selector)
    ensures var consumer := traffic[0].consumer.what;
            && SameDestination(meaning, consumer.target) && action.selector == consumer.selector
            && action.noLocal == consumer.noLocal
  {
    var consumer := traffic[0].consumer.what;
    KeyWithoutSeparator(Request(meaning, action.selector, action.noLocal),
                        Request(consumer.target, consumer.selector, consumer.noLocal));
  }

  /** The traffic of an action that got as far as a send that ended like this. */
  ghost predicate Aborts(end: Outcome, traffic: seq<Traffic>) {
    |traffic| == 1 && traffic[0].SendFailed? && Fails(traffic[0].exn) == end
  }

  /** To send a message it has to be created first. */
  function ActCost(action: ProducerAction): nat {
    if action == SendMessage then 2 else 1
  }

  datatype Config = Config(
    given: Option<Destination>,     // the default destination object that the caller gave
    memo: bool,                     // the default destination is the resolved name
    name: string,
    pubSubDomain: bool,
    factory: bool,
    ackMode: nat,
    settings: Settings,
    got: set<Role>)                 // the roles for which there is a CMS object
  {
    function Meaning(target: Target): Destination {
      match target
      case Default => if given.Some? then given.value else Named(pubSubDomain, name)
      case To(d) => d
      case ToName(n) => Named(pubSubDomain, n)
    }

    predicate WellFormed(target: Target) {
      match target
      case Default => given.Some? || name != ""
      case To(_) => true
      case ToName(n) => n != ""
    }

    function With(role: Role): Config {
      this.(got := got + {role})
    }

    /** The calls that it takes to fill a role. */
    function Missing(role: Role): nat {
      if role in got then 0 else 1
    }

    // Getting a session.

    predicate CanConnect() {
      Connecting in got || factory
    }

    // The cost of a step is the number of calls that it makes if none of them fails.

    /** A connection is created and started. */
    function ConnectCost(): nat {
      if CanConnect() then 2 * Missing(Connecting) else 0
    }

    function OpenCost(): nat {
      if CanConnect() then ConnectCost() + Missing(SessionFor(ackMode)) else 0
    }

    function Opened(): Config {
      With(Connecting).With(SessionFor(ackMode))
    }

    // Working in a session.

    /** The name that has to be resolved for a target. */
    function NameRole(target: Target): Option<Role> {
      match target
      case Default => if given.Some? || memo then None else Some(Naming(ackMode, Named(pubSubDomain, name)))
      case To(_) => None
      case ToName(n) => Some(Naming(ackMode, Named(pubSubDomain, n)))
    }

    function NameCost(target: Target): nat {
      if !WellFormed(target) || NameRole(target) == None then 0 else Missing(NameRole(target).value)
    }

    function Resolved(target: Target): Config {
      var c := if target == Default && given == None then this.(memo := true) else this;
      if NameRole(target) == None then c else c.With(NameRole(target).value)
    }

    lemma ResolvingMakesNone(target: Target, role: Role)
      requires !role.Naming?
      ensures Resolved(target).Missing(role) == Missing(role) && Resolved(target).ackMode == ackMode
      ensures Resolved(target).settings == settings
    {
    }

    function ProducerRole(target: Target): Role {
      ProducerFor(ackMode, UniqueDestName(Meaning(target)))
    }

    function ConsumerRole(target: Target, selector: string, noLocal: bool): Role {
      ConsumerFor(ackMode, ConsumerKey(Meaning(target), selector, noLocal))
    }

    predicate CanWork(action: SessionAction) {
      action.HasTarget() ==> WellFormed(action.target)
    }

    /** What is known of a target before a producer or a consumer is created: a null pointer stands for the default. */
    function Located(target: Target): Target {
      if target == Default then Default else To(Meaning(target))
    }

    function LocateCost(target: Target): nat {
      if target == Default then 0 else NameCost(target)
    }

    function AfterLocating(target: Target): Config {
      if target == Default then this else Resolved(target)
    }

    /** A name is resolved and a producer created as needed; then the producer is set up. */
    function ProducerCost(target: Target): nat {
      if WellFormed(target) then NameCost(target) + Missing(ProducerRole(target)) + 2 else 0
    }

    function WithProducer(target: Target): Config {
      Resolved(target).With(ProducerRole(target))
    }

    function ConsumerCost(target: Target, selector: string, noLocal: bool): nat {
      if WellFormed(target) then NameCost(target) + Missing(ConsumerRole(target, selector, noLocal)) else 0
    }

    function WithConsumer(target: Target, selector: string, noLocal: bool): Config {
      Resolved(target).With(ConsumerRole(target, selector, noLocal))
    }

    /** Locating the target is a part of getting a producer. */
    lemma ProducerInTwo(target: Target)
      ensures var c, t := AfterLocating(target), Located(target);
              && (target == Default || WellFormed(target) ==>
                    ProducerCost(target) == LocateCost(target) + c.ProducerCost(t))
              && c.WithProducer(t) == WithProducer(target)
              && (c.WellFormed(t) <==> target != Default || WellFormed(target))
    {
      if target.ToName? {
        ResolvingMakesNone(target, ProducerRole(target));
      }
    }

    /** It is a part of getting a consumer. */
    lemma ConsumerInTwo(target: Target, selector: string, noLocal: bool)
      ensures var c, t := AfterLocating(target), Located(target);
              && (target == Default || WellFormed(target) ==>
                    ConsumerCost(target, selector, noLocal) ==
                    LocateCost(target) + c.ConsumerCost(t, selector, noLocal))
              && c.WithConsumer(t, selector, noLocal) == WithConsumer(target, selector, noLocal)
              && (c.WellFormed(t) <==> target != Default || WellFormed(target))
    {
      if target.ToName? {
        ResolvingMakesNone(target, ConsumerRole(target, selector, noLocal));
      }
    }

    function WorkCost(action: SessionAction): (n: nat)
      ensures n > 0 <==> CanWork(action)
    {
      match action
      case Produce(target, a) => if WellFormed(target) then ProducerCost(target) + ActCost(a) else 0
      case Consume(target, selector, noLocal) =>
        if WellFormed(target) then ConsumerCost(target, selector, noLocal) + 1 else 0
      case CallerSessionAction => 1
    }

    function Worked(action: SessionAction): Config {
      match action
      case Produce(target, _) => WithProducer(target)
      case Consume(target, selector, noLocal) => WithConsumer(target, selector, noLocal)
      case CallerSessionAction => this
    }

    // Whole operations.

    predicate Accepts(action: SessionAction) {
      CanConnect() && CanWork(action)
    }

    function Cost(action: SessionAction): nat {
      if CanConnect() then OpenCost() + Opened().WorkCost(action) else 0
    }

    function Performed(action: SessionAction): Config {
      Opened().Worked(action)
    }

    function ActionMeaning(action: SessionAction): Destination {
      Meaning(if action.HasTarget() then action.target else Default)
    }

    /** After a failure: the object that the caller gave is forgotten, and everything else is as in a new template. */
    function Forgotten(): Config {
      this.(given := None, memo := false, got := {})
    }
  }

  function NewConfig(factory: bool): Config {
    Config(None, false, "", false, factory, AUTO_ACKNOWLEDGE, DEFAULTS, {})
  }

  // How an operation ends, by the calls that it makes.

  /** How many of the next n calls are made, if the first that fails is the last. */
  function Spent(script: nat -> Outcome, from: nat, n: nat): nat
    decreases n
  {
    if n == 0 then 0 else if script(from).Fails? then 1 else 1 + Spent(script, from + 1, n - 1)
  }

  lemma SpentOfTwo(script: nat -> Outcome, from: nat)
    ensures Spent(script, from, 2) == if script(from).Fails? then 1 else 2
    ensures Smooth(script, from, from + 2) <==> script(from).Fine? && script(from + 1).Fine?
  {
    assert Spent(script, from + 1, 1) == 1;
  }

  /** They are all made, or they end with the first failure. */
  lemma {:induction false} SpentUntilFailure(script: nat -> Outcome, from: nat, n: nat)
    ensures var k := Spent(script, from, n);
            if Smooth(script, from, from + n) then k == n
            else 0 < k <= n && Smooth(script, from, from + k - 1) && script(from + k - 1).Fails?
    decreases n
  {
    if n > 0 && script(from).Fine? {
      SpentUntilFailure(script, from + 1, n - 1);
    }
  }

  /** Some calls and then some more. */
  lemma {:induction false} SpentSplit(script: nat -> Outcome, from: nat, first: nat, rest: nat)
    ensures Spent(script, from, first + rest) ==
            if Smooth(script, from, from + first) then first + Spent(script, from + first, rest)
            else Spent(script, from, first)
    decreases first
  {
    if first > 0 && script(from).Fine? {
      SpentSplit(script, from + 1, first - 1, rest);
      assert Smooth(script, from, from + first) <==> Smooth(script, from + 1, from + first);
    }
  }

  /**
   The number of the call after a failed step that would have made n calls from the number from on. A connection that
   there was, or that the first of two calls made, has been closed with one more.
   */
  function EndOf(script: nat -> Outcome, connected: bool, from: nat, n: nat): nat {
    var k := Spent(script, from, n);
    from + k + if connected || k > 1 then 1 else 0
  }

  /** A step that makes so many calls if none of them fails came to its end, or to that of its first failure. */
  ghost predicate StepEnding(script: nat -> Outcome, connected: bool, from: nat, to: nat, ok: bool, allowed: bool,
                             cost: nat)
  {
    && (ok <==> allowed && Smooth(script, from, from + cost))
    && to == if ok then from + cost else EndOf(script, connected, from, cost)
  }

  /** A step of one call in a session. */
  lemma OneCall(script: nat -> Outcome, from: nat)
    ensures script(from).Fine? ==> StepEnding(script, true, from, from + 1, true, true, 1)
    ensures script(from).Fails? ==> StepEnding(script, true, from, from + 2, false, true, 1)
  {
    assert Spent(script, from, 1) == 1;
  }

  /** A step after a step. */
  lemma StepThenStep(script: nat -> Outcome, connected: bool, from: nat, mid: nat, to: nat, ok: bool, first: bool,
                     cost: nat, allowed: bool, more: nat)
    requires StepEnding(script, connected, from, mid, true, first, cost) && (connected || cost > 1)
    requires StepEnding(script, true, mid, to, ok, allowed, more)
    ensures StepEnding(script, connected, from, to, ok, allowed, cost + more)
  {
    SpentSplit(script, from, cost, more);
  }

  /** A step that is not reached. */
  lemma StepNotReached(script: nat -> Outcome, connected: bool, from: nat, to: nat, first: bool, cost: nat,
                       allowed: bool, more: nat)
    requires StepEnding(script, connected, from, to, false, first, cost)
    requires (allowed ==> first) && (!first ==> more == 0)
    ensures StepEnding(script, connected, from, to, false, allowed, cost + more)
  {
    SpentSplit(script, from, cost, more);
  }

  /**
   From the call numbered from on, an action that makes so many calls if none of them fails did what it means,
   or it failed and left no traffic but that of a failed send. A send is the last of its calls.
   */
  ghost predicate Ending(script: nat -> Outcome, c: Config, action: SessionAction, from: nat, to: nat, o: Outcome,
                         allowed: bool, cost: nat, delivery: seq<Traffic>)
  {
    && StepEnding(script, Connecting in c.got, from, to, o.Fine?, allowed, cost) && (allowed ==> cost > 0)
    && if o.Fine? then
         Accomplishes(action, c.ActionMeaning(action), c.ackMode, c.settings, delivery)
       else if action.IsSend() && allowed && Smooth(script, from, from + cost - 1) then
         Aborts(script(from + cost - 1), delivery)
       else delivery == []
  }

  /** The same, for one delivery: a caller that only passes it on does not open it. */
  ghost predicate CarriedOut(script: nat -> Outcome, c: Config, action: SessionAction, from: nat, to: nat, o: Outcome,
                             allowed: bool, cost: nat, delivery: seq<Traffic>)
  {
    forall d {:trigger Ending(script, c, action, from, to, o, allowed, cost, d)} | d == delivery ::
      Ending(script, c, action, from, to, o, allowed, cost, d)
  }

  /** An action that is carried out after a step without a failure. */
  lemma CarriedOutAfter(script: nat -> Outcome, c: Config, c': Config, action: SessionAction, from: nat, mid: nat,
                        to: nat, o: Outcome, allowed: bool, cost: nat, delivery: seq<Traffic>)
    requires from <= mid && Smooth(script, from, mid)
    requires CarriedOut(script, c', action, mid, to, o, allowed, cost, delivery)
    requires c'.ActionMeaning(action) == c.ActionMeaning(action) && c'.ackMode == c.ackMode && c'.settings == c.settings
    requires Connecting in c'.got && (Connecting in c.got || mid - from > 1)
    ensures CarriedOut(script, c, action, from, to, o, allowed, mid - from + cost, delivery)
  {
    assert Ending(script, c', action, mid, to, o, allowed, cost, delivery);
    SpentSplit(script, from, mid - from, cost);
    assert Ending(script, c, action, from, to, o, allowed, mid - from + cost, delivery);
  }

  /** An action that is not reached, since a step before it failed or was refused. */
  lemma NotReached(script: nat -> Outcome, c: Config, action: SessionAction, from: nat, to: nat, exn: Exn,
                   first: bool, before: nat, allowed: bool, cost: nat)
    requires StepEnding(script, Connecting in c.got, from, to, false, first, before)
    requires (allowed ==> first && cost > 0) && (!first ==> cost == 0)
    ensures CarriedOut(script, c, action, from, to, Fails(exn), allowed, before + cost, [])
  {
    StepNotReached(script, Connecting in c.got, from, to, first, before, allowed, cost);
    assert Ending(script, c, action, from, to, Fails(exn), allowed, before + cost, []);
  }

  /** An action for which no session was opened. */
  lemma SessionNotOpened(script: nat -> Outcome, c: Config, action: SessionAction, from: nat, to: nat, exn: Exn)
    requires StepEnding(script, Connecting in c.got, from, to, false, c.CanConnect(), c.OpenCost())
    ensures CarriedOut(script, c, action, from, to, Fails(exn), c.Accepts(action), c.Cost(action), [])
  {
    NotReached(script, c, action, from, to, exn, c.CanConnect(), c.OpenCost(), c.Accepts(action),
               if c.CanConnect() then c.Opened().WorkCost(action) else 0);
  }

  /** An action for which no producer was obtained. */
  lemma ProducerNotObtained(script: nat -> Outcome, c: Config, target: Target, action: ProducerAction, from: nat,
                            to: nat, exn: Exn)
    requires Connecting in c.got
    requires StepEnding(script, true, from, to, false, c.WellFormed(target), c.ProducerCost(target))
    ensures var a := Produce(target, action);
            CarriedOut(script, c, a, from, to, Fails(exn), c.CanWork(a), c.WorkCost(a), [])
  {
    NotReached(script, c, Produce(target, action), from, to, exn, c.WellFormed(target), c.ProducerCost(target),
               c.WellFormed(target), if c.WellFormed(target) then ActCost(action) else 0);
  }

  /** An action for which no consumer was obtained. */
  lemma ConsumerNotObtained(script: nat -> Outcome, c: Config, target: Target, selector: string, noLocal: bool,
                            from: nat, to: nat, exn: Exn)
    requires Connecting in c.got
    requires StepEnding(script, true, from, to, false, c.WellFormed(target), c.ConsumerCost(target, selector, noLocal))
    ensures var a := Consume(target, selector, noLocal);
            CarriedOut(script, c, a, from, to, Fails(exn), c.CanWork(a), c.WorkCost(a), [])
  {
    NotReached(script, c, Consume(target, selector, noLocal), from, to, exn, c.WellFormed(target),
               c.ConsumerCost(target, selector, noLocal), c.WellFormed(target), if c.WellFormed(target) then 1 else 0);
  }

  /** The handlers of a failed action change only the exception. */
  lemma Handled(script: nat -> Outcome, c: Config, action: SessionAction, from: nat, to: nat, o: Outcome, o': Outcome,
                allowed: bool, cost: nat, delivery: seq<Traffic>)
    requires CarriedOut(script, c, action, from, to, o, allowed, cost, delivery) && o.Fails? && o'.Fails?
    ensures CarriedOut(script, c, action, from, to, o', allowed, cost, delivery)
  {
    assert Ending(script, c, action, from, to, o, allowed, cost, delivery);
  }

  /** An action in a session that was there or was opened for it. */
  lemma CarriedOutInSession(script: nat -> Outcome, c: Config, action: SessionAction, from: nat, to: nat, o: Outcome,
                            delivery: seq<Traffic>)
    requires c.CanConnect() && Smooth(script, from, from + c.OpenCost())
    requires var c' := c.Opened();
             CarriedOut(script, c', action, from + c.OpenCost(), to, o, c'.CanWork(action), c'.WorkCost(action),
                        delivery)
    ensures CarriedOut(script, c, action, from, to, o, c.Accepts(action), c.Cost(action), delivery)
  {
    CarriedOutAfter(script, c, c.Opened(), action, from, from + c.OpenCost(), to, o, c.Opened().CanWork(action),
                    c.Opened().WorkCost(action), delivery);
  }

  /** An action with a producer that was there or was created for it. */
  lemma CarriedOutWithProducer(script: nat -> Outcome, c: Config, target: Target, action: ProducerAction, from: nat,
                               to: nat, o: Outcome, delivery: seq<Traffic>)
    requires c.WellFormed(target) && Smooth(script, from, from + c.ProducerCost(target)) && Connecting in c.got
    requires CarriedOut(script, c.WithProducer(target), Produce(target, action), from + c.ProducerCost(target), to, o,
                        true, ActCost(action), delivery)
    ensures var a := Produce(target, action);
            CarriedOut(script, c, a, from, to, o, c.CanWork(a), c.WorkCost(a), delivery)
  {
    CarriedOutAfter(script, c, c.WithProducer(target), Produce(target, action), from, from + c.ProducerCost(target),
                    to, o, true, ActCost(action), delivery);
  }

  /** An action with a consumer that was there or was created for it. */
  lemma CarriedOutWithConsumer(script: nat -> Outcome, c: Config, target: Target, selector: string, noLocal: bool,
                               from: nat, to: nat, o: Outcome, delivery: seq<Traffic>)
    requires c.WellFormed(target) && Smooth(script, from, from + c.ConsumerCost(target, selector, noLocal))
    requires Connecting in c.got
    requires CarriedOut(script, c.WithConsumer(target, selector, noLocal), Consume(target, selector, noLocal),
                        from + c.ConsumerCost(target, selector, noLocal), to, o, true, 1, delivery)
    ensures var a := Consume(target, selector, noLocal);
            CarriedOut(script, c, a, from, to, o, c.CanWork(a), c.WorkCost(a), delivery)
  {
    CarriedOutAfter(script, c, c.WithConsumer(target, selector, noLocal), Consume(target, selector, noLocal), from,
                    from + c.ConsumerCost(target, selector, noLocal), to, o, true, 1, delivery);
  }
}
