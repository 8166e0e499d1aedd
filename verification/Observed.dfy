/**
 What a caller sees of a run, in plain numbers, texts and flags: no law here speaks of what the model itself takes
 these to be.
 */
module Observed {
  import opened Wrappers
  import opened Provider
  import opened Text
  import opened CacheKeys
  import opened Configuration
  import opened Client
  import opened Runs

  // What goes over the wire.

  /** A successful send passes on the quality of service only if it is enabled, and marks what is not enabled. */
  lemma SendsAsTold(script: nat -> Outcome, c: Config, d: Done)
    requires Lawful(script, c, d) && d.outcome.Fine?
    requires d.op.Send? || (d.op.ExecuteProducer? && d.op.action == SendMessage)
    ensures |d.delivery| == 1 && d.delivery[0].Sent?
    ensures var sent := d.delivery[0];
            && (sent.qos.Some? <==> c.settings.explicitQosEnabled)
            && (sent.qos.Some? ==> sent.qos.value == c.settings.qos)
            && (sent.flags.noMessageId <==> !c.settings.messageIdEnabled)
            && (sent.flags.noTimestamp <==> !c.settings.messageTimestampEnabled)
  {
    OpenLawful(script, c, d);
  }

  /** A successful receive polls for -1, waits for ever for 0, and else waits for the timeout cut to an int. */
  lemma WaitsAsTold(script: nat -> Outcome, c: Config, d: Done)
    requires Lawful(script, c, d) && d.outcome.Fine? && d.op.Receive?
    ensures |d.delivery| == 1 && d.delivery[0].Received?
    ensures var wait, timeout := d.delivery[0].wait, c.settings.receiveTimeout;
            && (wait.NoWait? <==> timeout == -1)
            && (wait.Indefinite? <==> timeout == 0)
            && (wait.Timed? ==>
                  && -0x8000_0000 <= wait.milliseconds < 0x8000_0000
                  && (wait.milliseconds - timeout) % 0x1_0000_0000 == 0)
  {
    OpenLawful(script, c, d);
    CutToInt(c.settings.receiveTimeout);
  }

  lemma CutToInt(x: int)
    ensures -0x8000_0000 <= ToInt32(x) < 0x8000_0000 && (ToInt32(x) - x) % 0x1_0000_0000 == 0
  {
    assert x == x / 0x1_0000_0000 * 0x1_0000_0000 + x % 0x1_0000_0000;
  }

  /** d is the topic or the queue of that name, temporary or not. */
  predicate IsNamed(d: Destination, topic: bool, name: string) {
    && d.name == name
    && (d.kind == TOPIC || d.kind == TEMPORARY_TOPIC <==> topic)
    && (d.kind == QUEUE || d.kind == TEMPORARY_QUEUE <==> !topic)
  }

  /**
   d is where an operation with that target has to go: to the caller's destination, or to the topic or queue of the
   name; without a target, to the default destination, or else to the default name.
   */
  predicate IsMeant(c: Config, target: Target, d: Destination) {
    match target
    case To(e) => IsNamed(d, e.kind == TOPIC || e.kind == TEMPORARY_TOPIC, e.name)
    case ToName(n) => n != "" && IsNamed(d, c.pubSubDomain, n)
    case Default =>
      match c.given
      case Some(e) => IsNamed(d, e.kind == TOPIC || e.kind == TEMPORARY_TOPIC, e.name)
      case None => c.name != "" && IsNamed(d, c.pubSubDomain, c.name)
  }

  /** The target names something. */
  predicate IsComplete(c: Config, target: Target) {
    match target
    case To(_) => true
    case ToName(n) => n != ""
    case Default => c.given.Some? || c.name != ""
  }

  lemma MeaningIsMeant(c: Config, target: Target, d: Destination)
    requires c.WellFormed(target) && SameDestination(d, c.Meaning(target))
    ensures IsMeant(c, target, d)
  {
  }

  /** A message goes where it was meant to go, through a session of the current acknowledge mode. */
  lemma SendsWhereMeant(script: nat -> Outcome, c: Config, d: Done)
    requires Lawful(script, c, d) && d.outcome.Fine? && d.op.Send?
    ensures |d.delivery| == 1 && d.delivery[0].Sent?
    ensures var producer := d.delivery[0].producer.what;
            producer.ProducerObject? && producer.pool == c.ackMode && IsMeant(c, d.op.target, producer.target)
  {
    OpenLawful(script, c, d);
    MeaningIsMeant(c, d.op.target, d.delivery[0].producer.what.target);
  }

  /**
   A message comes from where it was meant to come from, with the selector that was asked for and the flag that is set,
   as long as none of the texts looks like a piece of a key.
   */
  lemma ReceivesWhereMeant(script: nat -> Outcome, c: Config, d: Done)
    requires Lawful(script, c, d) && d.outcome.Fine? && d.op.Receive?
    requires forall i :: !At(d.op.selector, i, "]s=") && !At(c.Meaning(d.op.target).name, i, "]s=")
    ensures |d.delivery| == 1 && d.delivery[0].Received?
    ensures var consumer := d.delivery[0].consumer.what;
            && consumer.ConsumerObject? && consumer.pool == c.ackMode
            && IsMeant(c, d.op.target, consumer.target)
            && consumer.selector == d.op.selector && consumer.noLocal == c.settings.noLocal
  {
    OpenLawful(script, c, d);
    var action := Consume(d.op.target, d.op.selector, c.settings.noLocal);
    ReceivedFromTheRightPlace(action, c.ActionMeaning(action), c.ackMode, c.settings, d.delivery);
    MeaningIsMeant(c, d.op.target, d.delivery[0].consumer.what.target);
  }

  /** When no call fails and there is a factory, a send or receive succeeds exactly if its target is complete. */
  lemma SucceedsWhenComplete(script: nat -> Outcome, c: Config, d: Done)
    requires Lawful(script, c, d) && c.factory && (d.op.Send? || d.op.Receive? || d.op.ExecuteProducer?)
    requires forall k | k >= d.from :: script(k).Fine?
    ensures d.outcome.Fine? <==> IsComplete(c, d.op.target)
  {
    OpenLawful(script, c, d);
  }

  // How much is done.

  /** There is nothing yet, as in a new template and after a failure. */
  predicate HasNothing(c: Config) {
    c.got == {} && c.factory && !c.memo
  }

  /** What is left out of a target is resolved with one call. */
  predicate NeedsName(c: Config, target: Target) {
    target.ToName? || (target.Default? && c.given.None?)
  }

  /**
   From nothing, a send makes a connection (two calls), a session and a producer (one each), sets the producer up (two)
   and creates and sends a message (two); a receive makes a consumer and receives; a caller's action is one call. A name
   takes one call more.
   */
  lemma FirstTime(script: nat -> Outcome, c: Config, d: Done)
    requires Lawful(script, c, d) && d.outcome.Fine? && HasNothing(c)
    ensures d.op.Send? ==> d.to == d.from + if NeedsName(c, d.op.target) then 9 else 8
    ensures d.op.Receive? ==> d.to == d.from + if NeedsName(c, d.op.target) then 6 else 5
    ensures d.op.ExecuteProducer? && d.op.action == CallerProducerAction ==>
              d.to == d.from + if NeedsName(c, d.op.target) then 8 else 7
    ensures d.op == Op.ExecuteSession(Some(CallerSessionAction)) ==> d.to == d.from + 4
  {
    OpenLawful(script, c, d);
  }

  /** The second time nothing is made but the message, and the producer is set up again. */
  lemma SecondTime(script: nat -> Outcome, c: Config, d: Done, d': Done)
    requires Lawful(script, c, d) && d.outcome.Fine? && Lawful(script, Next(c, d.op, d.outcome), d')
    requires d'.op == d.op && d'.outcome.Fine?
    ensures d.op.Send? ==> d'.to == d'.from + 4
    ensures d.op.Receive? ==> d'.to == d'.from + 1
    ensures d.op.ExecuteProducer? && d.op.action == CallerProducerAction ==> d'.to == d'.from + 3
    ensures d.op == Op.ExecuteSession(Some(CallerSessionAction)) ==> d'.to == d'.from + 1
  {
    OpenLawful(script, c, d);
    OpenLawful(script, Next(c, d.op, d.outcome), d');
    var action := d.op.Action(c.settings);
    if action.Some? {
      NothingIsMissing(c, action.value);
    }
  }

  /**
   A first send of which the call after k others fails makes no other call, except that it closes the connection if
   there is one by then. Afterwards there is nothing again.
   */
  lemma FailedFirstSend(script: nat -> Outcome, c: Config, d: Done, k: nat)
    requires Lawful(script, c, d) && HasNothing(c) && d.op.Send? && d.op.target.To? && k < 8
    requires Smooth(script, d.from, d.from + k) && script(d.from + k).Fails?
    ensures d.outcome == Fails(CmsException) && d.to == d.from + k + if k == 0 then 1 else 2
    ensures d.delivery == [] || k == 7
    ensures HasNothing(Next(c, d.op, d.outcome))
  {
    OpenLawful(script, c, d);
    SpentUntilFailure(script, d.from, 8);
    var spent := Spent(script, d.from, 8);
    assert spent == k + 1;
  }

  /** After any failure there is nothing, no destination that the caller gave, and all properties are as they were. */
  lemma AfterFailure(script: nat -> Outcome, c: Config, d: Done)
    requires Lawful(script, c, d) && d.outcome.Fails?
    ensures var c' := Next(c, d.op, d.outcome);
            && c'.got == {} && !c'.memo && c'.given == None
            && c'.name == c.name && c'.pubSubDomain == c.pubSubDomain && c'.factory == c.factory
            && c'.ackMode == c.ackMode && c'.settings == c.settings
  {
  }

  /** Four acknowledge modes have a session pool. */
  lemma AcknowledgeModes(m: nat)
    ensures SetSessionAcknowledgeMode(m).Legal() <==> m == 0 || m == 1 || m == 2 || m == 3
  {
  }

  /** After an action, the same one needs nothing more. */
  lemma NothingIsMissing(c: Config, a: SessionAction)
    requires c.Accepts(a)
    ensures var c' := c.Performed(a);
            && c'.settings == c.settings && c'.Cost(a) ==
               match a
               case Produce(_, action) => 2 + ActCost(action)
               case _ => 1
  {
    PerformedHas(c, a);
  }

  lemma PerformedHas(c: Config, a: SessionAction)
    requires c.Accepts(a)
    ensures var c' := c.Performed(a);
            && c'.ackMode == c.ackMode && c'.settings == c.settings && Connecting in c'.got
            && SessionFor(c.ackMode) in c'.got
            && (a.HasTarget() ==> c'.NameCost(a.target) == 0)
            && (a.Produce? ==> c'.ProducerRole(a.target) in c'.got)
            && (a.Consume? ==> c'.ConsumerRole(a.target, a.selector, a.noLocal) in c'.got)
  {
    var s := c.Opened();
    match a
    case Produce(target, _) =>
      assert s.WithProducer(target) == s.Resolved(target).With(s.ProducerRole(target));
    case Consume(target, selector, noLocal) =>
      assert s.WithConsumer(target, selector, noLocal)
             == s.Resolved(target).With(s.ConsumerRole(target, selector, noLocal));
    case CallerSessionAction =>
  }

  /** As long as nothing was deleted, one connection and one of each object that a caller can tell apart was made. */
  lemma NothingTwice(log: Log, r: Resource, s: Resource)
    requires Frugal(log) && Made(r) in log && Made(s) in log && r != s
    ensures !(r.what.ConnectionObject? && s.what.ConnectionObject?)
    ensures r.what.SessionObject? && s.what.SessionObject? ==> r.what.pool != s.what.pool
    ensures r.what.DestinationObject? && s.what.DestinationObject? ==>
              r.what.pool != s.what.pool || r.what.target != s.what.target
    ensures r.what.ProducerObject? && s.what.ProducerObject? ==>
              r.what.pool != s.what.pool || r.what.target != s.what.target
    ensures r.what.ConsumerObject? && s.what.ConsumerObject? ==>
              || r.what.pool != s.what.pool || r.what.target != s.what.target
              || r.what.selector != s.what.selector || r.what.noLocal != s.what.noLocal
    ensures r.what.PoolObject? && s.what.PoolObject? ==> r.what.pool != s.what.pool
    ensures r.what.PooledSessionObject? && s.what.PooledSessionObject? ==> r.what.pool != s.what.pool
    ensures r.what.SessionResolverObject? && s.what.SessionResolverObject? ==> r.what.pool != s.what.pool
  {
  }

  // Which properties are in force.

  function ConfigAfter(start: Point, run: seq<Done>, n: nat): Config
    requires n <= |run|
  {
    After(start, run, n).config
  }

  lemma StepsOn(start: Point, run: seq<Done>, n: nat)
    requires n < |run|
    ensures ConfigAfter(start, run, n + 1) == Next(ConfigAfter(start, run, n), run[n].op, run[n].outcome)
  {
  }

  /** What has no setter in between is kept, whatever fails. */
  lemma {:induction false} PropertyIsKept(start: Point, run: seq<Done>, i: nat, n: nat)
    requires i <= n <= |run|
    ensures var c, c' := ConfigAfter(start, run, i), ConfigAfter(start, run, n);
            && ((forall j | i <= j < n :: !run[j].op.SetDefaultDestinationName?) ==> c'.name == c.name)
            && ((forall j | i <= j < n :: !run[j].op.SetPubSubDomain?) ==> c'.pubSubDomain == c.pubSubDomain)
            && ((forall j | i <= j < n :: !run[j].op.SetConnectionFactory?) ==> c'.factory == c.factory)
            && ((forall j | i <= j < n :: !run[j].op.SetSessionAcknowledgeMode?) ==> c'.ackMode == c.ackMode)
            && ((forall j | i <= j < n :: !run[j].op.Configure?) ==> c'.settings == c.settings)
    decreases n
  {
    if i < n {
      PropertyIsKept(start, run, i, n - 1);
      StepsOn(start, run, n - 1);
      NextKeeps(ConfigAfter(start, run, n - 1), run[n - 1].op, run[n - 1].outcome);
    }
  }

  lemma NextKeeps(c: Config, op: Op, o: Outcome)
    ensures var c' := Next(c, op, o);
            && (!op.SetDefaultDestinationName? ==> c'.name == c.name)
            && (!op.SetPubSubDomain? ==> c'.pubSubDomain == c.pubSubDomain)
            && (!op.SetConnectionFactory? ==> c'.factory == c.factory)
            && (!op.SetSessionAcknowledgeMode? ==> c'.ackMode == c.ackMode)
            && (!op.Configure? ==> c'.settings == c.settings)
  {
    var action := op.Action(c.settings);
    if action.Some? {
      PerformedKeeps(c, action.value);
    }
  }

  /** An action changes no property. */
  lemma PerformedKeeps(c: Config, a: SessionAction)
    ensures var c' := c.Performed(a);
            c' == c.(memo := c'.memo, got := c'.got)
  {
    var s := c.Opened();
    assert s == c.(got := s.got);
    assert s.Worked(a) == s.(memo := s.Worked(a).memo, got := s.Worked(a).got);
  }

  /** A property has the value of its last setter. */
  lemma PropertyInForce(start: Point, run: seq<Done>, i: nat, n: nat)
    requires i < n <= |run|
    ensures var op, c := run[i].op, ConfigAfter(start, run, n);
            && (op.SetDefaultDestinationName? && (forall j | i < j < n :: !run[j].op.SetDefaultDestinationName?) ==>
                  c.name == op.name)
            && (op.SetPubSubDomain? && (forall j | i < j < n :: !run[j].op.SetPubSubDomain?) ==>
                  c.pubSubDomain == op.value)
            && (op.SetConnectionFactory? && (forall j | i < j < n :: !run[j].op.SetConnectionFactory?) ==>
                  c.factory == op.present)
            && (op.SetSessionAcknowledgeMode? && (forall j | i < j < n :: !run[j].op.SetSessionAcknowledgeMode?) ==>
                  c.ackMode == op.ackMode)
            && (op.Configure? && (forall j | i < j < n :: !run[j].op.Configure?) ==> c.settings == op.settings)
  {
    StepsOn(start, run, i);
    PropertyIsKept(start, run, i + 1, n);
  }

  /** Without any setter they are those of a new template. */
  lemma NeverSet(factory: bool, run: seq<Done>, n: nat)
    requires n <= |run|
    ensures var c := ConfigAfter(Start(factory), run, n);
            && ((forall j | 0 <= j < n :: !run[j].op.SetDefaultDestinationName?) ==> c.name == "")
            && ((forall j | 0 <= j < n :: !run[j].op.SetPubSubDomain?) ==> !c.pubSubDomain)
            && ((forall j | 0 <= j < n :: !run[j].op.SetConnectionFactory?) ==> c.factory == factory)
            && ((forall j | 0 <= j < n :: !run[j].op.SetSessionAcknowledgeMode?) ==> c.ackMode == 0)
            && ((forall j | 0 <= j < n :: !run[j].op.Configure?) ==>
                  c.settings == Settings(true, true, false, 0, false, Qos(0, 4, 0)))
  {
    PropertyIsKept(Start(factory), run, 0, n);
  }

  /** An operation that leaves alone the destination object that the caller gave. */
  predicate LeavesGiven(c: Config, d: Done) {
    match d.op
    case SetDefaultDestination(_) => false
    case SetDefaultDestinationName(n) => n == c.name
    case SetPubSubDomain(v) => v == c.pubSubDomain
    case SetConnectionFactory(_) => true
    case SetSessionAcknowledgeMode(_) => true
    case Configure(_) => true
    case ExecuteSession(None) => true
    case _ => d.outcome.Fine?
  }

  /** The i-th operation gave the destination, and no later one forgot it. */
  ghost predicate GaveLast(start: Point, run: seq<Done>, i: nat, n: nat, e: Destination)
    requires i < n <= |run|
  {
    && run[i].op == SetDefaultDestination(Some(e))
    && forall j | i < j < n :: LeavesGiven(ConfigAfter(start, run, j), run[j])
  }

  /**
   The template uses a destination object of the caller if and only if it was given last, and since then there was no
   other name, no other domain, and no failure.
   */
  lemma {:induction false} GivenInForce(factory: bool, run: seq<Done>, n: nat, e: Destination)
    requires n <= |run|
    ensures ConfigAfter(Start(factory), run, n).given == Some(e) <==>
            exists i :: 0 <= i < n && GaveLast(Start(factory), run, i, n, e)
  {
    if n > 0 {
      var start, m := Start(factory), n - 1;
      StepsOn(start, run, m);
      GivenInForce(factory, run, m, e);
      GivenNext(ConfigAfter(start, run, m), run[m]);
      forall i | 0 <= i < m
        ensures GaveLast(start, run, i, n, e) <==>
                GaveLast(start, run, i, m, e) && LeavesGiven(ConfigAfter(start, run, m), run[m])
      {
      }
      assert GaveLast(start, run, m, n, e) <==> run[m].op == SetDefaultDestination(Some(e));
    }
  }

  lemma GivenNext(c: Config, d: Done)
    ensures Next(c, d.op, d.outcome).given ==
            if d.op.SetDefaultDestination? then d.op.d else if LeavesGiven(c, d) then c.given else None
  {
    var action := d.op.Action(c.settings);
    if action.Some? {
      PerformedKeeps(c, action.value);
    }
  }

  /** What a template that was never configured does: it sends with ids and timestamps and by default, and waits. */
  lemma NeverConfigured(script: nat -> Outcome, factory: bool, run: seq<Done>, i: nat)
    requires LawfulRun(script, Start(factory), run) && i < |run| && run[i].outcome.Fine?
    requires forall j | 0 <= j < i :: !run[j].op.Configure?
    ensures run[i].op.Send? ==>
              && |run[i].delivery| == 1 && run[i].delivery[0].Sent?
              && run[i].delivery[0].qos == None && run[i].delivery[0].flags == Flags(false, false)
    ensures run[i].op.Receive? ==>
              |run[i].delivery| == 1 && run[i].delivery[0].Received? && run[i].delivery[0].wait == Indefinite
  {
    LawfulAt(script, Start(factory), run, i);
    NeverSet(factory, run, i);
    var c := ConfigAfter(Start(factory), run, i);
    if run[i].op.Send? {
      SendsAsTold(script, c, run[i]);
    }
    if run[i].op.Receive? {
      WaitsAsTold(script, c, run[i]);
    }
  }
}
