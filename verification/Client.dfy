/**
 What a program that uses one template can rely on, over whole runs, whatever
 fails: every operation ends as the configuration and the script of the calls
 say, nothing is left behind, and a failure is as good as a new template.
 */
module Client {
  import opened Wrappers
  import opened Provider
  import opened Ownership
  import opened Configuration
  import opened Template
  import opened Chains

  datatype Op =
    | SetDefaultDestination(d: Option<Destination>)
    | SetDefaultDestinationName(name: string)
    | SetPubSubDomain(value: bool)
    | SetConnectionFactory(present: bool)
    | SetSessionAcknowledgeMode(ackMode: nat)
    | Configure(settings: Settings)
    | Send(target: Target)
    | Receive(target: Target, selector: string)
    | ExecuteProducer(target: Target, action: ProducerAction)
    | ExecuteSession(session: Option<SessionAction>)
  {
    /** INDIVIDUAL_ACKNOWLEDGE has no session pool. */
    predicate Legal() {
      SetSessionAcknowledgeMode? ==> ackMode < NUM_SESSION_POOLS
    }

    predicate IsSetter() {
      !(Send? || Receive? || ExecuteProducer? || ExecuteSession?)
    }

    /** What an operation does in a session, if anything. */
    function Action(settings: Settings): Option<SessionAction> {
      match this
      case Send(target) => Some(Produce(target, SendMessage))
      case Receive(target, selector) => Some(Consume(target, selector, settings.noLocal))
      case ExecuteProducer(target, action) => Some(Produce(target, action))
      case ExecuteSession(action) => action
      case _ => None
    }
  }

  /** A new name or another domain forgets the destination object that the caller gave. */
  function Set(c: Config, op: Op): Config {
    match op
    case SetDefaultDestination(d) => c.(given := d, memo := false)
    case SetDefaultDestinationName(n) => if n == c.name then c else c.(given := None, memo := false, name := n)
    case SetPubSubDomain(v) => if v == c.pubSubDomain then c else c.(given := None, memo := false, pubSubDomain := v)
    case SetConnectionFactory(p) => c.(factory := p)
    case SetSessionAcknowledgeMode(m) => c.(ackMode := m)
    case Configure(s) => c.(settings := s)
    case _ => c
  }

  /**
   An operation that was performed, how it ended, what it sent and received, and the calls of the CMS
   provider that it made: those from the number from up to the number to.
   */
  datatype Done = Done(op: Op, outcome: Outcome, delivery: seq<Traffic>, from: nat, to: nat)

  function Next(c: Config, op: Op, o: Outcome): Config {
    var action := op.Action(c.settings);
    if action == None then Set(c, op)
    else if o.Fine? then c.Performed(action.value)
    else c.Forgotten()
  }

  /**
   What a template does when its configuration is c. An operation succeeds if and only if it is acceptable and
   none of the calls that it takes fails.
   */
  ghost predicate Lawful(script: nat -> Outcome, c: Config, d: Done) {
    var action := d.op.Action(c.settings);
    if action == None then
      d.outcome.Fine? && d.delivery == [] && d.from == d.to
    else
      && CarriedOut(script, c, action.value, d.from, d.to, d.outcome, c.Accepts(action.value), c.Cost(action.value),
                    d.delivery)
      && (d.outcome.Fails? ==> d.outcome.exn == CmsException)
  }

  /** A point of a run: the configuration, and how many calls have been made. */
  datatype Point = Point(config: Config, calls: nat)

  function Start(factory: bool): Point {
    Point(NewConfig(factory), 0)
  }

  function Step(p: Point, d: Done): Point {
    Point(Next(p.config, d.op, d.outcome), d.to)
  }

  /** The point after the first n operations. */
  function After(p: Point, run: seq<Done>, n: nat): Point
    requires n <= |run|
  {
    Fold(Step, p, run, n)
  }

  /** An operation does what a template does there, and its calls follow those before it. */
  ghost function Law(script: nat -> Outcome): (Point, Done) -> bool {
    (p: Point, d: Done) => Lawful(script, p.config, d) && d.from == p.calls
  }

  ghost predicate LawfulRun(script: nat -> Outcome, p: Point, run: seq<Done>) {
    Holds(Law(script), Step, p, run)
  }

  lemma LawfulAt(script: nat -> Outcome, p: Point, run: seq<Done>, i: nat)
    requires LawfulRun(script, p, run) && i < |run|
    ensures Lawful(script, After(p, run, i).config, run[i]) && run[i].from == After(p, run, i).calls
  {
    assert HoldsAt(Law(script), Step, p, run, i);
  }

  function Append(traffic: seq<Traffic>, d: Done): seq<Traffic> {
    traffic + d.delivery
  }

  /** All that was sent and received. */
  function TrafficOf(run: seq<Done>): seq<Traffic> {
    Fold(Append, [], run, |run|)
  }

  predicate AllFine(run: seq<Done>) {
    forall i | 0 <= i < |run| :: run[i].outcome.Fine?
  }

  /** No two objects of the run were made for the same role, but for messages. */
  ghost predicate Frugal(log: Log) {
    forall r, s | Made(r) in log && Made(s) in log && RoleOf(r.what) == RoleOf(s.what) && !r.what.MessageObject? ::
      r == s
  }

  predicate Performs(run: seq<Done>, ops: seq<Op>) {
    |run| == |ops| && forall i | 0 <= i < |ops| :: run[i].op == ops[i]
  }

  // Performing operations.

  /** The setters. */
  method PerformSetter(t: CmsTemplate, op: Op)
    requires t.Ready() && op.Legal() && op.IsSetter()
    modifies t`defaultDestination, t`defaultDestinationName, t`pubSubDomain, t`hasConnectionFactory
    modifies t`sessionAcknowledgeMode, t`settings
    ensures t.Ready() && t.View() == Set(old(t.View()), op)
  {
    match op
    case SetDefaultDestination(d) => t.SetDefaultDestination(d);
    case SetDefaultDestinationName(n) => t.SetDefaultDestinationName(n);
    case SetPubSubDomain(v) => t.SetPubSubDomain(v);
    case SetConnectionFactory(p) => t.SetConnectionFactory(p);
    case SetSessionAcknowledgeMode(m) => t.SetSessionAcknowledgeMode(m);
    case Configure(s) => t.Configure(s);
  }

  /** An operation without an action: a setter, or execute with a null callback. */
  method PerformQuietly(t: CmsTemplate, op: Op)
    requires t.Ready() && op.Legal() && t.sessionAcknowledgeMode < NUM_SESSION_POOLS && op.Action(t.settings) == None
    modifies t, t.Parts
    ensures t.Ready() && t.View() == Set(old(t.View()), op) && t.sessionAcknowledgeMode < NUM_SESSION_POOLS
    ensures unchanged(t.provider`calls, t.provider`traffic, t.provider`gone) && t.Parts == old(t.Parts)
  {
    if op.IsSetter() {
      PerformSetter(t, op);
    } else {
      var _ := t.ExecuteSession(None);
    }
  }

  /** The call that an operation stands for. */
  method PerformAction(t: CmsTemplate, op: Op, ghost action: SessionAction) returns (o: Outcome)
    requires t.Ready() && t.sessionAcknowledgeMode < NUM_SESSION_POOLS && op.Action(t.settings) == Some(action)
    modifies t`initialized, t`connection, t`defaultDestination, t`book, t`Parts, t.Parts
    ensures if o.Fine? then t.Ready() else t.Reset() && o.exn == CmsException
    ensures var c := old(t.View()); t.Carried(action, o, c.Accepts(action), c.Cost(action), c.Performed(action))
    ensures fresh(t.Parts - old(t.Parts))
  {
    match op
    case Send(target) => o := t.Send(target);
    case Receive(target, selector) => o := t.Receive(target, selector);
    case ExecuteProducer(target, action) => o := t.ExecuteProducer(target, action);
    case ExecuteSession(action) => o := t.ExecuteSession(action);
  }

  /** One operation. */
  method Perform(t: CmsTemplate, op: Op) returns (d: Done)
    requires t.Ready() && op.Legal() && t.sessionAcknowledgeMode < NUM_SESSION_POOLS
    modifies t, t.Parts
    ensures t.Ready() && fresh(t.Parts - old(t.Parts)) && t.sessionAcknowledgeMode < NUM_SESSION_POOLS
    ensures d.op == op && d.from == old(t.provider.calls) && d.to == t.provider.calls
    ensures Lawful(t.provider.outcome, old(t.View()), d) && t.View() == Next(old(t.View()), op, d.outcome)
    ensures t.provider.traffic == old(t.provider.traffic) + d.delivery
    ensures d.outcome.Fine? ==> t.provider.gone == old(t.provider.gone)
  {
    var from, sent, o := t.provider.calls, |t.provider.traffic|, Fine;
    var action := op.Action(t.settings);
    if action == None {
      PerformQuietly(t, op);
    } else {
      o := PerformAction(t, op, action.value);
      if o.Fails? {
        t.ResetIsForgotten();
      }
    }
    d := Done(op, o, t.provider.traffic[sent..], from, t.provider.calls);
  }

  /** What is seen of a template in the course of a run. */
  ghost predicate Agrees(script: nat -> Outcome, start: Point, run: seq<Done>, now: Point, traffic: seq<Traffic>,
                         gone: set<Resource>)
  {
    && LawfulRun(script, start, run)
    && now == After(start, run, |run|) && traffic == TrafficOf(run)
    && (AllFine(run) ==> gone == {})
  }

  lemma AgreesNext(script: nat -> Outcome, start: Point, run: seq<Done>, now: Point, traffic: seq<Traffic>,
                   gone: set<Resource>, gone': set<Resource>, d: Done)
    requires Agrees(script, start, run, now, traffic, gone) && Lawful(script, now.config, d) && d.from == now.calls
    requires d.outcome.Fine? ==> gone' == gone
    ensures Agrees(script, start, run + [d], Step(now, d), traffic + d.delivery, gone')
  {
    Extend(Law(script), Step, start, run, d);
    FoldExtend(Step, start, run, d);
    FoldExtend(Append, [], run, d);
    var n, run' := |run|, run + [d];
    assert AllFine(run') ==> AllFine(run) && d.outcome.Fine? by {
      assert run'[n] == d && forall i | 0 <= i < n :: run[i] == run'[i];
    }
  }

  ghost predicate InRun(t: CmsTemplate, start: Point, run: seq<Done>)
    reads t, t.Parts, t.provider, t.resolver
  {
    && t.Ready() && t.sessionAcknowledgeMode < NUM_SESSION_POOLS
    && Agrees(t.provider.outcome, start, run, Point(t.View(), t.provider.calls), t.provider.traffic, t.provider.gone)
  }

  method PerformNext(t: CmsTemplate, op: Op, ghost start: Point, ghost run: seq<Done>) returns (d: Done)
    requires InRun(t, start, run) && op.Legal()
    modifies t, t.Parts
    ensures InRun(t, start, run + [d]) && d.op == op && fresh(t.Parts - old(t.Parts))
  {
    ghost var now, traffic, gone := Point(t.View(), t.provider.calls), t.provider.traffic, t.provider.gone;
    d := Perform(t, op);
    AgreesNext(t.provider.outcome, start, run, now, traffic, gone, t.provider.gone, d);
  }

  method PerformAll(t: CmsTemplate, ghost start: Point, ops: seq<Op>) returns (run: seq<Done>)
    requires InRun(t, start, []) && forall i | 0 <= i < |ops| :: ops[i].Legal()
    modifies t, t.Parts
    ensures InRun(t, start, run) && Performs(run, ops) && fresh(t.Parts - old(t.Parts))
    decreases |ops|
  {
    run := [];
    if ops != [] {
      var n := |ops| - 1;
      run := PerformAll(t, start, ops[..n]);
      var d := PerformNext(t, ops[n], start, run);
      run := run + [d];
    }
  }

  /**
   Every run of a template, with any script of failures. Each operation ends as the configuration and the script
   say. No object is used after it was freed or freed twice, and when the template is gone the only objects
   left are the messages whose send failed in the way that no handler is for. Without a failure nothing is made
   twice, however long the run.
   */
  method WholeRun(script: nat -> Outcome, factory: bool, ops: seq<Op>) returns (run: seq<Done>, log: Log)
    requires forall i | 0 <= i < |ops| :: ops[i].Legal()
    ensures Performs(run, ops) && LawfulRun(script, Start(factory), run)
    ensures Safe(log)
    ensures forall r :: LiveAt(log, r, |log|) <==> r in Stranded(TrafficOf(run))
    ensures forall r | LiveAt(log, r, |log|) :: r.what.MessageObject?
    ensures AllFine(run) ==> Frugal(log)
  {
    var provider := new CmsProvider(script);
    var t := new CmsTemplate(provider, factory);
    t.ResetIsForgotten();
    run := PerformAll(t, Start(factory), ops);
    log := WindUp(t);
  }

  /** The destructor of the template. */
  method WindUp(t: CmsTemplate) returns (log: Log)
    requires t.Ready()
    modifies t, t.Parts
    ensures t.provider.traffic == old(t.provider.traffic) && log == t.provider.log && Safe(log)
    ensures forall r :: LiveAt(log, r, |log|) <==> r in Stranded(t.provider.traffic)
    ensures forall r | LiveAt(log, r, |log|) :: r.what.MessageObject?
    ensures old(t.provider.gone) == {} ==> Frugal(log)
  {
    if t.provider.gone == {} {
      NothingMadeTwice(t);
    }
    assert t.IdleInvariant() && t.CoreInvariant() && t.provider.Invariant();
    t.Destroy();
    log := t.provider.log;
    assert t.ResetInvariant() && t.IdleInvariant() && t.CoreInvariant() && t.EmptyInvariant() && t.provider.Invariant();
    forall r ensures LiveAt(log, r, |log|) <==> r in t.provider.messages
      ensures LiveAt(log, r, |log|) ==> r.what.MessageObject?
    {
      t.provider.LiveIsOpen(r);
    }
    SameMade(old(t.provider.log), log, t.provider.made);
  }

  lemma SameMade(before: Log, log: Log, made: set<Resource>)
    requires forall r :: r in made <==> Made(r) in before
    requires forall r :: r in made <==> Made(r) in log
    ensures Frugal(before) ==> Frugal(log)
  {
    assert forall r :: Made(r) in log ==> r in made && Made(r) in before;
  }

  lemma NothingMadeTwice(t: CmsTemplate)
    requires t.Ready() && t.provider.gone == {}
    ensures Frugal(t.provider.log)
  {
    assert t.IdleInvariant() && t.CoreInvariant() && t.provider.Invariant();
    var log := t.provider.log;
    forall r, s | Made(r) in log && Made(s) in log && RoleOf(r.what) == RoleOf(s.what) && !r.what.MessageObject?
      ensures r == s
    {
      assert log[..|log|] == log;
      assert Freed(r) !in log && Freed(s) !in log;
      t.provider.LiveIsOpen(r);
      t.provider.LiveIsOpen(s);
      t.AtMostOne(r, s);
    }
  }
}
