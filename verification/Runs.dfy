/** What follows from every operation of a run being lawful. */
module Runs {
  import opened Wrappers
  import opened Provider
  import opened Configuration
  import opened Template
  import opened Client
  import opened Chains

  // The script decides how a run goes.

  /** Only what goes over the wire is not decided in all detail: it names objects. */
  lemma SameEnd(script: nat -> Outcome, c: Config, d: Done, d': Done)
    requires Lawful(script, c, d) && Lawful(script, c, d') && d.op == d'.op && d.from == d'.from
    ensures d' == d.(delivery := d'.delivery) && |d'.delivery| == |d.delivery|
  {
    OpenLawful(script, c, d);
    OpenLawful(script, c, d');
  }

  /** The two runs agree on the operation at a place. */
  ghost predicate Alike(run: seq<Done>, run': seq<Done>, i: nat)
    requires i < |run| && i < |run'|
  {
    run'[i] == run[i].(delivery := run'[i].delivery) && |run'[i].delivery| == |run[i].delivery|
  }

  /**
   What operations are performed and how the calls end decides every outcome, the calls that every operation makes,
   and the configuration at every point.
   */
  lemma {:induction false} Determined(script: nat -> Outcome, start: Point, run: seq<Done>, run': seq<Done>, n: nat)
    requires LawfulRun(script, start, run) && LawfulRun(script, start, run')
    requires n <= |run| && n <= |run'| && forall i | 0 <= i < n :: run'[i].op == run[i].op
    ensures After(start, run, n) == After(start, run', n)
    ensures forall i {:trigger Alike(run, run', i)} | 0 <= i < n :: Alike(run, run', i)
  {
    if n > 0 {
      Determined(script, start, run, run', n - 1);
      DeterminedNext(script, start, run, run', n - 1);
    }
  }

  lemma DeterminedNext(script: nat -> Outcome, start: Point, run: seq<Done>, run': seq<Done>, i: nat)
    requires LawfulRun(script, start, run) && LawfulRun(script, start, run')
    requires i < |run| && i < |run'| && run'[i].op == run[i].op && After(start, run, i) == After(start, run', i)
    ensures After(start, run, i + 1) == After(start, run', i + 1) && Alike(run, run', i)
  {
    LawfulAt(script, start, run, i);
    LawfulAt(script, start, run', i);
    var p, d, d' := After(start, run, i), run[i], run'[i];
    SameEnd(script, p.config, d, d');
    SameStep(p, d, d');
  }

  lemma SameStep(p: Point, d: Done, d': Done)
    requires d' == d.(delivery := d'.delivery)
    ensures Step(p, d) == Step(p, d')
  {
  }

  // A template is usable again after any failure.

  /** The calls of later operations come later. */
  lemma {:induction false} CallsGrow(script: nat -> Outcome, start: Point, run: seq<Done>, i: nat, j: nat)
    requires LawfulRun(script, start, run) && i <= j < |run|
    ensures run[i].from <= run[j].from <= run[j].to
    decreases j
  {
    LawfulAt(script, start, run, j);
    OpenLawful(script, After(start, run, j).config, run[j]);
    if i < j {
      CallsGrow(script, start, run, i, j - 1);
    }
  }

  /** What an operation with an action comes to. */
  lemma OpenLawful(script: nat -> Outcome, c: Config, d: Done)
    requires Lawful(script, c, d)
    ensures d.from <= d.to
    ensures var action := d.op.Action(c.settings);
            action.Some? ==>
              Ending(script, c, action.value, d.from, d.to, d.outcome, c.Accepts(action.value), c.Cost(action.value),
                     d.delivery)
  {
    var action := d.op.Action(c.settings);
    if action.Some? {
      assert Ending(script, c, action.value, d.from, d.to, d.outcome, c.Accepts(action.value), c.Cost(action.value),
                    d.delivery);
    }
  }

  /**
   When the provider works from the first call of an operation on, this operation and all later ones do what they
   mean if and only if they are acceptable, whatever has failed before.
   */
  lemma UsableAgain(script: nat -> Outcome, start: Point, run: seq<Done>, i: nat, j: nat)
    requires LawfulRun(script, start, run) && i <= j < |run|
    requires forall k | k >= run[i].from :: script(k).Fine?
    ensures var c := After(start, run, j).config;
            var action := run[j].op.Action(c.settings);
            && (run[j].outcome.Fine? <==> action == None || c.Accepts(action.value))
            && (action.Some? && c.Accepts(action.value) ==>
                  Accomplishes(action.value, c.ActionMeaning(action.value), c.ackMode, c.settings, run[j].delivery))
  {
    CallsGrow(script, start, run, i, j);
    LawfulAt(script, start, run, j);
    OpenLawful(script, After(start, run, j).config, run[j]);
  }

  // A failure is as good as a new template.

  /** What to do with a new template to give it the properties of c. */
  function Setters(c: Config): seq<Done> {
    [Done(SetDefaultDestinationName(c.name), Fine, [], 0, 0), Done(SetPubSubDomain(c.pubSubDomain), Fine, [], 0, 0),
     Done(SetSessionAcknowledgeMode(c.ackMode), Fine, [], 0, 0), Done(Op.Configure(c.settings), Fine, [], 0, 0)]
  }

  /** The same operations after so many other calls. */
  function Delayed(run: seq<Done>, calls: nat): seq<Done> {
    seq(|run|, i requires 0 <= i < |run| => run[i].(from := run[i].from + calls, to := run[i].to + calls))
  }

  /** What is left of a script after so many calls. */
  function Rest(script: nat -> Outcome, calls: nat): nat -> Outcome {
    (k: nat) => script(k + calls)
  }

  lemma SmoothLater(script: nat -> Outcome, calls: nat, from: nat, to: nat)
    ensures Smooth(Rest(script, calls), from, to) <==> Smooth(script, from + calls, to + calls)
  {
    var later := Rest(script, calls);
    if Smooth(later, from, to) {
      forall k: nat | from + calls <= k < to + calls ensures script(k).Fine? {
        assert later(k - calls).Fine?;
      }
    }
    if Smooth(script, from + calls, to + calls) {
      forall k: nat | from <= k < to ensures later(k).Fine? {
        assert script(k + calls).Fine?;
      }
    }
  }

  /** An operation does the same after so many other calls. */
  lemma LawfulLater(script: nat -> Outcome, calls: nat, c: Config, d: Done)
    ensures Lawful(Rest(script, calls), c, d) <==>
            Lawful(script, c, d.(from := d.from + calls, to := d.to + calls))
  {
    var later := Rest(script, calls);
    var action := d.op.Action(c.settings);
    if action.Some? {
      var a, cost := action.value, c.Cost(action.value);
      EndingLater(script, calls, c, a, d.from, d.to, d.outcome, c.Accepts(a), cost, d.delivery);
      assert Ending(later, c, a, d.from, d.to, d.outcome, c.Accepts(a), cost, d.delivery) <==>
        Ending(script, c, a, d.from + calls, d.to + calls, d.outcome, c.Accepts(a), cost, d.delivery);
    }
  }

  lemma {:induction false} SpentLater(script: nat -> Outcome, calls: nat, from: nat, n: nat)
    ensures Spent(Rest(script, calls), from, n) == Spent(script, from + calls, n)
    decreases n
  {
    if n > 0 {
      SpentLater(script, calls, from + 1, n - 1);
    }
  }

  lemma EndingLater(script: nat -> Outcome, calls: nat, c: Config, a: SessionAction, from: nat, to: nat, o: Outcome,
                    allowed: bool, cost: nat, delivery: seq<Traffic>)
    ensures Ending(Rest(script, calls), c, a, from, to, o, allowed, cost, delivery) <==>
            Ending(script, c, a, from + calls, to + calls, o, allowed, cost, delivery)
  {
    SpentLater(script, calls, from, cost);
    SmoothLater(script, calls, from, from + cost);
    if cost > 0 {
      SmoothLater(script, calls, from, from + cost - 1);
      assert Rest(script, calls)(from + cost - 1) == script(from + calls + cost - 1);
    }
  }

  function LaterPoint(calls: nat): Point -> Point {
    (p: Point) => Point(p.config, p.calls + calls)
  }

  function LaterDone(calls: nat): Done -> Done {
    (d: Done) => d.(from := d.from + calls, to := d.to + calls)
  }

  lemma StepLater(script: nat -> Outcome, calls: nat, p: Point, d: Done)
    ensures Step(LaterPoint(calls)(p), LaterDone(calls)(d)) == LaterPoint(calls)(Step(p, d))
    ensures Law(Rest(script, calls))(p, d) <==> Law(script)(LaterPoint(calls)(p), LaterDone(calls)(d))
  {
    LawfulLater(script, calls, p.config, d);
  }

  lemma StepsLater(script: nat -> Outcome, calls: nat)
    ensures forall p, d :: Step(LaterPoint(calls)(p), LaterDone(calls)(d)) == LaterPoint(calls)(Step(p, d))
    ensures forall p, d :: Law(Rest(script, calls))(p, d) <==> Law(script)(LaterPoint(calls)(p), LaterDone(calls)(d))
  {
    forall p, d
      ensures Step(LaterPoint(calls)(p), LaterDone(calls)(d)) == LaterPoint(calls)(Step(p, d))
      ensures Law(Rest(script, calls))(p, d) <==> Law(script)(LaterPoint(calls)(p), LaterDone(calls)(d))
    {
      StepLater(script, calls, p, d);
    }
  }

  /** A run is lawful after so many other calls if and only if it is so on the rest of the script. */
  lemma RunLater(script: nat -> Outcome, calls: nat, c: Config, run: seq<Done>)
    ensures LawfulRun(Rest(script, calls), Point(c, 0), run)
            <==> LawfulRun(script, Point(c, calls), Delayed(run, calls))
  {
    StepsLater(script, calls);
    var run' := Delayed(run, calls);
    assert forall i | 0 <= i < |run| :: run'[i] == LaterDone(calls)(run[i]);
    Mapped(Law(Rest(script, calls)), Law(script), Step, LaterPoint(calls), LaterDone(calls), Point(c, 0), run, run');
  }

  /** The properties are set without a call. */
  lemma SettersSet(script: nat -> Outcome, c: Config)
    requires c == c.Forgotten()
    ensures After(Start(c.factory), Setters(c), 4) == Point(c, 0) && LawfulRun(script, Start(c.factory), Setters(c))
  {
    var s, start := Setters(c), Start(c.factory);
    assert After(start, s, 0) == start;
    assert After(start, s, 1) == Step(start, s[0]);
    assert After(start, s, 2) == Step(After(start, s, 1), s[1]);
    assert After(start, s, 3) == Step(After(start, s, 2), s[2]);
    assert After(start, s, 4) == Step(After(start, s, 3), s[3]);
    assert forall i | 0 <= i < 4 :: HoldsAt(Law(script), Step, start, s, i);
  }

  /**
   After a failed operation a template is as good as a new one. Whatever was done before, what follows the failure is
   lawful if and only if it is what a new template with the same properties does on the rest of the script.
   */
  lemma FailureIsReset(script: nat -> Outcome, start: Point, run: seq<Done>, later: seq<Done>)
    requires LawfulRun(script, start, run) && run != [] && run[|run| - 1].outcome.Fails?
    ensures var now := After(start, run, |run|);
            LawfulRun(script, start, run + Delayed(later, now.calls)) <==>
            LawfulRun(Rest(script, now.calls), Start(now.config.factory), Setters(now.config) + later)
  {
    var n, now := |run|, After(start, run, |run|);
    LawfulAt(script, start, run, n - 1);
    LawfulFailure(script, After(start, run, n - 1).config, run[n - 1]);
    var rest := Rest(script, now.calls);
    SettersSet(rest, now.config);
    Split(Law(script), Step, start, run, Delayed(later, now.calls));
    Split(Law(rest), Step, Start(now.config.factory), Setters(now.config), later);
    RunLater(script, now.calls, now.config, later);
  }

  /** Only an operation with an action can fail, and then it forgets. */
  lemma LawfulFailure(script: nat -> Outcome, c: Config, d: Done)
    requires Lawful(script, c, d) && d.outcome.Fails?
    ensures Next(c, d.op, d.outcome) == c.Forgotten() == c.Forgotten().Forgotten()
  {
  }

  // Messages that are left behind.

  /** An operation leaves a message behind if and only if it is a send whose last call fails with no CMSException. */
  lemma StrandsIff(script: nat -> Outcome, c: Config, d: Done)
    requires Lawful(script, c, d)
    ensures var action := d.op.Action(c.settings);
            Stranded(d.delivery) != {} <==>
            && action.Some? && action.value.IsSend() && c.Accepts(action.value)
            && var last := d.from + c.Cost(action.value) - 1;
               Smooth(script, d.from, last) && script(last) == Fails(OtherException)
  {
    OpenLawful(script, c, d);
    if d.delivery != [] {
      var t := d.delivery[0];
      assert t in d.delivery;
      assert t.SendFailed? && t.exn == OtherException ==> t.message in Stranded(d.delivery);
    }
    assert forall m | m in Stranded(d.delivery) ::
        exists t :: t in d.delivery && t.SendFailed? && t.exn == OtherException && t.message == m;
  }

  /** The first send of a new template takes eight calls. */
  lemma FirstSend(d: Destination)
    ensures var action := Produce(To(d), SendMessage);
            NewConfig(true).Accepts(action) && NewConfig(true).Cost(action) == 8
  {
  }

  /** It does happen: the first send of a template, when its last call fails in that way. */
  method LeaveMessage(d: Destination) returns (log: Log)
    ensures Safe(log) && exists m: Resource :: m.what.MessageObject? && LiveAt(log, m, |log|)
  {
    var script: nat -> Outcome := k => if k == 7 then Fails(OtherException) else Fine;
    var run: seq<Done>;
    run, log := WholeRun(script, true, [Op.Send(To(d))]);
    FirstSend(d);
    LawfulAt(script, Start(true), run, 0);
    StrandsIff(script, NewConfig(true), run[0]);
    assert TrafficOf(run) == Append(Fold(Append, [], run, 0), run[0]) == run[0].delivery;
    ghost var m :| m in Stranded(run[0].delivery);
    assert LiveAt(log, m, |log|);
  }
}
