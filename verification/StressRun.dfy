/** Several senders and one account: what the stress test reports when nothing goes wrong on the way. */
module StressRun {
  import opened Decimal
  import opened SequenceCheck

  /** How often a sender has its turn among the first n. */
  function Turns(order: seq<nat>, a: nat, n: nat): nat
    requires n <= |order|
  {
    if n == 0 then 0 else Turns(order, a, n - 1) + if order[n - 1] == a then 1 else 0
  }

  lemma {:induction false} TurnsGrow(order: seq<nat>, a: nat, n: nat, m: nat)
    requires n <= m <= |order|
    ensures Turns(order, a, n) <= Turns(order, a, m) <= m
    decreases m
  {
    if n < m {
      TurnsGrow(order, a, n, m - 1);
    } else if n > 0 {
      TurnsGrow(order, a, n - 1, n - 1);
    }
  }

  /** The order takes every message of every sender once. */
  ghost predicate IsInterleaving(order: seq<nat>, delivered: seq<seq<string>>) {
    && (forall i | 0 <= i < |order| :: order[i] < |delivered|)
    && (forall a | 0 <= a < |delivered| :: Turns(order, a, |order|) == |delivered[a]|)
  }

  /** What the senders delivered is built with their names and consecutive numbers. */
  ghost predicate AreBuilt(delivered: seq<seq<string>>, payloads: seq<seq<string>>) {
    && |delivered| == |payloads|
    && forall a, k | 0 <= a < |delivered| && 0 <= k < |delivered[a]| :: Carries(delivered[a][k], a, k, payloads[a])
  }

  function ActiveSenders(delivered: seq<seq<string>>, n: nat): nat
    requires n <= |delivered|
  {
    if n == 0 then 0 else ActiveSenders(delivered, n - 1) + if delivered[n - 1] == [] then 0 else 1
  }

  /** All senders but those that delivered nothing. */
  lemma {:induction false} ActiveSendersAre(delivered: seq<seq<string>>, n: nat)
    requires n <= |delivered|
    ensures ActiveSenders(delivered, n) == n - multiset(delivered[..n])[[]]
  {
    if n > 0 {
      ActiveSendersAre(delivered, n - 1);
      assert delivered[..n] == delivered[..n - 1] + [delivered[n - 1]];
    }
  }

  lemma {:induction false} TurnsAre(order: seq<nat>, a: nat, n: nat)
    requires n <= |order|
    ensures Turns(order, a, n) == multiset(order[..n])[a]
  {
    if n > 0 {
      TurnsAre(order, a, n - 1);
      assert order[..n] == order[..n - 1] + [order[n - 1]];
    }
  }

  lemma {:induction false} ActiveAre(seqs: seq<seq<int>>, delivered: seq<seq<string>>)
    requires |seqs| <= |delivered| && forall a | 0 <= a < |seqs| :: |seqs[a]| == |delivered[a]|
    ensures Active(seqs) == ActiveSenders(delivered, |seqs|)
  {
    if seqs != [] {
      ActiveAre(seqs[..|seqs| - 1], delivered);
    }
  }

  /** So many numbers from 0. */
  ghost predicate Counts(s: seq<int>, n: nat) {
    |s| == n && forall i | 0 <= i < n :: s[i] == i
  }

  /** After n messages, the account of every sender has the numbers of its turns, and nothing was invalid. */
  ghost predicate Account(history: seq<Reading>, order: seq<nat>, senders: nat, n: nat)
    requires n <= |order|
  {
    && |history| == n && CountInvalid(history) == 0
    && forall a: nat | a < senders :: Counts(Seqs(history, a), Turns(order, a, n))
  }

  lemma AccountNext(history: seq<Reading>, order: seq<nat>, senders: nat, n: nat)
    requires n < |order| && Account(history, order, senders, n) && order[n] < senders
    ensures Account(history + [Numbered(order[n], Turns(order, order[n], n))], order, senders, n + 1)
  {
    var r := Numbered(order[n], Turns(order, order[n], n));
    assert (history + [r])[..n] == history;
    forall a: nat | a < senders ensures Counts(Seqs(history + [r], a), Turns(order, a, n + 1)) {
      SeqsNext(history, r, a);
      assert Counts(Seqs(history, a), Turns(order, a, n));
    }
  }

  /** The messages of all senders arrive in some order that keeps that of each sender. */
  method Deliver(delivered: seq<seq<string>>, ghost payloads: seq<seq<string>>, order: seq<nat>)
    returns (results: TestResults)
    requires AreBuilt(delivered, payloads) && IsInterleaving(order, delivered)
    requires |delivered| <= MAX_INT && |order| <= MAX_INT
    ensures fresh(results) && results.Valid() && results.threadCount == |delivered|
    ensures Account(results.history, order, |delivered|, |order|)
  {
    results := new TestResults(|delivered|);
    for i := 0 to |order|
      invariant fresh(results) && fresh(results.lastSequence) && results.Valid() && results.threadCount == |delivered|
      invariant Account(results.history, order, |delivered|, i)
    {
      var a := order[i];
      TurnsGrow(order, a, i, i);
      TurnsGrow(order, a, i + 1, |order|);
      var k := Turns(order, a, i);
      DeliveredIsRead(delivered[a][k], a, k, payloads[a], |delivered|);
      AccountNext(results.history, order, |delivered|, i);
      var _ := results.OnMessage(delivered[a][k]);
    }
  }

  lemma {:induction false} PerfectAccount(history: seq<Reading>, order: seq<nat>, delivered: seq<seq<string>>)
    requires Account(history, order, |delivered|, |order|) && IsInterleaving(order, delivered) && |order| <= MAX_INT
    ensures var seqs := BySender(history, |delivered|);
            TotalBad(seqs) == TotalDifferences(seqs) == ActiveSenders(delivered, |delivered|)
  {
    var seqs := BySender(history, |delivered|);
    forall a: nat | a < |seqs| ensures Counts(seqs[a], |delivered[a]|) && |seqs[a]| <= MAX_INT {
      assert Counts(Seqs(history, a), Turns(order, a, |order|));
      TurnsGrow(order, a, |order|, |order|);
    }
    PerfectRun(seqs);
    ActiveAre(seqs, delivered);
  }

  /** Every sender runs, whichever of its sends fail. */
  method RunSenders(payloads: seq<seq<string>>, ok: seq<seq<bool>>) returns (delivered: seq<seq<string>>)
    requires |payloads| == |ok| && forall a | 0 <= a < |ok| :: |payloads[a]| == |ok[a]|
    ensures AreBuilt(delivered, payloads)
    ensures forall a | 0 <= a < |ok| :: |delivered[a]| == Successes(ok[a], |ok[a]|)
  {
    delivered := [];
    for a := 0 to |payloads|
      invariant |delivered| == a
      invariant forall b, k | 0 <= b < a && 0 <= k < |delivered[b]| :: Carries(delivered[b][k], b, k, payloads[b])
      invariant forall b | 0 <= b < a :: |delivered[b]| == Successes(ok[b], |ok[b]|)
    {
      var sender := new TestSender(a);
      var messages := sender.Run(payloads[a], ok[a]);
      delivered := delivered + [messages];
    }
  }

  /**
   The whole stress test: if every message that was sent arrives once, and those of each sender in order, then no
   message is invalid, and exactly one message, of difference one, is reported for each sender that sent any.
   */
  method StressTest(payloads: seq<seq<string>>, ok: seq<seq<bool>>, order: seq<nat>)
    returns (delivered: seq<seq<string>>, received: int, invalid: int, bad: int, differences: int)
    requires |payloads| == |ok| && forall a | 0 <= a < |ok| :: |payloads[a]| == |ok[a]|
    requires forall i | 0 <= i < |order| :: order[i] < |ok|
    requires forall a | 0 <= a < |ok| :: Turns(order, a, |order|) == Successes(ok[a], |ok[a]|)
    requires |ok| <= MAX_INT && |order| <= MAX_INT
    ensures |delivered| == |ok| && forall a | 0 <= a < |ok| :: |delivered[a]| == Successes(ok[a], |ok[a]|)
    ensures received == |order| && invalid == 0
    ensures bad == differences == ActiveSenders(delivered, |delivered|)
  {
    delivered := RunSenders(payloads, ok);
    var results := Deliver(delivered, payloads, order);
    assert results.Invariant();
    PerfectAccount(results.history, order, delivered);
    received, invalid := results.received, results.invalidMessages;
    bad, differences := results.badSequenceMessages, results.sequenceDifferences;
  }
}
