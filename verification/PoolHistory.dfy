/**
 What SessionPool.cpp does to its lists, with sessions named by the order in
 which they were created, and the laws of all its histories.
 */
module PoolHistory {

  /** The sessions waiting in the pool, first to go first, and how many were ever created. */
  datatype PoolState = PoolState(available: seq<nat>, created: nat)
  {
    ghost predicate Valid() {
      && (forall i, j | 0 <= i < j < |available| :: available[i] != available[j])
      && (forall s | s in available :: s < created)
    }

    /** A take hands out the head of the list, or a new session when the list is empty. */
    function Next(): nat {
      if available == [] then created else available[0]
    }

    function Take(): PoolState {
      if available == [] then PoolState([], created + 1) else PoolState(available[1..], created)
    }

    function Return(s: nat): PoolState {
      PoolState(available + [s], created)
    }

    ghost function Outstanding(): set<nat> {
      Below(created) - Elements(available)
    }
  }

  const EMPTY := PoolState([], 0)

  datatype PoolOp =
    | Take
    | FailedTake
    | Return(session: nat)

  /** A failed take changes nothing; it only happens when a session would have to be created. */
  function Step(p: PoolState, op: PoolOp): PoolState {
    match op
    case Take => p.Take()
    case FailedTake => p
    case Return(s) => p.Return(s)
  }

  function Run(ops: seq<PoolOp>): PoolState {
    if ops == [] then EMPTY else Step(Run(ops[..|ops| - 1]), ops[|ops| - 1])
  }

  /** A caller returns only what it holds. */
  ghost predicate Legal(ops: seq<PoolOp>) {
    ops == [] ||
    var before, op := ops[..|ops| - 1], ops[|ops| - 1];
    Legal(before) && (op.Return? ==> op.session in Run(before).Outstanding())
  }

  /** The largest number of sessions that were ever outstanding together. */
  ghost function Peak(ops: seq<PoolOp>): nat {
    if ops == [] then 0
    else
      var now, before := |Run(ops).Outstanding()|, Peak(ops[..|ops| - 1]);
      if now > before then now else before
  }

  /** The sessions returned, in order. */
  function Returned(ops: seq<PoolOp>): seq<nat> {
    if ops == [] then []
    else
      var before, op := Returned(ops[..|ops| - 1]), ops[|ops| - 1];
      if op.Return? then before + [op.session] else before
  }

  /** The sessions taken again, in order. */
  function Reissued(ops: seq<PoolOp>): seq<nat> {
    if ops == [] then []
    else
      var before, p := Reissued(ops[..|ops| - 1]), Run(ops[..|ops| - 1]);
      if ops[|ops| - 1].Take? && p.available != [] then before + [p.Next()] else before
  }

  ghost function Below(n: nat): (r: set<nat>)
    ensures |r| == n && forall s: nat :: s in r <==> s < n
  {
    if n == 0 then {} else Below(n - 1) + {n - 1}
  }

  ghost function Elements(xs: seq<nat>): set<nat> {
    set x | x in xs
  }

  lemma DistinctCount(xs: seq<nat>)
    requires forall i, j | 0 <= i < j < |xs| :: xs[i] != xs[j]
    ensures |Elements(xs)| == |xs|
  {
    if xs != [] {
      var n := |xs| - 1;
      DistinctCount(xs[..n]);
      assert xs == xs[..n] + [xs[n]];
      assert Elements(xs) == Elements(xs[..n]) + {xs[n]};
      assert xs[n] !in xs[..n];
    }
  }

  /** Waiting and outstanding sessions partition the created ones. */
  lemma OutstandingCount(p: PoolState)
    requires p.Valid()
    ensures |p.Outstanding()| + |p.available| == p.created
    ensures p.Outstanding() !! Elements(p.available)
    ensures p.Outstanding() + Elements(p.available) == Below(p.created)
  {
    var all, waiting := Below(p.created), Elements(p.available);
    DistinctCount(p.available);
    assert p.Outstanding() + waiting == all;
    assert |p.Outstanding() + waiting| == |p.Outstanding()| + |waiting|;
  }

  lemma TakeIsValid(p: PoolState)
    requires p.Valid()
    ensures p.Take().Valid()
  {
    if p.available != [] {
      forall s | s in p.available[1..] ensures s < p.created {
        assert s in p.available;
      }
    }
  }

  lemma {:induction false} RunIsValid(ops: seq<PoolOp>)
    requires Legal(ops)
    ensures Run(ops).Valid()
  {
    if ops != [] {
      RunIsValid(ops[..|ops| - 1]);
      TakeIsValid(Run(ops[..|ops| - 1]));
    }
  }

  /** No history creates more sessions than were once outstanding together, nor fewer. */
  lemma {:induction false} HighWaterMark(ops: seq<PoolOp>)
    requires Legal(ops)
    ensures Run(ops).created == Peak(ops)
  {
    if ops != [] {
      var before := ops[..|ops| - 1];
      HighWaterMark(before);
      RunIsValid(before);
      RunIsValid(ops);
      OutstandingCount(Run(before));
      OutstandingCount(Run(ops));
    }
  }

  /** Sessions are issued again in exactly the order in which they came back. */
  lemma {:induction false} FirstInFirstOut(ops: seq<PoolOp>)
    ensures Reissued(ops) + Run(ops).available == Returned(ops)
  {
    if ops != [] {
      FirstInFirstOut(ops[..|ops| - 1]);
    }
  }

  /** A session that is handed out was not outstanding before and is outstanding after. */
  lemma TakenIsFree(p: PoolState)
    requires p.Valid()
    ensures p.Next() !in p.Outstanding() && p.Take().Outstanding() == p.Outstanding() + {p.Next()}
  {
    if p.available != [] {
      assert p.available == [p.available[0]] + p.available[1..];
    }
  }
}
