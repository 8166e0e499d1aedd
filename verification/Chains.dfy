/** Runs of steps from a state, and when every step of a run is in order where it is taken. */
module Chains {

  /** The state after the first n steps. */
  function Fold<S, D>(next: (S, D) -> S, s: S, run: seq<D>, n: nat): S
    requires n <= |run|
  {
    if n == 0 then s else next(Fold(next, s, run, n - 1), run[n - 1])
  }

  ghost predicate Holds<S, D>(p: (S, D) -> bool, next: (S, D) -> S, s: S, run: seq<D>) {
    forall i | 0 <= i < |run| :: HoldsAt(p, next, s, run, i)
  }

  ghost predicate HoldsAt<S, D>(p: (S, D) -> bool, next: (S, D) -> S, s: S, run: seq<D>, i: nat)
    requires i < |run|
  {
    p(Fold(next, s, run, i), run[i])
  }

  /** What comes later does not matter. */
  lemma {:induction false} SamePrefix<S, D>(next: (S, D) -> S, s: S, run: seq<D>, run': seq<D>, n: nat)
    requires n <= |run| && n <= |run'| && forall i | 0 <= i < n :: run[i] == run'[i]
    ensures Fold(next, s, run, n) == Fold(next, s, run', n)
  {
    if n > 0 {
      SamePrefix(next, s, run, run', n - 1);
    }
  }

  lemma {:induction false} FoldSplit<S, D>(next: (S, D) -> S, s: S, first: seq<D>, rest: seq<D>, n: nat)
    requires n <= |rest|
    ensures Fold(next, s, first + rest, |first| + n) == Fold(next, Fold(next, s, first, |first|), rest, n)
  {
    if n == 0 {
      SamePrefix(next, s, first, first + rest, |first|);
    } else {
      FoldSplit(next, s, first, rest, n - 1);
    }
  }

  /** A run is in order if and only if its first part is, and the rest is from there on. */
  lemma Split<S, D>(p: (S, D) -> bool, next: (S, D) -> S, s: S, first: seq<D>, rest: seq<D>)
    ensures Holds(p, next, s, first + rest) <==>
            Holds(p, next, s, first) && Holds(p, next, Fold(next, s, first, |first|), rest)
  {
    var run, n, t := first + rest, |first|, Fold(next, s, first, |first|);
    forall i | 0 <= i < n ensures HoldsAt(p, next, s, run, i) <==> HoldsAt(p, next, s, first, i) {
      SamePrefix(next, s, first, run, i);
    }
    forall i | 0 <= i < |rest| ensures HoldsAt(p, next, s, run, n + i) <==> HoldsAt(p, next, t, rest, i) {
      FoldSplit(next, s, first, rest, i);
    }
    if Holds(p, next, s, first) && Holds(p, next, t, rest) {
      forall i | 0 <= i < |run| ensures HoldsAt(p, next, s, run, i) {
        assert i >= n ==> HoldsAt(p, next, t, rest, i - n);
      }
    }
  }

  lemma FoldExtend<S, D>(next: (S, D) -> S, s: S, run: seq<D>, d: D)
    ensures Fold(next, s, run + [d], |run| + 1) == next(Fold(next, s, run, |run|), d)
  {
    SamePrefix(next, s, run, run + [d], |run|);
  }

  /** One more step. */
  lemma Extend<S, D>(p: (S, D) -> bool, next: (S, D) -> S, s: S, run: seq<D>, d: D)
    requires Holds(p, next, s, run) && p(Fold(next, s, run, |run|), d)
    ensures Holds(p, next, s, run + [d])
  {
    var run' := run + [d];
    forall i | 0 <= i < |run'| ensures HoldsAt(p, next, s, run', i) {
      SamePrefix(next, s, run, run', i);
      assert i < |run| ==> HoldsAt(p, next, s, run, i);
    }
  }

  lemma {:induction false} MappedFold<S, D>(next: (S, D) -> S, f: S -> S, g: D -> D, s: S, run: seq<D>, run': seq<D>,
                                            n: nat)
    requires n <= |run| == |run'| && forall i | 0 <= i < |run| :: run'[i] == g(run[i])
    requires forall t, d :: next(f(t), g(d)) == f(next(t, d))
    ensures Fold(next, f(s), run', n) == f(Fold(next, s, run, n))
  {
    if n > 0 {
      MappedFold(next, f, g, s, run, run', n - 1);
    }
  }

  /** A run is in order if and only if its image is, for images that steps respect. */
  lemma Mapped<S, D>(p: (S, D) -> bool, p': (S, D) -> bool, next: (S, D) -> S, f: S -> S, g: D -> D, s: S, run: seq<D>,
                     run': seq<D>)
    requires |run| == |run'| && forall i | 0 <= i < |run| :: run'[i] == g(run[i])
    requires forall t, d :: next(f(t), g(d)) == f(next(t, d))
    requires forall t, d :: p(t, d) <==> p'(f(t), g(d))
    ensures Holds(p, next, s, run) <==> Holds(p', next, f(s), run')
  {
    forall i | 0 <= i < |run| ensures HoldsAt(p, next, s, run, i) <==> HoldsAt(p', next, f(s), run', i) {
      MappedFold(next, f, g, s, run, run', i);
    }
  }
}
