/** Runs of a step machine: a state, a step function, and a sequence of steps. */
module Runs {
  function Fold<S, E>(next: (S, E) -> S, s: S, steps: seq<E>): S {
    if steps == [] then s else next(Fold(next, s, steps[..|steps| - 1]), steps[|steps| - 1])
  }

  /** `ok` holds of every step at the state it is taken from. */
  predicate AllAlong<S, E>(next: (S, E) -> S, ok: (S, E) -> bool, s: S, steps: seq<E>) {
    steps == [] ||
    (AllAlong(next, ok, s, steps[..|steps| - 1])
     && ok(Fold(next, s, steps[..|steps| - 1]), steps[|steps| - 1]))
  }

  lemma {:induction false} FoldConcat<S, E>(next: (S, E) -> S, ok: (S, E) -> bool, s: S, xs: seq<E>, ys: seq<E>)
    ensures Fold(next, s, xs + ys) == Fold(next, Fold(next, s, xs), ys)
    ensures AllAlong(next, ok, s, xs + ys) ==
            (AllAlong(next, ok, s, xs) && AllAlong(next, ok, Fold(next, s, xs), ys))
  {
    if ys == [] {
      assert xs + ys == xs;
    } else {
      var n := |ys| - 1;
      FoldConcat(next, ok, s, xs, ys[..n]);
      assert (xs + ys)[..|xs| + n] == xs + ys[..n];
    }
  }

  /** The same run, read from the front. */
  lemma FoldFront<S, E>(next: (S, E) -> S, s: S, steps: seq<E>)
    requires steps != []
    ensures Fold(next, s, steps) == Fold(next, next(s, steps[0]), steps[1..])
  {
    FoldConcat(next, (_, _) => true, s, steps[..1], steps[1..]);
    assert steps == steps[..1] + steps[1..];
    assert Fold(next, s, steps[..1][..0]) == s;
  }

  /** One more step. */
  lemma FoldSnoc<S, E>(next: (S, E) -> S, s: S, steps: seq<E>, e: E)
    ensures Fold(next, s, steps + [e]) == next(Fold(next, s, steps), e)
  {
    assert (steps + [e])[..|steps|] == steps;
  }
}
