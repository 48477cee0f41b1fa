/** Runs of a step function over a sequence of actions. */
module Folds {

  function FoldLeft<S, A>(s: S, step: (S, A) -> S, actions: seq<A>): S {
    if actions == [] then s
    else step(FoldLeft(s, step, actions[..|actions| - 1]), actions[|actions| - 1])
  }

  lemma FoldPush<S, A>(s: S, step: (S, A) -> S, actions: seq<A>, action: A)
    ensures FoldLeft(s, step, actions + [action]) == step(FoldLeft(s, step, actions), action)
  {
    assert (actions + [action])[..|actions|] == actions;
  }

  lemma {:induction false} FoldConcat<S, A>(s: S, step: (S, A) -> S, a: seq<A>, b: seq<A>)
    ensures FoldLeft(s, step, a + b) == FoldLeft(FoldLeft(s, step, a), step, b)
  {
    if b == [] {
      assert a + b == a;
    } else {
      var front, action := b[..|b| - 1], b[|b| - 1];
      FoldConcat(s, step, a, front);
      FoldPush(s, step, a + front, action);
      assert a + b == a + front + [action];
    }
  }

  function Repeat<A>(action: A, n: nat): (actions: seq<A>)
    ensures |actions| == n
    ensures forall a | a in actions :: a == action
  {
    seq(n, _ => action)
  }

  /** The same action `n` times. */
  function Iterate<S, A>(s: S, step: (S, A) -> S, action: A, n: nat): S {
    if n == 0 then s else step(Iterate(s, step, action, n - 1), action)
  }

  lemma {:induction false} FoldRepeat<S, A>(s: S, step: (S, A) -> S, action: A, n: nat)
    ensures FoldLeft(s, step, Repeat(action, n)) == Iterate(s, step, action, n)
  {
    if n == 0 {
    } else {
      FoldRepeat(s, step, action, n - 1);
      FoldPush(s, step, Repeat(action, n - 1), action);
      assert Repeat(action, n) == Repeat(action, n - 1) + [action];
    }
  }

  lemma {:induction false} IterateAdd<S, A>(s: S, step: (S, A) -> S, action: A, m: nat, n: nat)
    ensures Iterate(s, step, action, m + n) == Iterate(Iterate(s, step, action, m), step, action, n)
  {
    if n == 0 {
    } else {
      IterateAdd(s, step, action, m, n - 1);
    }
  }
}
