/** Runs of a step function. */
module Runs {

  /** The state after the actions, one step each. */
  function Steps<S, A>(step: (S, A) -> S, s: S, actions: seq<A>): S
    decreases |actions|
  {
    if actions == [] then s else Steps(step, step(s, actions[0]), actions[1..])
  }

  lemma {:induction false} StepsSum<S, A>(step: (S, A) -> S, s: S, a: seq<A>, b: seq<A>)
    ensures Steps(step, s, a + b) == Steps(step, Steps(step, s, a), b)
    decreases |a|
  {
    if a == [] {
      assert a + b == b;
    } else {
      assert (a + b)[1..] == a[1..] + b;
      StepsSum(step, step(s, a[0]), a[1..], b);
    }
  }

  lemma OneStep<S, A>(step: (S, A) -> S, s: S, a: A)
    ensures Steps(step, s, [a]) == step(s, a)
  {
    assert Steps(step, s, [a]) == Steps(step, step(s, a), []);
  }

  lemma TwoSteps<S, A>(step: (S, A) -> S, s: S, a: A, b: A)
    ensures Steps(step, s, [a, b]) == step(step(s, a), b)
  {
    assert Steps(step, s, [a, b]) == Steps(step, step(s, a), [b]);
    OneStep(step, step(s, a), b);
  }

  lemma ThreeSteps<S, A>(step: (S, A) -> S, s: S, a: A, b: A, c: A)
    ensures Steps(step, s, [a, b, c]) == step(step(step(s, a), b), c)
  {
    assert Steps(step, s, [a, b, c]) == Steps(step, step(s, a), [b, c]);
    TwoSteps(step, step(s, a), b, c);
  }

  lemma FourSteps<S, A>(step: (S, A) -> S, s: S, a: A, b: A, c: A, d: A)
    ensures Steps(step, s, [a, b, c, d]) == step(step(step(step(s, a), b), c), d)
  {
    assert Steps(step, s, [a, b, c, d]) == Steps(step, step(s, a), [b, c, d]);
    ThreeSteps(step, step(s, a), b, c, d);
  }

  lemma FiveSteps<S, A>(step: (S, A) -> S, s: S, a: A, b: A, c: A, d: A, e: A)
    ensures Steps(step, s, [a, b, c, d, e]) == step(step(step(step(step(s, a), b), c), d), e)
  {
    assert Steps(step, s, [a, b, c, d, e]) == Steps(step, step(s, a), [b, c, d, e]);
    FourSteps(step, step(s, a), b, c, d, e);
  }

  lemma SixSteps<S, A>(step: (S, A) -> S, s: S, a: A, b: A, c: A, d: A, e: A, f: A)
    ensures Steps(step, s, [a, b, c, d, e, f]) == step(step(step(step(step(step(s, a), b), c), d), e), f)
  {
    assert Steps(step, s, [a, b, c, d, e, f]) == Steps(step, step(s, a), [b, c, d, e, f]);
    FiveSteps(step, step(s, a), b, c, d, e, f);
  }
}
