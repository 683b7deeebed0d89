/** Runs of state machines: a step function applied to any sequence of steps. */
module Runs {
  ghost function Run<S, T>(step: (S, T) -> S, s: S, steps: seq<T>): S
    decreases |steps|
  {
    if steps == [] then s else step(Run(step, s, steps[..|steps| - 1]), steps[|steps| - 1])
  }

  lemma Nothing<S, T>(step: (S, T) -> S, s: S)
    ensures Run(step, s, []) == s
  {
  }

  lemma OneMore<S, T>(step: (S, T) -> S, s: S, steps: seq<T>, t: T)
    ensures Run(step, s, steps + [t]) == step(Run(step, s, steps), t)
  {
    assert (steps + [t])[..|steps|] == steps;
  }

  /** What every step keeps, every run keeps. */
  lemma {:induction false} Keeps<S(!new), T(!new)>(step: (S, T) -> S, inv: S -> bool, s: S, steps: seq<T>)
    requires inv(s) && forall x, t :: inv(x) ==> inv(step(x, t))
    ensures inv(Run(step, s, steps))
    decreases |steps|
  {
    if steps != [] { Keeps(step, inv, s, steps[..|steps| - 1]); }
  }

  lemma {:induction false} Concat<S, T>(step: (S, T) -> S, s: S, first: seq<T>, second: seq<T>)
    ensures Run(step, s, first + second) == Run(step, Run(step, s, first), second)
    decreases |second|
  {
    if second == [] {
      assert first + second == first;
    } else {
      var n := |second| - 1;
      assert (first + second)[..|first + second| - 1] == first + second[..n];
      Concat(step, s, first, second[..n]);
    }
  }
}
