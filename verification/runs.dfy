/** Runs of a transition system, given by its step; `None` where a step is not possible. */
module Runs {
  import opened Options

  ghost predicate Valid<S, E>(step: (S, E) -> Option<S>, s: S, es: seq<E>)
    decreases |es|
  {
    es == [] || (step(s, es[0]).Some? && Valid(step, step(s, es[0]).value, es[1..]))
  }

  /** The state after the run. */
  ghost function End<S, E>(step: (S, E) -> Option<S>, s: S, es: seq<E>): S
    requires Valid(step, s, es)
    decreases |es|
  {
    if es == [] then s else End(step, step(s, es[0]).value, es[1..])
  }

  /** What every step keeps, every run keeps. */
  lemma {:induction false} EndKeeps<S, E>(step: (S, E) -> Option<S>, inv: S -> bool, s: S, es: seq<E>)
    requires inv(s) && Valid(step, s, es)
    requires forall x, e | inv(x) && step(x, e).Some? :: inv(step(x, e).value)
    ensures inv(End(step, s, es))
    decreases |es|
  {
    if es != [] {
      EndKeeps(step, inv, step(s, es[0]).value, es[1..]);
    }
  }
}
