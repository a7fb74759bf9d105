/** Runs of step systems: sequences of actions, each possible where it is taken. */
module Runs {
  import opened Basics

  /** `can` says where an action is possible; `step` performs it, or is None if an assertion fails. */
  datatype System<!S, !A> = System(can: (S, A) -> bool, step: (S, A) -> Option<S>)

  /** Each action is possible where the ones before it lead. */
  ghost predicate Legal<S, A>(m: System<S, A>, s: S, run: seq<A>)
    decreases |run|
  {
    run == [] ||
    (m.can(s, run[0]) && (m.step(s, run[0]).Some? ==> Legal(m, m.step(s, run[0]).value, run[1..])))
  }

  /** Where a run leads; None if an assertion fails on the way. */
  function Exec<S, A>(m: System<S, A>, s: S, run: seq<A>): Option<S>
    decreases |run|
  {
    if run == [] then Some(s)
    else if m.step(s, run[0]).None? then None
    else Exec(m, m.step(s, run[0]).value, run[1..])
  }

  /** If every possible step succeeds and keeps `inv`, so does every legal run. */
  lemma {:induction false} RunKeeps<S(!new), A(!new)>(m: System<S, A>, inv: S -> bool, s: S, run: seq<A>)
    requires inv(s) && Legal(m, s, run)
    requires forall t, a | inv(t) && m.can(t, a) :: m.step(t, a).Some? && inv(m.step(t, a).value)
    ensures Exec(m, s, run).Some? && inv(Exec(m, s, run).value)
    decreases |run|
  {
    if run != [] {
      RunKeeps(m, inv, m.step(s, run[0]).value, run[1..]);
    }
  }
}
