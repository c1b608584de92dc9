/** What can happen to one durable step of a program: it is done, it fails and leaves
    nothing, it fails although it took effect, or the process dies just before it.
    A run is driven by a schedule of fates, so a contract that holds for every schedule
    holds for a crash between any two steps. */
module Fates {

  datatype Fate = Done | Fails | FailsLate | Kill

  type Schedule = nat -> Fate

  /** The step took effect. */
  predicate Took(f: Fate) {
    f.Done? || f.FailsLate?
  }
}
