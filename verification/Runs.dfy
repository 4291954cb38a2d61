/** A run, oldest event first: what has happened so far, then the latest event. */
module Runs {

  datatype Run<+T> = Start | Then(before: Run<T>, last: T)
  {
    function Length(): nat {
      match this
      case Start => 0
      case Then(before, _) => before.Length() + 1
    }
  }

  /** The clock that each event reads never goes back. */
  ghost predicate NonDecreasing<T>(run: Run<T>, clock: T -> real) {
    match run
    case Start => true
    case Then(before, e) => NonDecreasing(before, clock) && (before.Then? ==> clock(before.last) <= clock(e))
  }
}
