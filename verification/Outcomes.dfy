/** Results of a guest session and of a whole transaction. */
module Outcomes {

  datatype Option<+T> = None | Some(value: T)

  /** `Exit` is a guest halting with a code, `Panic` a failed assertion, `Refused` the native program
      turning a payment down, and `Foreign` a call into a program this project does not model. */
  datatype Outcome<+T> = Done(value: T) | Exit(code: nat) | Panic | Refused | Foreign {

    predicate IsFailure() {
      !Done?
    }

    function PropagateFailure<U>(): Outcome<U>
      requires !Done?
    {
      match this
      case Exit(code) => Exit(code)
      case Panic => Panic
      case Refused => Refused
      case Foreign => Foreign
    }

    function Extract(): T
      requires Done?
    {
      value
    }
  }

  const EXIT_STALE_CLOCK := 10
  const EXIT_CLOCK_NOT_INITIALIZED := 11
  const EXIT_STALE_CONFIG := 12
  const EXIT_RATE_LIMIT_FULL := 13
  const EXIT_MEMBERSHIP_EXISTS := 14
  const EXIT_MEMBERSHIP_MISSING := 15
  const EXIT_STALE_RATE_LIMIT := 16
  const EXIT_NOT_IN_GRACE_PERIOD := 17
  const EXIT_NOT_EXPIRED := 18
  const EXIT_LEAF_MISMATCH := 19
  const EXIT_TREE_FULL := 20

  /** Both commit, or both fail in the same way. */
  ghost predicate SameOutcome<T, U>(a: Outcome<T>, b: Outcome<U>) {
    match a
    case Done(_) => b.Done?
    case Exit(code) => b == Exit(code)
    case Panic => b.Panic?
    case Refused => b.Refused?
    case Foreign => b.Foreign?
  }
}
