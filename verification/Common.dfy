/** Types shared by every service model. */
module Common {

  datatype Option<+T> = None | Some(value: T)

  datatype Result<+T, +E> = Ok(value: T) | Err(error: E)

  /** A point in time. Time 0 is the unset time, so that `IsZero` is a comparison with 0. */
  type Time = int

  const ZERO_TIME: Time := 0

  /** How one repository statement can end: it may fail before or after taking effect. */
  datatype Outcome = Done | NotApplied | AppliedThenLost
  {
    predicate Applied() { this != NotApplied }

    predicate Reported() { this == Done }
  }

  /** Adding a fresh element to a finite set, and taking one away, moves its size by one. */
  lemma CardAdd<T>(s: set<T>, x: T)
    requires x !in s
    ensures |s + {x}| == |s| + 1
  {
  }

  lemma {:induction false} CardSubset<T>(s: set<T>, r: set<T>)
    requires s <= r
    ensures |s| <= |r|
  {
    assert r == s + (r - s);
  }
}
