/** Types and predicates that several modules share. */
module Results {
  datatype Option<+T> = None | Some(value: T)

  /** What a kernel function returns, unless it panics. */
  datatype Outcome<+T, +R> = Ok(value: T) | Panic(why: R)

  predicate Distinct(s: seq<nat>) {
    forall i, j | 0 <= i < j < |s| :: s[i] != s[j]
  }
}
