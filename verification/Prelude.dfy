/** Small types shared by every other module. */
module Prelude {

  datatype Option<+T> = None | Some(value: T)

  datatype Result<+T, +E> = Ok(value: T) | Err(error: E)

  /** Points in time, in microseconds since the Unix epoch, UTC. */
  type Instant = int

  const SECOND: int := 1_000_000
  const DAY: int := 86_400 * SECOND

  /** The range of Python's datetime: 1 January of year 1 to the end of year 9999. */
  const FIRST_INSTANT: Instant := -719_162 * DAY
  const LAST_INSTANT: Instant := 2_932_897 * DAY - 1

  /** Outside it, adding a timedelta to a datetime raises OverflowError. */
  predicate Representable(t: Instant) {
    FIRST_INSTANT <= t <= LAST_INSTANT
  }

  lemma {:induction false} SubsetSize<T>(a: set<T>, b: set<T>)
    requires a <= b
    ensures |a| <= |b|
  {
    if a != {} {
      var x :| x in a;
      SubsetSize(a - {x}, b - {x});
    }
  }

  lemma Scaled(a: int, b: int, d: int)
    requires a <= b && d >= 0
    ensures a * d <= b * d
  {
  }
}
