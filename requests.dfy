/** Value types shared by the controller and the cars: the two enums, the
    immutable floor request, and the two failures the simulator can raise. */
module Requests {

  /** Travel direction of a car or of a call; there are exactly two. */
  datatype Direction = Up | Down

  /** Operating state of a car. OutOfService is only ever set from outside
      the dispatch logic (by a raw setter), never by it. */
  datatype ElevatorState = Idle | Moving | OutOfService

  /** An external call: the floor it came from and the direction the caller
      wants to travel. A datatype value never changes, so a request keeps its
      floor and direction while it waits in the pending queue. */
  datatype FloorRequest = FloorRequest(floor: int, dir: Direction)

  /** The two exception types: an out-of-range floor argument, and a trip
      started on a car that is not idle. */
  datatype Failure = FloorRange | BadElevatorState

  /** Result of an operation that either completes or throws. */
  datatype Outcome = Pass | Fail(error: Failure)

  /** A value that may be absent (a null reference in the source). */
  datatype Option<T> = None | Some(value: T)

  /** Java's Integer.MAX_VALUE, the initial "best distance" of the selection. */
  const IntMax: int := 0x7fff_ffff

  /** Sentinel of the queued-target slot that means "no queued floor". */
  const NoFloor: int := -1

  function Max(a: int, b: int): (m: int)
    ensures m >= a && m >= b && (m == a || m == b)
  {
    if a >= b then a else b
  }

  function Min(a: int, b: int): (m: int)
    ensures m <= a && m <= b && (m == a || m == b)
  {
    if a <= b then a else b
  }
}
