/** What an engine operation produces: a value, or the error the engine raises. */
module Results {

  /** The checks after which the engine raises an error, one constructor per kind. */
  datatype Error =
    | InvalidPosition   // a row or column outside [0, size)
    | InvalidColor      // a colour that is neither Black nor White
    | OccupiedCell      // a placement onto a square that already holds a piece
    | EmptyCell         // a flip of a square that holds no piece
    | OddSize           // a board whose side length is odd
    | WrongPlayerCount  // a game that does not have exactly two players

  /** A value, or the error the engine would raise instead; `:-` propagates the error. */
  datatype Result<+T> = Success(value: T) | Failure(error: Error) {
    /** The engine raised: stop here. */
    predicate IsFailure() {
      Failure?
    }

    /** Passes the error on, under a different value type. */
    function PropagateFailure<U>(): (r: Result<U>)
      requires Failure?
    {
      Failure(error)
    }

    /** The value of a successful operation. */
    function Extract(): T
      requires Success?
    {
      value
    }
  }
}
