/** Error values that the non-throwing claim path returns (include/disruptor/Error.h),
    and the `std::expected<T, Error>` shape those operations return. */
module Errors {

  /** The three error categories a caller can receive. */
  datatype ErrorCode = InsufficientCapacity | InvalidArgument | RuntimeError

  /** A code plus a human-readable message; `Error(c, m)` is the struct constructor. */
  datatype Error = Error(code: ErrorCode, message: string)

  /** `std::expected<T, Error>`: a value, or the error that prevented it. */
  datatype Result<+T> = Success(value: T) | Failure(error: Error)

  /** Message carried by every capacity error. */
  const InsufficientCapacityMessage: string := "InsufficientCapacityException"

  /** `Error::insufficient_capacity()`: a non-blocking claim found no room. */
  function InsufficientCapacityError(): (e: Error)
    ensures e.code == InsufficientCapacity
    ensures e.message == InsufficientCapacityMessage
  {
    Error(InsufficientCapacity, InsufficientCapacityMessage)
  }

  /** `Error::invalid_argument(msg)`: the caller passed a bad argument. */
  function InvalidArgumentError(msg: string): (e: Error)
    ensures e.code == InvalidArgument
    ensures e.message == msg
  {
    Error(InvalidArgument, msg)
  }

  /** `Error::runtime_error(msg)`: any other failure. */
  function RuntimeFailure(msg: string): (e: Error)
    ensures e.code == RuntimeError
    ensures e.message == msg
  {
    Error(RuntimeError, msg)
  }

  /** The constructor keeps exactly what it is given. */
  lemma ErrorKeepsCodeAndMessage(c: ErrorCode, msg: string)
    ensures Error(c, msg).code == c && Error(c, msg).message == msg
  {
  }

  /** Each factory has a code of its own, so a caller can tell the three kinds of
      failure apart by code alone, whatever the messages. */
  lemma FactoryCodesDiffer(m1: string, m2: string)
    ensures InvalidArgumentError(m1).code != RuntimeFailure(m2).code
    ensures InvalidArgumentError(m1).code != InsufficientCapacityError().code
    ensures RuntimeFailure(m1).code != InsufficientCapacityError().code
  {
  }
}
