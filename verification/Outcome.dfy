/** Status codes and results, as the C functions return them. */
module Outcome {
  datatype Status = InvalidArgument | InvalidConfig | InvalidUtf8

  datatype Result<+T> = Success(value: T) | Failure(status: Status)
}
