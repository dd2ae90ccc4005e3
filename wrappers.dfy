/** Optional values and results with an error, as the planner returns them. */
module Wrappers {

  /** `None` stands for Python's `None`. */
  datatype Option<+T> = None | Some(value: T)

  /** `Failure` stands for an exception raised with a message. */
  datatype Result<+R> = Success(value: R) | Failure(error: string)
}
