/** Failure-carrying results shared by the spatial and page-view models. */
module Outcomes {

  /** A value that may be absent; `None` stands for a Java `null`. */
  datatype Option<+T> = None | Some(value: T)

  /** A value, or the exception that the Java code would throw instead. */
  datatype Result<+T, +E> = Success(value: T) | Failure(error: E)
}
