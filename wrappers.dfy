/** Option and Result, the two failure-carrying shapes the model uses. */
module Wrappers {

  /** An optional argument: GraphQL's absent or null variable is `None`. */
  datatype Option<+T> = None | Some(value: T)

  /** The outcome of a resolver that either returns a value or throws. */
  datatype Result<+R, +E> = Success(value: R) | Failure(error: E)
}
