/** Failure-compatible wrappers shared by the model: PHP's `null` returns become
    `Option`, thrown exceptions become the `Failure` side of a `Result`. */
module Wrappers {

  datatype Option<+T> = None | Some(value: T)

  /** `Failure(message)` stands for an exception whose message is `message`. */
  datatype Result<+R> = Success(value: R) | Failure(message: string)
}
