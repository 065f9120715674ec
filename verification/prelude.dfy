/** Small datatypes shared by every module. */
module Prelude {
  datatype Option<+T> = None | Some(value: T)

  datatype Result<+T, +E> = Ok(value: T) | Err(error: E)

  /** A growing record of steps, oldest innermost. */
  datatype Log<T> = NoSteps | Then(before: Log<T>, last: T)

  ghost predicate Extends<T>(before: seq<T>, after: seq<T>) {
    before <= after
  }
}
