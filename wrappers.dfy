/** Failure-compatible wrappers: an optional value (TypeScript's `T | undefined`)
    and a value-or-error result (a resolved or rejected promise). */
module Wrappers {

  datatype Option<+T> = None | Some(value: T)

  datatype Result<+R, +E> = Success(value: R) | Failure(error: E)
}
