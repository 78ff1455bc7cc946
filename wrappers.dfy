/** Option and Result: the model's stand-ins for `undefined`/`null` and for thrown errors. */
module Wrappers {

  /** An optional value: `None` models a JavaScript `undefined` or a SQL `NULL`. */
  datatype Option<+T> = None | Some(value: T) {

    /** The carried value, or `default` when there is none (the `??` operator). */
    function GetOr(default: T): T {
      match this
      case Some(v) => v
      case None => default
    }
  }

  /** The outcome of an operation that can throw: `Err` carries what was thrown. */
  datatype Result<+T, +E> = Ok(value: T) | Err(error: E)
}
