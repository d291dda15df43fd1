/** Failure-compatible wrappers and the error taxonomy of the profile resolver.
    Every `panic!`, `unwrap` and `expect` on the modelled paths becomes an `Err`. */
module Wrappers {

  datatype Option<+T> = None | Some(value: T) {

    /** The wrapped value, or `default` when there is none (Rust's `unwrap_or`). */
    function GetOr(default: T): T {
      match this
      case Some(v) => v
      case None => default
    }
  }

  /** Why an operation on profiles gave up. */
  datatype Error =
    | ProfileNotFound(name: string)        // no such profile file, or not in the listing
    | InvalidProfileFormat(name: string)   // the file does not parse into the shape asked for
    | UnknownProfileKind(kind: string)     // the `kind` tag names no supported endpoint
    | CyclicInheritance(name: string)      // `name` is already being expanded (added check)
    | InvalidConfig                        // config.json exists but does not parse
    | ConfigWriteFailed                    // config.json cannot be written (no directory)

  datatype Result<+T> = Ok(value: T) | Err(error: Error) {

    predicate IsFailure() {
      Err?
    }

    function PropagateFailure<U>(): Result<U>
      requires Err?
    {
      Err(error)
    }

    function Extract(): T
      requires Ok?
    {
      value
    }
  }
}
