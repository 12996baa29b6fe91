/** Failure-compatible wrappers shared by every stage of the pipeline.
    `Option` models an optional dictionary entry; `Result` models a stage
    that either returns a value or raises one of the exceptions the Python
    code can raise while reading its dictionaries. */
module Wrappers {

  datatype Option<+T> = None | Some(value: T) {
    function GetOr(default: T): T {
      match this
      case Some(v) => v
      case None => default
    }
  }

  /** The exceptions a pipeline stage can raise. */
  datatype Error =
    | KeyError(key: string)          // a required dictionary key is missing
    | ZeroDivision                   // a division by a zero speed factor
    | NotFound(what: string)         // an unknown character, animation or rig

  datatype Result<+T> = Ok(value: T) | Err(error: Error) {
    predicate IsFailure() {
      Err?
    }

    function PropagateFailure<U>(): Result<U>
      requires Err?
    {
      Err(error)
    }

    function Extract(): T
      requires Ok?
    {
      value
    }
  }
}
