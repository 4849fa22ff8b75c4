/** Failure-carrying values. Go returns `(value, error)`; an `error` is
    represented by its `Error()` text. */
module Wrappers {

  datatype Option<+T> = None | Some(value: T)

  /** A value or the text of the error that prevented it. */
  datatype Result<+T> = Ok(value: T) | Err(msg: string)

  /** What a routine did: finished, returned an error to its caller, or
      ended the whole process through `log.Fatal`. */
  datatype Outcome = Done | Failed(msg: string) | Fatal(msg: string)
}
