/** Outcomes of the operations of the rover program.
    Every exception the program raises (ValueError, and the IndexError a
    too-short start string can raise) ends the whole call with no partial
    result, so a single failure value is enough. */
module Outcomes {

  /** The value of a call that returned, or the ValueError it raised. */
  datatype Result<T> = Ok(value: T) | Fail

  /** A value that may be missing, e.g. the item of a blank input line. */
  datatype Option<T> = None | Some(value: T)
}
