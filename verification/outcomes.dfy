/** Outcome types shared by the converter model: an optional value (Python's
    `None` versus a value) and the exceptions the converter can raise. */
module Outcomes {

  datatype Option<T> = None | Some(value: T)

  /** The exceptions raised, directly or by Python's dict and list indexing. */
  datatype Error =
    | InvalidTarget(style: string)  // unknown conversion target
    | KeyError(key: string)         // a class token missing from a table
    | IndexError                    // a `2d_bbox` with fewer than four numbers
    | NotImplemented                // category table for the native style
    | FileError(path: string)       // a label file that cannot be opened or parsed

  datatype Result<T> = Success(value: T) | Failure(error: Error)
}
