/** Failure-compatible wrappers shared by the model: optional values, the
    exceptions the container raises, and the outcome of a call that may
    raise or return after a warning. */
module Outcomes {

  datatype Option<+T> = None | Some(value: T)

  /** The exceptions of `pvpltools/dataplusmeta.py`, and the failures of the
      collaborators it calls (yaml loader, csv parser, date parser). */
  datatype Error =
    | RuntimeError(message: string)   // raise RuntimeError(message)
    | KeyError(column: string)         // data[col] on a missing column
    | IndexError                      // data.columns[0] on a frame without columns
    | ParseError(section: nat)        // the yaml or csv parser rejected a section
    | DateParseError(column: string)   // pd.to_datetime rejected a column

  datatype Result<+T> = Ok(value: T) | Err(error: Error)

  /** What a method of the container does: raise, or return a value, having
      possibly sent one message to Python's `warnings` channel. */
  datatype Outcome<+T> = Return(value: T, warning: Option<string>) | Raise(error: Error)
}
