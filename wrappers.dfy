/** Option and Result, the two failure-carrying shapes the model uses:
    a missing value (JavaScript `undefined`, `NaN`) and a store call that
    either yields its documents or throws an error with a message. */
module Wrappers {

  datatype Option<+T> = None | Some(value: T)

  /** The outcome of a call into the document store: its documents, or the
      `message` of the error it threw. */
  datatype Result<+T> = Ok(value: T) | Failure(message: string)
}
