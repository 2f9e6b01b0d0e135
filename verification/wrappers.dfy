/** The failure-carrying wrappers the decoder returns: a reading that may be
    absent, and a frame that may be rejected. */
module Wrappers {

  /** A reading that was published (Some) or skipped (None). */
  datatype Option<+T> = None | Some(value: T)

  /** A decode that succeeded or a frame that was rejected with a reason. */
  datatype Result<+T, +E> = Ok(value: T) | Err(error: E)
}
