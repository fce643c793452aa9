/** Optional values, error values and results shared by the whole model. */
module Wrappers {

  /** A value that may be absent; stands for a nil pointer or a zero value. */
  datatype Option<+T> = None | Some(value: T)

  /** An error value as Go returns it. `EOF` is io.EOF, the only error the
      transport compares against; every other error is opaque and only passed on. */
  datatype Error = EOF | Failure(message: string)

  /** The `(value, error)` pair of a Go function, with exactly one side present. */
  datatype Result<+T> = Ok(value: T) | Err(error: Error)
}
