/** Wrappers shared by the model: `Option` stands for a Go pointer that may be
    nil (or a value that may be absent), `Result` for Go's `(value, error)` pair. */
module Wrappers {

  datatype Option<+T> = None | Some(value: T)

  datatype Result<+T, +E> = Ok(value: T) | Err(error: E)
}
