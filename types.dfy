/** Values shared by the connection and the cache: raw bytes, the errors the
    core returns, and the Option/Result wrappers that stand for Go's
    `(value, error)` pairs. */
module Types {

  /** One byte of a Go `[]byte`. */
  newtype byte = x: int | 0 <= x < 0x100

  /** Byte data, as an immutable value (Go slices are modelled without aliasing). */
  type Bytes = seq<byte>

  /** The line terminator '\n'. */
  const LF: byte := 10

  /** The error values the core can return. Errors the core only passes
      through are kept abstract. */
  datatype Error =
    | ReadDeadlineExceeded        // os.ErrDeadlineExceeded: a read deadline expired
    | Canceled                    // context.Canceled
    | ContextDeadlineExceeded     // context.DeadlineExceeded
    | EndOfStream                 // io.EOF
    | KeyNotFound(key: Bytes)     // the cache's "key not found" error, carrying the key
    | Transport(code: nat)        // any other error raised by the network stack

  /** A Go `error` that may be nil: None is nil. */
  datatype Option<T> = None | Some(value: T)

  /** A Go `([]byte, error)` pair in which exactly one side is meaningful. */
  datatype Result<T> = Ok(value: T) | Err(error: Error)
}
