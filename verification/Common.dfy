/** Bytes, optional values and the error names shared by every component. */
module Common {
  type byte = b: int | 0 <= b < 256

  /** Go strings and byte slices are both sequences of bytes. */
  type Bytes = seq<byte>

  datatype Option<+T> = None | Some(value: T)

  datatype Result<+T, +E> = Success(value: T) | Failure(error: E)

  /** The sentinel errors of errors.go that the modelled code returns. */
  datatype Error =
    | Invalid
    | UnknownImage
    | Capacity
    | Conflict
    | Unavailable
    | Frozen
    | Revoked
    | Busy
    | Closed
    | NotFound
    | Lagged
    | TooLarge
    | Network
    | Cancelled
    | IO
}
