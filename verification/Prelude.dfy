/** Small shared vocabulary: optional values, fallible results and octets. */
module Prelude {

  datatype Option<+T> = None | Some(value: T)

  /** The outcome of an operation that returns an error; the error text is not modelled. */
  datatype Result<+T> = Ok(value: T) | Err

  type byte = x: int | 0 <= x < 256

  type Bytes = seq<byte>
}
