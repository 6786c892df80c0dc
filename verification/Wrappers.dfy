// The values every other module uses: optional values, results and raw bytes.
module Wrappers {
  datatype Option<+T> = None | Some(value: T)

  type Bytes = seq<bv8>

  datatype Result<+T, +E> = Ok(value: T) | Err(error: E)
}
