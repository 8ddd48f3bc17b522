/** The two result types the service's signatures are written with. */
module Wrappers {

  datatype Option<+T> = None | Some(value: T)

  datatype Result<+T, +E> = Ok(value: T) | Err(error: E)

  /** The error taxonomy shared by the TPM and the TDX backend. */
  datatype Error = NotImplemented | InvalidInput | Internal
}
