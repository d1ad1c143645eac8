/** Values shared by every part of the enrollment client. */
module Models {

  /** The artifacts handed back to the caller after a successful enrollment:
      the CA's request identifier and the base64 bodies of the leaf
      certificate and of the full chain, exactly as the CA sent them. */
  datatype Certificates = Certificates(id: string, certificateB64: string, certificateChainB64: string)

  /** The run-time faults the client can hit instead of returning. */
  datatype Fault =
    | IndexOutOfRange   // indexing the result of a regular expression that did not match
    | NilDereference    // reading a field of a response that was never received

  /** What one call produces: a value, an error carrying its message text,
      or a crash of the calling program. */
  datatype Outcome<+T> = Ok(value: T) | Err(message: string) | Crashed(fault: Fault)

  datatype Option<+T> = None | Some(value: T)

  lemma AppendAssoc<T>(a: seq<T>, b: seq<T>, c: seq<T>)
    ensures a + b + c == a + (b + c)
  {
  }
}
