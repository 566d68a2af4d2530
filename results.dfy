/** Error-carrying results: Go's `(value, error)` pairs. The error text is the
    fixed part of the message the source formats; wrapped operating-system
    errors are not modelled. */
module Results {

  datatype Result<+T> = Ok(value: T) | Err(msg: string)

  datatype Option<+T> = None | Some(value: T)
}
