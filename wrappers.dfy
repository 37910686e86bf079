/** Option and Result values standing in for Python's `None` and for the
    exceptions the modelled code can raise. */
module PyBase {

  datatype Option<T> = None | Some(value: T)

  /** The Python exceptions that the modelled code raises on bad input. */
  datatype PyError =
    | KeyError(key: string)          // dict lookup of a missing key
    | IndexError(id: int)              // `[...][0]` on an empty list
    | ValueError(text: string)         // `int(text)` on a non-numeric string
    | UnboundLocalError(name: string)  // a local read before any assignment

  datatype Result<T> = Ok(value: T) | Err(error: PyError)
}
