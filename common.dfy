/** Outcome types shared by the whole model: Python exceptions become `Err` values. */
module Common {

  /** The exceptions the pipeline can raise. */
  datatype Error =
    | ValueError(message: string)   // float() on a malformed literal, or an unknown detection method
    | KeyError(missing: seq<int>)   // DataFrame.drop with labels that are not in the index

  datatype Option<T> = None | Some(value: T)

  datatype Result<T> = Ok(value: T) | Err(error: Error)
}
