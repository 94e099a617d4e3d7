/** The outcome of an operation that the source lets raise an exception. */
module Results {

  datatype Result<T, E> = Ok(value: T) | Err(error: E)

  /** A Python variable that may be left unset (`None`). */
  datatype Option<T> = None | Some(value: T)

  /** The exceptions the modelled pipeline can raise. */
  datatype Failure =
    | UnparseableDate(text: string)   // pd.to_datetime(..., format="%m/%d/%Y") rejects a value
    | NothingToConcatenate            // np.concatenate called on zero arrays
    | IndexOutOfRange                 // a Python list indexed past its end
}
