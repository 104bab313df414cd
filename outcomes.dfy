/** Results and the Python exceptions the ETL steps can raise. */
module Outcomes {

  datatype Option<T> = None | Some(value: T)

  /** The exceptions pandas and Python raise in the modelled steps. */
  datatype EtlError =
    | KeyError(column: string)                 // a column label that is not in the frame
    | LengthMismatch(expected: nat, got: nat)  // `df.columns = [...]` with the wrong length
    | TypeError                                // `re.split` given a cell that is not a string
    | AttributeError                           // `.split()` called on a cell that is not a string
    | IndexError                               // `.split()[0]` on a blank string

  datatype Result<T> = Ok(value: T) | Err(error: EtlError)
}
