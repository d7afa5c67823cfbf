/**
 Result plumbing shared by every operation of the store: an optional value,
 the error taxonomy the client reports, and the two result shapes its calls
 return (an error-only outcome, and a value-or-error result).
 */
module Common {

  datatype Option<+T> = None | Some(value: T)

  /** The errors a client call can report. */
  datatype Error =
    | TxInvalid              // Commit/End with a Tx that is not the active one
    | NotFound               // the row a Get or Update looks up is absent
    | Duplicate              // the mapper refuses a second row with the same key
    | Blocked                // Begin while another write unit holds the write lease
    | Backend(cause: string) // any failure reported by the storage engine

  /** What Insert, Update, Delete, Commit and End return: nil or an error. */
  datatype Outcome = Pass | Fail(error: Error)

  /** What Begin, GetForUpdate and Watch return: a value or an error. */
  datatype Result<+T> = Ok(value: T) | Err(error: Error)
}
