/** Results of calls into collaborators whose code is not part of this model
    (Key Vault, Blob Storage, PostgreSQL, Service Bus, the process environment).
    A Python exception raised by such a call becomes a failure carrying the
    exception's message, `str(e)`. */
module Outcomes {

  /** A value that may be absent, as Python's `None`. */
  datatype Option<+T> = None | Some(value: T)

  /** A call that returns a value or raises. */
  datatype Result<+T> = Ok(value: T) | Err(message: string)

  /** A call that returns nothing or raises. */
  datatype Outcome = Pass | Fail(message: string)
}
