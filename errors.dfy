/** The Python exceptions the modelled operations can raise, and the
    result shapes used to report them. */
module PyErrors {

  /** The exception classes raised by the nested mappings and the column store.
      `NestedKeyError` is the library's own exception class, distinct from
      `KeyError`; `ValueError` covers `str.split("")` and NumPy's shape errors. */
  datatype Error = KeyError | TypeError | IndexError | ValueError | NestedKeyError

  datatype Option<+T> = None | Some(value: T)

  /** The value an operation returns, or the exception it raises. */
  datatype Result<+T> = Ok(value: T) | Err(error: Error)

  /** The state left behind by an operation that mutates in place, together
      with the exception it raised, if any. The state is reported even when an
      exception is raised, because Python does not undo the mutations made
      before the `raise`. */
  datatype Outcome<+S> = Outcome(state: S, raised: Option<Error>)
}
