/** Outcomes of the backup tool's operations: a value, or the Python
    exception the tool raises at that point. */
module Outcomes {

  datatype Option<+T> = None | Some(value: T)

  /** The exceptions the core raises, named after their Python classes. */
  datatype Fault =
    | KeyError(key: string)
    | TypeError(message: string)
    | ZeroDivisionError
    | NotImplementedError(message: string)
    | UnboundLocalError(variable: string)

  datatype Result<+T> = Ok(value: T) | Err(fault: Fault)
}
