/** Failure-carrying datatypes shared by the whole model, and the shape of a
    raised Python exception. */
module Wrappers {

  /** The conventional Some/None datatype. */
  datatype Option<+T> = None | Some(value: T)

  /** Either a value or the error the operation raised. */
  datatype Result<+R, +E> = Success(value: R) | Failure(error: E)

  /** The triple `sys.exc_info()` reports for a raised exception:
      its type, its value and its traceback. */
  datatype ExcInfo = ExcInfo(kind: string, message: string, traceback: seq<string>)

  /** How a call into code outside the model ended: it returned a value or it
      raised an exception. */
  datatype Outcome<+T> = Returned(value: T) | Raised(exc: ExcInfo)

  /** A plain Python value as it appears in scenario arguments and object
      attributes. */
  datatype Value = Int(i: int) | Str(s: string) | Bool(b: bool)
}
