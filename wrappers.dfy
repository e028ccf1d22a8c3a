/** Option and Result values, standing for Python's `None` and for an
    exception that escapes the route, and the exceptions themselves. */
module Wrappers {

  datatype Option<+T> = None | Some(value: T) {
    /** `x if x is not None else default`, as `dict.get(key, default)` gives. */
    function GetOr(default: T): T {
      match this
      case Some(v) => v
      case None => default
    }
  }

  datatype Result<+T, +E> = Ok(value: T) | Err(error: E)

  /** The Python exceptions of the model. `TypeError`, `IndexError` and
      `OverflowError` are raised by the route itself or escape from the
      timestamp parser; `ValueError` (with its subclasses, the parser's own
      error among them) is only ever a parser outcome, which `parse_time`
      catches and turns into a missing time. */
  datatype Exception = ValueError | TypeError | IndexError | OverflowError
}
