/** The two wrapper types every module uses: an optional value (Python's `None`
    or a value) and the outcome of an operation that can raise. */
module Outcomes {

  datatype Option<+T> = None | Some(value: T)

  /** `Err` stands for the exception the source raises; `Ok` for the value it returns. */
  datatype Result<+T, +E> = Ok(value: T) | Err(error: E)
}
