/** Shared outcome types: a possibly missing cell value and the failures the pipeline can raise. */
module Base {

  /** A table cell that may be missing (a NaN / null in the data frame). */
  datatype Option<T> = None | Some(value: T)

  /** The failures the core raises: a column the input table does not have, or a year with no interest rate. */
  datatype Error = MissingColumn(column: string) | UnsupportedYear(year: int)

  datatype Result<T> = Ok(value: T) | Err(error: Error)
}
