/** Small value types shared by every module of the attendance ledger model. */
module Common {

  datatype Option<T> = None | Some(value: T)

  datatype Result<T, E> = Success(value: T) | Failure(error: E)

  /** A request field or query parameter as a handler sees it: not supplied,
      supplied but not convertible (an `int(...)` or `date.fromisoformat(...)`
      that raises), or supplied and converted. */
  datatype Field<T> = Absent | Malformed | Given(value: T)
}
