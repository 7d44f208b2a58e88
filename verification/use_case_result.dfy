/** The uniform `{ success, data?, error? }` shape every use case returns. */
module UseCaseResults {
  import opened Outcomes

  datatype UseCaseResult<+T> = UseCaseResult(success: bool, data: Option<T>, error: Option<string>)

  /** A success carries data and no error; a failure carries an error and no data. */
  predicate WellFormed<T>(r: UseCaseResult<T>) {
    if r.success then r.data.Some? && r.error.None? else r.data.None? && r.error.Some?
  }

  /** Reads back the repository outcome a well-formed result reports. */
  function Reported<T>(r: UseCaseResult<T>): Outcome<T>
    requires WellFormed(r)
  {
    if r.success then Ok(r.data.value) else Err(r.error.value)
  }

  /**
   * The try/catch of a use case: a resolved repository call becomes a success
   * holding its value, a thrown one a failure holding its message. Nothing
   * escapes, and nothing about the outcome is lost.
   */
  function Settle<T>(o: Outcome<T>): (r: UseCaseResult<T>)
    ensures WellFormed(r)
    ensures Reported(r) == o
  {
    match o
    case Ok(v) => UseCaseResult(true, Some(v), None)
    case Err(m) => UseCaseResult(false, None, Some(m))
  }
}
