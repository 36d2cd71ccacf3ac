/** Option and Result carriers shared by every stage of the fetch pipeline. */
module Results {

  /** An optional value: an absent HTML attribute, a missing form, a failed date parse. */
  datatype Option<+T> = None | Some(value: T) {

    /** What the source reads as `attrs.get(name, fallback)`: the value when present,
        the fallback otherwise. */
    function ValueOr(fallback: T): T {
      if Some? then value else fallback
    }
  }

  /** A computation that either produced a value or failed with an error. */
  datatype Result<+T, +E> = Success(value: T) | Failure(error: E)
}
