/** Types shared by every component. */
module Common {

  datatype Option<+T> = None | Some(value: T)

  datatype Result<+T, +E> = Ok(value: T) | Err(error: E) {
    function ToOption(): Option<T> {
      if Ok? then Some(value) else None
    }
  }

  /** Points on the daemon's clock, in nanoseconds. */
  type Time = int

  /** What a client's request is known by: its id, and the nonce that only its sender knows. */
  datatype Correlation = Correlation(requestID: string, nonce: string)
}
