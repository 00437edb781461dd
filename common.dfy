/** Small value types shared by every module of the model. */
module Common {

  /** A value that may be absent: the source's `undefined` / `null`. */
  datatype Option<+T> = None | Some(value: T) {

    /** The source's `x ?? fallback`. */
    function GetOr(fallback: T): T {
      if Some? then value else fallback
    }
  }

  /** How an awaited call into code outside the model settles: it resolves, or it rejects with an error message. */
  datatype Outcome = Resolved | Rejected(message: string)

  function Min(a: int, b: int): int {
    if a <= b then a else b
  }

  function Max(a: int, b: int): int {
    if a >= b then a else b
  }
}
