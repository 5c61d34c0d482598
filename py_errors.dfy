/** Outcomes of the plugin's Python code: a value, or the exception that escapes. */
module PyErrors {

  /** The exceptions the modelled code can raise. */
  datatype PyError =
    | ValueError         // `int('')`, or `list.remove` of a callback that is not registered
    | OverflowError      // `datetime.timedelta(days=n)` with n beyond 999999999
    | IndexError         // `sref.split(":")[10:][0]` on a reference with fewer than eleven fields
    | ZeroDivisionError  // `p / self.duration` with a zero duration

  datatype Option<+T> = None | Some(value: T)

  datatype Result<+T> = Ok(value: T) | Raise(error: PyError)

  function Abs(x: int): (r: nat)
    ensures r == x || r == -x
  {
    if x < 0 then -x else x
  }

  function Max(a: int, b: int): (r: int)
    ensures r >= a && r >= b && (r == a || r == b)
  {
    if a < b then b else a
  }
}
