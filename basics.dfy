/** Small value types shared by the logger model. */
module Basics {

  /** One octet as read from the serial link. */
  newtype byte = b: int | 0 <= b < 256

  /** An optional value (Python's `None` or a value). */
  datatype Option<+T> = None | Some(value: T)

  /** A value or the error that stopped its computation (Python's exceptions). */
  datatype Result<+T, +E> = Ok(value: T) | Err(error: E)

  /** A local wall-clock reading (`datetime.now()`, `time.localtime()`), as integer fields. */
  datatype Clock = Clock(year: nat, month: nat, day: nat, hour: nat, minute: nat, second: nat)

  predicate ValidClock(c: Clock)
  {
    1 <= c.month <= 12 && 1 <= c.day <= 31 && c.hour < 24 && c.minute < 60 && c.second < 60
  }

  function Min(a: int, b: int): (r: int)
    ensures r <= a && r <= b && (r == a || r == b)
  {
    if a <= b then a else b
  }
}
