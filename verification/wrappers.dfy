/** Option and Result values, and the exceptions the helpers in const.py raise. */
module Wrappers {

  /** Python's `None` or a present value. */
  datatype Option<+T> = None | Some(value: T)

  /** A value, or the exception the Python code would raise instead. */
  datatype Result<+R, +E> = Success(value: R) | Failure(error: E)

  /** The two exception kinds raised by const.py. */
  datatype Error =
    | ValueError(message: string)
    | KeyError(key: real)

  /** Message of the ValueError raised by `round_by_part` for a non-positive part. */
  const PartNotPositive: string := "Part must be greater than zero"

  /** Message of the ValueError raised by `get_wind_direction` for an angle outside [0, 360]. */
  const AngleOutOfRange: string := "Angle should be in [0; 360] range"
}
