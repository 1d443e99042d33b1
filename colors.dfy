/**
 * Values shared by the colour-math functions of calculate_contrast.py:
 * an RGB triple, the errors the Python functions raise, and a
 * failure-compatible result type for them.
 */
module Colors {

  /** An sRGB colour as the Python code passes it around: a triple of ints.
      Nothing forces the channels into [0, 255]; `InGamut` says when they are. */
  datatype Rgb = Rgb(r: int, g: int, b: int)

  /** All three channels are 8-bit values. */
  predicate InGamut(c: Rgb)
  {
    0 <= c.r <= 255 && 0 <= c.g <= 255 && 0 <= c.b <= 255
  }

  function Min(a: int, b: int): int
  {
    if a <= b then a else b
  }

  function Max(a: int, b: int): int
  {
    if a <= b then b else a
  }

  function MinReal(a: real, b: real): real
  {
    if a <= b then a else b
  }

  function MaxReal(a: real, b: real): real
  {
    if a <= b then b else a
  }

  const Black: Rgb := Rgb(0, 0, 0)
  const White: Rgb := Rgb(255, 255, 255)

  /** The two exceptions the colour math can raise.  `ValueError` carries the
      literal that `int(_, 16)` refused, as Python's message does. */
  datatype Error =
    | ValueError(literal: string)
    | ZeroDivisionError

  /** Either a value or the exception that aborted the computation. */
  datatype Result<+T> = Success(value: T) | Failure(error: Error) {

    predicate IsFailure()
    {
      Failure?
    }

    function PropagateFailure<U>(): Result<U>
      requires Failure?
    {
      Failure(error)
    }

    function Extract(): T
      requires Success?
    {
      value
    }
  }
}
