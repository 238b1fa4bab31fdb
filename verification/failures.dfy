/** The ways `_to_column_format` can stop with an exception, a result type
    for the operations that may raise one, and an option type. */
module Failures {

  /** One variant per exception the encoder can raise. */
  datatype Error =
    /** `Exception("Not known colour %d,%d,%d")`: a pixel in `cmyk` mode that is
        not one of the eight exact primaries. */
    | UnknownColour(r: int, g: int, b: int)
      /** `Exception("Not known colour mode")`. */
    | UnknownColourMode
      /** `Exception('not known printer')`. */
    | UnknownPrinter
      /** `struct.error`: a value packed with `<B` or `<H` is out of range. */
    | PackRange
      /** `AssertionError`: a slice does not hold `height * line_height` bytes. */
    | SliceLength

  /** The value of an operation, or the exception it raised. */
  datatype Result<T> = Ok(value: T) | Err(error: Error)

  /** A value, or nothing: what the command decoder returns. */
  datatype Option<T> = None | Some(value: T)
}
