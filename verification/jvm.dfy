/** Java value types the fee-payment core works with, written out explicitly
    so that widths, nulls and thrown exceptions are visible in the model. */
module Jvm {

  /** Java `long`: a signed 64-bit integer. */
  newtype Long = x: int | -0x8000_0000_0000_0000 <= x < 0x8000_0000_0000_0000

  /** Java `byte`: a signed 8-bit integer. */
  newtype Byte = x: int | -128 <= x < 128

  /** Java `double`. The core only stores and copies it, so it is kept as its
      64 IEEE 754 bits with no arithmetic. */
  datatype Double = Double(bits: bv64)

  /** java.time.LocalDateTime, only stored by the core. */
  datatype LocalDateTime = LocalDateTime(year: int, month: int, day: int,
                                         hour: int, minute: int, second: int, nano: int)

  /** A reference that may be null. */
  datatype Option<+T> = None | Some(value: T)

  /** A thrown exception. Only the checked `StatusException` of the node client
      is told apart from every other kind, because only it is caught by type. */
  datatype Exception =
    | StatusException(message: string)
    | Exception(message: string)

  /** The outcome of a Java call: a returned value or a thrown exception. */
  datatype Result<+T> = Success(value: T) | Failure(error: Exception)
}
