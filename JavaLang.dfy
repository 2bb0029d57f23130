/**
 * The few pieces of the Java platform that the calorie tracker leans on:
 * the 32-bit `int`, nullable references, and the IllegalArgumentException
 * that every validator throws.
 */
module JavaLang {

  const MIN_INT: int := -0x8000_0000
  const MAX_INT: int := 0x7FFF_FFFF

  /** Java's `int`. */
  type Int32 = x: int | MIN_INT <= x <= MAX_INT

  /** A Java reference that may be `null`. */
  datatype Option<+T> = None | Some(value: T)

  /** `new IllegalArgumentException(message)`. */
  datatype IllegalArgument = IllegalArgument(message: string)

  /** The outcome of a Java call that either returns a value or throws. */
  datatype Result<+T> = Ok(value: T) | Err(error: IllegalArgument)

  /** The outcome of a `void` Java call that may throw. */
  datatype Outcome = Pass | Fail(error: IllegalArgument)
}
