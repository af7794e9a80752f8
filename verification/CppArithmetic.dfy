/**
 The C++ integer operations the agent relies on where they differ from mathematical integers:
 unsigned 32-bit wrap-around, division that truncates toward zero, and the cast back to `int`.
 */
module CppArithmetic {

  const U32: int := 0x1_0000_0000

  /** Conversion to `unsigned int`: reduction modulo 2^32. */
  function Wrap32(x: int): nat {
    x % U32
  }

  /** `static_cast<int>` of an `unsigned int`. */
  function ToInt32(u: nat): int {
    if u < 0x8000_0000 then u else u - U32
  }

  /** The C++ `/` on signed operands, for a positive divisor. */
  function TruncDiv(a: int, b: int): int
    requires b > 0
  {
    if a >= 0 then a / b else -(-a / b)
  }

}
