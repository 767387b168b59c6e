/** C integer arithmetic that Dafny's unbounded, Euclidean operators do not have. */
module CInt {
  type byte = x: int | 0 <= x < 256

  const U32: int := 0x1_0000_0000
  const INT_MAX: int := 0x7FFF_FFFF

  /** The conversion of an integer to a 32-bit int, wrapping. */
  function ToInt32(u: int): int {
    var w := u % U32;
    if w <= INT_MAX then w else w - U32
  }

  /** The one int congruent to u modulo 2^32; u itself exactly if u is an int. */
  lemma ToInt32Exactness(u: int)
    ensures -0x8000_0000 <= ToInt32(u) < 0x8000_0000 && (u - ToInt32(u)) % 0x1_0000_0000 == 0
    ensures ToInt32(u) == u <==> -0x8000_0000 <= u < 0x8000_0000
  {}

  /** `/`: truncation toward zero. */
  function TruncDiv(a: int, b: int): int
    requires b > 0
  {
    if a >= 0 then a / b else -(-a / b)
  }

  /** `%`: the sign of the dividend. */
  function TruncMod(a: int, b: int): int
    requires b > 0
  {
    a - b * TruncDiv(a, b)
  }

  /** Quotient and remainder make up the dividend; the remainder is smaller than the divisor
      and never has the other sign than the dividend. */
  lemma TruncExactness(a: int, b: int)
    requires b > 0
    ensures a == b * TruncDiv(a, b) + TruncMod(a, b)
    ensures if a >= 0 then 0 <= TruncMod(a, b) < b else -b < TruncMod(a, b) <= 0
  {}
}
