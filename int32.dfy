// C++ arithmetic on 32-bit `int` as the generator's palette formulas use it.
// Signed overflow is undefined in C++; this model gives it the two's-complement
// wrap-around that common compilers produce, and says so explicitly.
module Int32 {
  import LittleEndian

  type byte = LittleEndian.byte

  const Min: int := -0x8000_0000
  const Max: int := 0x7FFF_FFFF
  const Modulus: int := 0x1_0000_0000

  predicate InRange(v: int)
  {
    Min <= v <= Max
  }

  /** The 32-bit value with the same low 32 bits as v. */
  function Wrap(v: int): (r: int)
    ensures InRange(r)
    ensures InRange(v) ==> r == v
  {
    (v - Min) % Modulus + Min
  }

  /** Wrap keeps the low 32 bits: v and Wrap(v) differ by a multiple of 2^32. */
  lemma WrapCongruent(v: int)
    ensures (v - Wrap(v)) % Modulus == 0
  {
  }

  function Add(a: int, b: int): int { Wrap(a + b) }

  function Sub(a: int, b: int): int { Wrap(a - b) }

  function Mul(a: int, b: int): int { Wrap(a * b) }

  /** C++ `/` on int with a positive divisor: the quotient truncated toward zero. */
  function Div(a: int, b: int): (q: int)
    requires b > 0
    ensures a >= 0 ==> 0 <= a - q * b < b
    ensures a < 0 ==> -b < a - q * b <= 0
  {
    if a >= 0 then a / b else -((-a) / b)
  }

  /** C++ conversion of an int to unsigned char: the byte congruent to v modulo 256. */
  function ToByte(v: int): (r: byte)
  {
    (v % 256) as byte
  }

  /** ToByte keeps the low 8 bits: v and ToByte(v) differ by a multiple of 256. */
  lemma ToByteCongruent(v: int)
    ensures (v - ToByte(v) as int) % 256 == 0
  {
  }
}
