/** uint64_t, the type of the registers, the stack slots and the result
    slots, and its arithmetic as both machines do it: +, - and * wrap
    modulo 2^64 and / is unsigned division. */
module Uint64 {

  const MODULUS: int := 0x1_0000_0000_0000_0000

  newtype U64 = x: int | 0 <= x < 0x1_0000_0000_0000_0000

  /** a + b, less 2^64 when the sum does not fit. */
  function Add(a: U64, b: U64): (r: U64)
    ensures a as int + b as int < MODULUS ==> r as int == a as int + b as int
    ensures a as int + b as int >= MODULUS ==> r as int == a as int + b as int - MODULUS
  {
    ((a as int + b as int) % MODULUS) as U64
  }

  /** a - b, plus 2^64 when b is the larger. */
  function Sub(a: U64, b: U64): (r: U64)
    ensures b <= a ==> r as int == a as int - b as int
    ensures b > a ==> r as int == a as int - b as int + MODULUS
  {
    ((a as int - b as int) % MODULUS) as U64
  }

  /** The product when it fits; in any case the 64-bit value that differs
      from the product by a multiple of 2^64. */
  function Mul(a: U64, b: U64): (r: U64)
    ensures a as int * b as int < MODULUS ==> r as int == a as int * b as int
    ensures (a as int * b as int - r as int) % MODULUS == 0
  {
    var p := a as int * b as int;
    WrapDifference(p);
    (p % MODULUS) as U64
  }

  /** Taking a value modulo 2^64 removes a multiple of 2^64. */
  lemma WrapDifference(p: nat)
    ensures (p - p % MODULUS) % MODULUS == 0
  {
    assert p - p % MODULUS == (p / MODULUS) * MODULUS;
  }

  /** The unsigned quotient, rounded down: r * b <= a < (r + 1) * b. */
  function Div(a: U64, b: U64): (r: U64)
    requires b != 0
    ensures r as int * b as int <= a as int < (r as int + 1) * b as int
  {
    (a as int / b as int) as U64
  }
}
