/** Binary digits of a natural number. */
module Bits {
  function Pow2(n: nat): (r: nat)
    ensures r > 0
  {
    if n == 0 then 1 else 2 * Pow2(n - 1)
  }

  predicate Bit(v: nat, i: nat) {
    if i == 0 then v % 2 == 1 else Bit(v / 2, i - 1)
  }
}
