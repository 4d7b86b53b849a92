/** Go's `uint64`: addition and subtraction wrap modulo two to the sixty-four. */
module Uint64 {

  const TWO_64: nat := 0x1_0000_0000_0000_0000

  type uint64 = x: int | 0 <= x < 0x1_0000_0000_0000_0000

  function Add(a: uint64, b: uint64): (r: uint64)
    ensures a + b < TWO_64 ==> r == a + b
    ensures TWO_64 <= a + b ==> r == a + b - TWO_64
  {
    (a + b) % TWO_64
  }

  function Sub(a: uint64, b: uint64): (r: uint64)
    ensures b <= a ==> r == a - b
    ensures a < b ==> r == a - b + TWO_64
  {
    (a - b) % TWO_64
  }
}
