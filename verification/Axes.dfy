/** Quantities that exist once per machine axis. */
module Axes {

  datatype Axis = X | Y | Z

  datatype Vec<T> = Vec(x: T, y: T, z: T) {
    function At(a: Axis): T {
      match a
      case X => x
      case Y => y
      case Z => z
    }
  }

  /** `n` steps in the direction that the direction bit selects; a set bit means negative. */
  function Signed(negative: bool, n: int): int {
    if negative then -n else n
  }

  function Abs(n: int): nat {
    if n < 0 then -n else n
  }

  function Max3(a: nat, b: nat, c: nat): (m: nat)
    ensures m >= a && m >= b && m >= c && m in {a, b, c}
  {
    var ab := if a > b then a else b;
    if ab > c then ab else c
  }
}
