/** Indices into a ring of `size` slots. */
module Rings {

  /** Position `k` places after index `from`. */
  function Place(from: nat, k: nat, size: nat): (i: nat)
    requires from < size && k <= size
    ensures i < size
  {
    if from + k < size then from + k else from + k - size
  }

  /** How many places index `to` lies after index `from`. */
  function Gap(from: nat, to: nat, size: nat): (d: nat)
    requires from < size && to < size
    ensures d < size && Place(from, d, size) == to
  {
    if to >= from then to - from else to + size - from
  }

  function Successor(i: nat, size: nat): (r: nat)
    requires i < size
    ensures r == Place(i, 1, size) == (i + 1) % size
  {
    if i + 1 == size then 0 else i + 1
  }
}
