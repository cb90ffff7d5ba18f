/** Arithmetic about positions that wrap around a fixed number of cells. */
module Wrapping {

  lemma MultipleOutside(d: nat, q: int)
    ensures q >= 1 ==> d * q >= d
    ensures q <= -1 ==> d * q + d <= 0
  {
    if q >= 1 {
      assert d * (q - 1) >= 0;
    } else if q <= -1 {
      assert d * (-1 - q) >= 0;
    }
  }

  lemma UniqueRemainder(n: nat, q: int, r: nat, d: nat)
    requires r < d && n == d * q + r
    ensures n % d == r
  {
    assert d * (n / d - q) == r - n % d;
    MultipleOutside(d, n / d - q);
  }

  /** Where the k-th position after `start` falls, as the two-part copies compute it. */
  lemma CellAfter(start: nat, k: nat, capacity: nat)
    requires k < capacity
    ensures (start + k) % capacity ==
            if start % capacity + k < capacity then start % capacity + k else start % capacity + k - capacity
  {
    var q := start / capacity;
    var cell := start % capacity + k;
    if cell < capacity {
      UniqueRemainder(start + k, q, cell, capacity);
    } else {
      UniqueRemainder(start + k, q + 1, cell - capacity, capacity);
    }
  }

  /** Two different positions closer than the capacity never share a cell. */
  lemma DistinctCells(a: nat, b: nat, capacity: nat)
    requires capacity > 0
    requires a < b < a + capacity
    ensures a % capacity != b % capacity
  {
    CellAfter(a, b - a, capacity);
  }
}
