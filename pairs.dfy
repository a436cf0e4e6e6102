/** The layout of the GPU neighbour buffer: one slot per unordered pair `i < j` of
    boids, rows in ascending `i`, and within a row ascending `j`; and the size the
    manager allocates for it, `GetRunningTotal`. */
module Pairs {

  /** The number of slots before row `i`: rows `0 .. i - 1`, row `r` holding the
      `n - 1 - r` pairs `(r, r + 1) .. (r, n - 1)`. */
  function RowStart(n: nat, i: nat): nat
    requires i <= n
  {
    if i == 0 then 0 else RowStart(n, i - 1) + (n - i)
  }

  /** The slot of the pair `(i, j)`. */
  function PairIndex(n: nat, i: nat, j: nat): nat
    requires i < j < n
  {
    RowStart(n, i) + (j - i - 1)
  }

  /** The number of unordered pairs, counted row by row. */
  function PairCount(n: nat): nat
  {
    RowStart(n, n)
  }

  /** `ComputeBoidManager.GetRunningTotal`, with C#'s truncating integer division (the
      count is never negative, so truncation and Dafny's division agree). */
  function GetRunningTotal(total: nat): int
  {
    (total / 2) * (1 + total) - total
  }

  /** The rows before row `i` hold `i * (2n - i - 1) / 2` pairs. */
  lemma {:induction false} RowStartClosed(n: nat, i: nat)
    requires i <= n
    ensures 2 * RowStart(n, i) == i * (2 * n - i - 1)
  {
    if i > 0 {
      RowStartClosed(n, i - 1);
      assert (i - 1) * (2 * n - i) + 2 * (n - i) == i * (2 * n - i - 1);
    }
  }

  /** There are `n (n - 1) / 2` unordered pairs. */
  lemma PairCountClosed(n: nat)
    ensures 2 * PairCount(n) == n * (n - 1)
  {
    RowStartClosed(n, n);
  }

  /** Every pair has a slot inside the buffer of `PairCount(n)` slots. */
  lemma {:induction false} PairIndexInRange(n: nat, i: nat, j: nat)
    requires i < j < n
    ensures PairIndex(n, i, j) < PairCount(n)
  {
    RowStartMonotone(n, i + 1, n);
  }

  /** Later rows start later, by at least the length of the rows in between. */
  lemma {:induction false} RowStartMonotone(n: nat, a: nat, b: nat)
    requires a <= b <= n
    ensures RowStart(n, a) <= RowStart(n, b)
    ensures a < b ==> RowStart(n, a) + (n - 1 - a) <= RowStart(n, b)
    decreases b - a
  {
    if a < b {
      RowStartMonotone(n, a + 1, b);
    }
  }

  /** Slots follow the row order of the pairs: a pair that comes later in that order has
      a larger slot, so no two pairs share one. */
  lemma PairIndexOrdered(n: nat, i: nat, j: nat, i2: nat, j2: nat)
    requires i < j < n && i2 < j2 < n
    requires i < i2 || (i == i2 && j < j2)
    ensures PairIndex(n, i, j) < PairIndex(n, i2, j2)
  {
    if i < i2 {
      RowStartMonotone(n, i, i2);
    }
  }

  /** Distinct pairs have distinct slots. */
  lemma PairIndexInjective(n: nat, i: nat, j: nat, i2: nat, j2: nat)
    requires i < j < n && i2 < j2 < n
    requires PairIndex(n, i, j) == PairIndex(n, i2, j2)
    ensures i == i2 && j == j2
  {
    if i < i2 || (i == i2 && j < j2) {
      PairIndexOrdered(n, i, j, i2, j2);
    } else if i2 < i || (i == i2 && j2 < j) {
      PairIndexOrdered(n, i2, j2, i, j);
    }
  }

  /** For an even number of boids the running total is the number of pairs. */
  lemma RunningTotalEven(n: nat)
    requires n % 2 == 0
    ensures GetRunningTotal(n) == PairCount(n)
  {
    PairCountClosed(n);
    var h := n / 2;
    assert n == 2 * h;
    assert 2 * (h * (1 + n) - n) == n * (n - 1);
  }

  /** For an odd number of boids the running total falls `(n + 1) / 2` short of the
      number of pairs. */
  lemma RunningTotalOdd(n: nat)
    requires n % 2 == 1
    ensures GetRunningTotal(n) + (n + 1) / 2 == PairCount(n)
  {
    PairCountClosed(n);
    var h := n / 2;
    assert n == 2 * h + 1;
    assert 2 * (h * (1 + n) - n + (h + 1)) == n * (n - 1);
  }

  /** The running total is negative only for a single boid. */
  lemma RunningTotalNegative(n: nat)
    ensures GetRunningTotal(n) < 0 <==> n == 1
  {
    if n % 2 == 0 {
      RunningTotalEven(n);
    } else {
      RunningTotalOdd(n);
      if n >= 3 {
        PairCountClosed(n);
        assert n * (n - 1) >= 3 * (n - 1);
      }
    }
  }

  /** The buffer holds a slot for every pair exactly when the number of boids is even. */
  lemma RunningTotalCoversPairs(n: nat)
    ensures GetRunningTotal(n) >= PairCount(n) <==> n % 2 == 0
  {
    if n % 2 == 0 {
      RunningTotalEven(n);
    } else {
      RunningTotalOdd(n);
    }
  }

  /** The buffer size the search evidently needs: `n (n - 1) / 2`, one slot per pair. */
  function PairBufferSize(n: nat): nat
  {
    if n == 0 then 0 else n * (n - 1) / 2
  }

  /** The corrected size gives every pair exactly one slot: it equals the number of
      pairs, and every pair's slot lies inside it. */
  lemma PairBufferSizeExact(n: nat)
    ensures PairBufferSize(n) == PairCount(n)
    ensures forall i: nat, j: nat :: i < j < n ==> PairIndex(n, i, j) < PairBufferSize(n)
  {
    PairCountClosed(n);
    forall i: nat, j: nat | i < j < n
      ensures PairIndex(n, i, j) < PairBufferSize(n)
    {
      PairIndexInRange(n, i, j);
    }
  }
}
