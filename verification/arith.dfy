/** Integer facts about tuple-major (row-major) index arithmetic. */
module Arith {

  /** Euclidean division is unique: `q*m + r` with `0 <= r < m` splits back into `q` and `r`. */
  lemma DivModOfRowMajor(q: nat, r: nat, m: nat)
    requires r < m
    ensures (q * m + r) / m == q
    ensures (q * m + r) % m == r
  {
    var v := q * m + r;
    var d, e := v / m, v % m;
    assert v == d * m + e;
    assert (d - q) * m == r - e;
    if d > q {
      MulMonotone(1, d - q, m);
    } else if d < q {
      MulMonotone(1, q - d, m);
    }
  }

  /** Multiplication by a natural number is monotone. */
  lemma MulMonotone(a: int, b: int, m: nat)
    requires a <= b
    ensures a * m <= b * m
  {
  }

  /** A row-major index `q*m + r` stays below `n*m` when `q < n` and `r < m`. */
  lemma RowMajorBound(q: nat, r: nat, m: nat, n: nat)
    requires q < n && r < m
    ensures q * m + r < n * m
  {
    MulMonotone(q + 1, n, m);
  }

  /** The tuple part of a flat index into an `n`-by-`m` row-major block is below `n`. */
  lemma DivBound(v: nat, m: nat, n: nat)
    requires 0 < m && v < n * m
    ensures v / m < n
  {
    var d := v / m;
    assert v == d * m + v % m;
    if d >= n {
      MulMonotone(n, d, m);
    }
  }

  /** One more row of `m`: `(q + 1) * m == q * m + m`. */
  lemma MulSucc(q: nat, m: nat)
    ensures (q + 1) * m == q * m + m
  {
  }
}
