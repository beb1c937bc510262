/** Row-major addressing of a dense table's elements: the element at row i
    and column j of a table with p columns sits at linear index `i * p + j`. */
module RowMajorAddressing {
  import opened TableTypes

  /** The linear index of row i, column j in an n-by-p row-major table. It
      lies inside the table's n * p elements, and dividing by p recovers the
      row while the remainder recovers the column. */
  function Offset(i: int, j: int, n: nat, p: nat): (k: nat)
    requires 0 <= i < n && 0 <= j < p
    ensures k < n * p
    ensures k / p == i && k % p == j
  {
    OffsetBounds(i, j, n, p);
    i * p + j
  }

  lemma OffsetBounds(i: int, j: int, n: nat, p: nat)
    requires 0 <= i < n && 0 <= j < p
    ensures 0 <= i * p + j < n * p
    ensures (i * p + j) / p == i && (i * p + j) % p == j
  {
    assert i * p <= (n - 1) * p;
    assert (n - 1) * p + p == n * p;
    DivModUnique(i * p + j, p, i, j);
  }

  /** Every linear index of the table is the offset of exactly one cell:
      the row `k / p` and the column `k % p`. */
  lemma OffsetOnto(k: int, n: nat, p: nat)
    requires 0 <= k < n * p
    ensures p > 0 && 0 <= k / p < n && 0 <= k % p < p
    ensures Offset(k / p, k % p, n, p) == k
  {
    assert k == (k / p) * p + k % p;
  }

  /** Distinct cells have distinct offsets. */
  lemma OffsetInjective(i: int, j: int, i': int, j': int, n: nat, p: nat)
    requires 0 <= i < n && 0 <= j < p
    requires 0 <= i' < n && 0 <= j' < p
    requires Offset(i, j, n, p) == Offset(i', j', n, p)
    ensures i == i' && j == j'
  {
  }
}
