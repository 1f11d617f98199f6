/** Sparsity patterns in compressed column storage, as the host framework describes the
    shape of every input and output. */
module Sparsity {

  /** nrow × ncol pattern: the structural non-zeros of column c are the rows
      row[colind[c]], ..., row[colind[c+1] - 1]. */
  datatype Sparsity = Sparsity(nrow: nat, ncol: nat, colind: seq<nat>, row: seq<nat>) {

    ghost predicate Valid()
    {
      && |colind| == ncol + 1
      && colind[0] == 0
      && colind[ncol] == |row|
      && (forall c :: 0 <= c < ncol ==> colind[c] <= colind[c + 1])
      && (forall k :: 0 <= k < |row| ==> row[k] < nrow)
    }

    /** Number of structural non-zeros. */
    function Nnz(): nat
    {
      |row|
    }

    /** Entry (r, c) is structurally non-zero. */
    ghost predicate Has(r: nat, c: nat)
      requires Valid()
    {
      c < ncol && exists k :: colind[c] <= k < colind[c + 1] && k < |row| && row[k] == r
    }

    ghost predicate IsDense()
      requires Valid()
    {
      forall r: nat, c: nat :: r < nrow && c < ncol ==> Has(r, c)
    }
  }

  /** The dense n × 1 pattern: a column vector of length n whose every entry is stored. */
  function DenseColumn(n: nat): (s: Sparsity)
    ensures s.Valid() && s.IsDense()
    ensures s.nrow == n && s.ncol == 1 && s.Nnz() == n
  {
    var s := Sparsity(n, 1, [0, n], seq(n, k => k));
    assert forall r: nat, c: nat | r < n && c < 1 :: s.row[r] == r && s.Has(r, c);
    s
  }
}
