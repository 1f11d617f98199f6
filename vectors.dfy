/** Dense real vectors and the column-major layout of a dense matrix. */
module Vectors {

  function Zeros(n: nat): (z: seq<real>)
  {
    seq(n, _ => 0.0)
  }

  /** The unit seed e_i of length n: 1 at position i, 0 elsewhere. */
  function UnitVector(n: nat, i: nat): (e: seq<real>)
    requires i < n
  {
    seq(n, j => if j == i then 1.0 else 0.0)
  }

  /** The positions of the non-zero entries of a vector. */
  function Support(s: seq<real>): set<nat>
  {
    set j: nat | j < |s| && s[j] != 0.0
  }

  /** A unit seed has exactly one active entry, and that entry is 1. */
  lemma UnitVectorHasOneActiveEntry(n: nat, i: nat)
    requires i < n
    ensures Support(UnitVector(n, i)) == {i}
    ensures UnitVector(n, i)[i] == 1.0
  {
    var e := UnitVector(n, i);
    assert i in Support(e);
    forall j | j in Support(e) ensures j == i {
      assert e[j] != 0.0;
    }
  }

  function Dot(a: seq<real>, b: seq<real>): real
    requires |a| == |b|
  {
    if |a| == 0 then 0.0 else a[0] * b[0] + Dot(a[1..], b[1..])
  }

  /** A dot product against a vector that is 1 at position i and 0 elsewhere picks out a[i]. */
  lemma {:induction false} DotSelect(a: seq<real>, b: seq<real>, i: int)
    requires |a| == |b|
    requires forall j :: 0 <= j < |b| ==> b[j] == if j == i then 1.0 else 0.0
    ensures Dot(a, b) == if 0 <= i < |a| then a[i] else 0.0
  {
    if |a| > 0 {
      DotSelect(a[1..], b[1..], i - 1);
    }
  }

  /** Dotting with the unit seed e_i selects entry i. */
  lemma DotUnitVector(a: seq<real>, i: nat)
    requires i < |a|
    ensures Dot(a, UnitVector(|a|, i)) == a[i]
  {
    DotSelect(a, UnitVector(|a|, i), i);
  }

  /** Every vector of `cols` has length n. */
  ghost predicate Uniform(cols: seq<seq<real>>, n: nat)
  {
    forall i :: 0 <= i < |cols| ==> |cols[i]| == n
  }

  /** Column vectors laid end to end: the column-major storage of a dense matrix. */
  function Flatten(cols: seq<seq<real>>): seq<real>
  {
    if |cols| == 0 then [] else Flatten(cols[..|cols| - 1]) + cols[|cols| - 1]
  }

  lemma {:induction false} FlattenLength(cols: seq<seq<real>>, n: nat)
    requires Uniform(cols, n)
    ensures |Flatten(cols)| == |cols| * n
  {
    if |cols| > 0 {
      FlattenLength(cols[..|cols| - 1], n);
    }
  }

  /** Entry (j, i) of the dense matrix stored column-major sits at position i*n + j. */
  lemma {:induction false} FlattenAt(cols: seq<seq<real>>, n: nat, i: nat, j: nat)
    requires Uniform(cols, n)
    requires i < |cols| && j < n
    ensures i * n + j < |Flatten(cols)|
    ensures Flatten(cols)[i * n + j] == cols[i][j]
  {
    var m := |cols| - 1;
    var init := cols[..m];
    assert Flatten(cols) == Flatten(init) + cols[m];
    FlattenLength(init, n);
    if i < m {
      FlattenAt(init, n, i, j);
    }
  }

  /** Column i occupies positions [i*n, (i+1)*n) of the column-major storage. */
  lemma FlattenSlice(cols: seq<seq<real>>, n: nat, i: nat)
    requires Uniform(cols, n)
    requires i < |cols|
    ensures |Flatten(cols)| == |cols| * n
    ensures i * n + n <= |cols| * n
    ensures Flatten(cols)[i * n .. i * n + n] == cols[i]
  {
    FlattenLength(cols, n);
    MulSucc(i, n);
    MulMono(i + 1, |cols|, n);
    forall j | 0 <= j < n
      ensures Flatten(cols)[i * n .. i * n + n][j] == cols[i][j]
    {
      FlattenAt(cols, n, i, j);
    }
  }

  lemma MulSucc(a: nat, b: nat)
    ensures (a + 1) * b == a * b + b
  {
  }

  lemma MulMono(a: nat, b: nat, c: nat)
    requires a <= b
    ensures a * c <= b * c
  {
  }

  /** Extending the column list by one column appends that column to the storage. */
  lemma FlattenSnoc(cols: seq<seq<real>>, c: seq<real>)
    ensures Flatten(cols + [c]) == Flatten(cols) + c
  {
    assert (cols + [c])[..|cols|] == cols;
  }

  /** The product M·s of a matrix given by its rows with a vector. */
  function MatVec(rows: seq<seq<real>>, s: seq<real>): (r: seq<real>)
    requires Uniform(rows, |s|)
    ensures |r| == |rows|
  {
    seq(|rows|, j requires 0 <= j < |rows| => Dot(rows[j], s))
  }

  /** Column i of a matrix given by its rows. */
  function ColumnOf(rows: seq<seq<real>>, n: nat, i: nat): (c: seq<real>)
    requires Uniform(rows, n) && i < n
    ensures |c| == |rows|
  {
    seq(|rows|, j requires 0 <= j < |rows| => rows[j][i])
  }

  /** A linear map applied to the unit seed e_i yields exactly column i of its matrix. */
  lemma MatVecUnitVector(rows: seq<seq<real>>, n: nat, i: nat)
    requires Uniform(rows, n) && i < n
    ensures MatVec(rows, UnitVector(n, i)) == ColumnOf(rows, n, i)
  {
    forall j | 0 <= j < |rows|
      ensures MatVec(rows, UnitVector(n, i))[j] == ColumnOf(rows, n, i)[j]
    {
      DotUnitVector(rows[j], i);
    }
  }
}
