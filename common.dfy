/** Shared vocabulary of the SCF model: optional results, scalar-or-array values,
    real sums and the shape predicates for the N x L and N x L x L tables. */
module Common {

  datatype Option<+T> = None | Some(value: T)

  /** A NumPy quantity that is either a plain float or a flat (row-major) array. */
  datatype Value = Scalar(x: real) | Array(xs: seq<real>)

  type Matrix = seq<seq<real>>
  type Tensor = seq<seq<seq<real>>>

  function Max(a: int, b: int): int { if a >= b then a else b }
  function Min(a: int, b: int): int { if a <= b then a else b }
  function Abs(x: real): real { if x < 0.0 then -x else x }

  /** The sum of a sequence of reals, left to right. */
  function Sum(s: seq<real>): real
  {
    if |s| == 0 then 0.0 else Sum(s[..|s| - 1]) + s[|s| - 1]
  }

  /** The sum of every entry of a matrix (numpy.sum over both axes). */
  function SumMatrix(m: Matrix): real
  {
    if |m| == 0 then 0.0 else SumMatrix(m[..|m| - 1]) + Sum(m[|m| - 1])
  }

  /** The sum of every entry of a three-index table (numpy.sum over all axes). */
  function SumTensor(t: Tensor): real
  {
    if |t| == 0 then 0.0 else SumTensor(t[..|t| - 1]) + SumMatrix(t[|t| - 1])
  }

  /** A sum of zeros is zero, at every depth. */
  lemma {:induction false} SumZero(s: seq<real>)
    requires forall i :: 0 <= i < |s| ==> s[i] == 0.0
    ensures Sum(s) == 0.0
  {
    if |s| > 0 {
      SumZero(s[..|s| - 1]);
    }
  }

  lemma {:induction false} SumMatrixZero(m: Matrix)
    requires forall i, j :: 0 <= i < |m| && 0 <= j < |m[i]| ==> m[i][j] == 0.0
    ensures SumMatrix(m) == 0.0
  {
    if |m| > 0 {
      SumMatrixZero(m[..|m| - 1]);
      SumZero(m[|m| - 1]);
    }
  }

  lemma {:induction false} SumTensorZero(t: Tensor)
    requires forall i, j, k :: 0 <= i < |t| && 0 <= j < |t[i]| && 0 <= k < |t[i][j]| ==> t[i][j][k] == 0.0
    ensures SumTensor(t) == 0.0
  {
    if |t| > 0 {
      SumTensorZero(t[..|t| - 1]);
      SumMatrixZero(t[|t| - 1]);
    }
  }

  predicate IsMatrix(m: Matrix, rows: nat, cols: nat)
  {
    |m| == rows && forall i :: 0 <= i < rows ==> |m[i]| == cols
  }

  predicate IsTensor(t: Tensor, n: nat, l: nat, k: nat)
  {
    |t| == n && forall i :: 0 <= i < n ==> IsMatrix(t[i], l, k)
  }

  lemma MulMono(a: int, b: int, m: nat)
    requires a <= b
    ensures a * m <= b * m
  {
    assert b * m - a * m == (b - a) * m;
  }

  /** Quotient and remainder are the only pair with `x == q * m + r` and `r < m`. */
  lemma DivModUnique(x: nat, m: nat, q: nat, r: nat)
    requires r < m && x == q * m + r
    ensures x / m == q && x % m == r
  {
    var q', r' := x / m, x % m;
    assert x == q' * m + r';
    if q' < q {
      MulMono(q' + 1, q, m);
    } else if q' > q {
      MulMono(q + 1, q', m);
    }
  }
}
