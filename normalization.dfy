/** The angular normalisation table `_Nroot(L)` (SCFPotential.py:67-87). The value
    sqrt((2l + 1)/(4 pi) exp(gammaln(l - m + 1) - gammaln(l + m + 1))) comes from foreign
    floating-point routines and is the parameter `g(l, m)` here; what is modelled is how the
    table is built from it: every entry doubled, column 0 halved back, and everything above
    the diagonal cleared by `tril`. */
module Normalization {
  import opened Common

  /** `NN[:,:] = (...)**.5 * 2`. */
  function Doubled(L: nat, g: (nat, nat) -> real): (nn: Matrix)
    ensures IsMatrix(nn, L, L)
  {
    seq(L, (l: nat) => seq(L, (m: nat) => g(l, m) * 2.0))
  }

  /** `NN[:,0] /= 2.`. */
  function HalveFirstColumn(nn: Matrix): (r: Matrix)
    ensures |r| == |nn|
    ensures forall l :: 0 <= l < |nn| ==> |r[l]| == |nn[l]|
  {
    seq(|nn|, l requires 0 <= l < |nn| => seq(|nn[l]|, m requires 0 <= m < |nn[l]| => if m == 0 then nn[l][m] / 2.0 else nn[l][m]))
  }

  /** `numpy.tril`: entries above the diagonal (column > row) become 0. */
  function Tril(nn: Matrix): (r: Matrix)
    ensures |r| == |nn|
    ensures forall l :: 0 <= l < |nn| ==> |r[l]| == |nn[l]|
  {
    seq(|nn|, l requires 0 <= l < |nn| => seq(|nn[l]|, m requires 0 <= m < |nn[l]| => if m > l then 0.0 else nn[l][m]))
  }

  predicate LowerTriangular(nn: Matrix)
  {
    forall l, m :: 0 <= l < |nn| && 0 <= m < |nn[l]| && m > l ==> nn[l][m] == 0.0
  }

  /** `_Nroot(L)`: an L x L lower-triangular table whose column 0 is the plain factor g(l, 0)
      and whose other entries on or below the diagonal are twice the factor (the
      (2 - delta_m0) weight of the real spherical harmonics). */
  function Nroot(L: nat, g: (nat, nat) -> real): (nn: Matrix)
    ensures IsMatrix(nn, L, L) && LowerTriangular(nn)
    ensures forall l :: 0 <= l < L ==> nn[l][0] == g(l, 0)
    ensures forall l, m :: 0 < m <= l < L ==> nn[l][m] == 2.0 * g(l, m)
  {
    Tril(HalveFirstColumn(Doubled(L, g)))
  }
}
