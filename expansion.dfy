/** Evaluation of an SCF expansion at points: the object built by `SCFPotential.__init__`
    (SCFPotential.py:59-63), the per-point contraction `_compute` (SCFPotential.py:166-182)
    and the broadcast driver `_computeArray` (SCFPotential.py:199-218) for one-dimensional
    arrays. The coordinate conversion, the Legendre table, the radial table `funcTilde` and
    cos(m phi) / sin(m phi) are foreign floating-point work; they reach the model as a
    `PointBasis` per point. */
module Expansion {
  import opened Common
  import Cartesian
  import Normalization

  /** The expansion object: coefficient tables Acos and Asin of shape (n, l, l), the scale
      length a, and the normalisation table NN computed once. */
  datatype Scf = Scf(acos: Tensor, asin: Tensor, a: real, nn: Matrix, n: nat, l: nat)

  predicate Valid(s: Scf)
  {
    IsTensor(s.acos, s.n, s.l, s.l) && IsTensor(s.asin, s.n, s.l, s.l) && IsMatrix(s.nn, s.l, s.l)
  }

  /** `SCFPotential(amp, Acos, Asin, a)`: stores the tables as given (no shape check) and
      builds NN from the L of Acos; NN is lower-triangular whatever the coefficients are. */
  function NewScf(acos: Tensor, asin: Tensor, a: real, n: nat, l: nat, g: (nat, nat) -> real): (s: Scf)
    ensures s.acos == acos && s.asin == asin && s.a == a && s.n == n && s.l == l
    ensures IsMatrix(s.nn, l, l) && Normalization.LowerTriangular(s.nn)
    ensures IsTensor(acos, n, l, l) && IsTensor(asin, n, l, l) ==> Valid(s)
  {
    Scf(acos, asin, a, Normalization.Nroot(l, g), n, l)
  }

  /** What `_compute` takes from foreign routines at one point: the radial table
      `func_tilde` (n x l), the Legendre table PP (l x l) and cos(m phi), sin(m phi). */
  datatype PointBasis = PointBasis(tilde: Matrix, pp: Matrix, cosm: seq<real>, sinm: seq<real>)

  predicate Fits(s: Scf, b: PointBasis)
  {
    IsMatrix(b.tilde, s.n, s.l) && IsMatrix(b.pp, s.l, s.l) && |b.cosm| == s.l && |b.sinm| == s.l
  }

  /** The tables the foreign routines give at the point (R, z, phi). */
  function BasisAt(basis: (real, real, real) -> PointBasis, R: real, z: real, phi: real): PointBasis
  {
    basis(R, z, phi)
  }

  /** The foreign routines give tables of the right shapes at every point. */
  ghost predicate FitsEverywhere(s: Scf, basis: (real, real, real) -> PointBasis)
  {
    forall x, y, p :: Fits(s, BasisAt(basis, x, y, p))
  }

  /** Entry [n, l, m] of line 181:
      func_tilde[n, l] (Acos[n, l, m] cos(m phi) + Asin[n, l, m] sin(m phi)) PP[l, m] NN[l, m]. */
  function Term(s: Scf, b: PointBasis, n: nat, l: nat, m: nat): real
    requires Valid(s) && Fits(s, b) && n < s.n && l < s.l && m < s.l
  {
    b.tilde[n][l] * (s.acos[n][l][m] * b.cosm[m] + s.asin[n][l][m] * b.sinm[m]) * b.pp[l][m] * s.nn[l][m]
  }

  /** `_compute`: the n x l x l table of terms; an entry vanishes where NN does and where
      both coefficients do. */
  function Compute(s: Scf, b: PointBasis): (f: Tensor)
    requires Valid(s) && Fits(s, b)
    ensures IsTensor(f, s.n, s.l, s.l)
    ensures forall n, l, m :: 0 <= n < s.n && 0 <= l < s.l && 0 <= m < s.l ==> f[n][l][m] == Term(s, b, n, l, m)
    ensures forall n, l, m :: 0 <= n < s.n && 0 <= l < s.l && 0 <= m < s.l && s.nn[l][m] == 0.0 ==>
      f[n][l][m] == 0.0
    ensures forall n, l, m :: 0 <= n < s.n && 0 <= l < s.l && 0 <= m < s.l ==>
      (s.acos[n][l][m] == 0.0 && s.asin[n][l][m] == 0.0 ==> f[n][l][m] == 0.0)
  {
    seq(s.n, n requires 0 <= n < s.n =>
      seq(s.l, l requires 0 <= l < s.l =>
        seq(s.l, m requires 0 <= m < s.l => Term(s, b, n, l, m))))
  }

  /** `nu.sum(self._compute(...))`: the value of the expansion at one point. */
  function PointField(s: Scf, b: PointBasis): real
    requires Valid(s) && Fits(s, b)
  {
    SumTensor(Compute(s, b))
  }

  /** With a lower-triangular NN the coefficients above the diagonal (m > l) never reach
      the result: two expansions that agree on and below it give the same tables and the
      same field at every point. */
  lemma UpperCoefficientsIgnored(s: Scf, s': Scf, b: PointBasis)
    requires Valid(s) && Valid(s') && Fits(s, b)
    requires s'.n == s.n && s'.l == s.l && s'.nn == s.nn && Normalization.LowerTriangular(s.nn)
    requires forall n, l, m :: 0 <= n < s.n && 0 <= m <= l < s.l ==>
      s'.acos[n][l][m] == s.acos[n][l][m] && s'.asin[n][l][m] == s.asin[n][l][m]
    ensures Compute(s', b) == Compute(s, b)
    ensures PointField(s', b) == PointField(s, b)
  {
    var f, f' := Compute(s, b), Compute(s', b);
    forall n | 0 <= n < s.n
      ensures f'[n] == f[n]
    {
      forall l | 0 <= l < s.l
        ensures f'[n][l] == f[n][l]
      {
        forall m | 0 <= m < s.l
          ensures f'[n][l][m] == f[n][l][m]
        {
          if m > l {
            assert s.nn[l][m] == 0.0;
          }
        }
      }
    }
  }

  /** An expansion whose coefficients are all zero is zero everywhere. */
  lemma ZeroCoefficients(s: Scf, b: PointBasis)
    requires Valid(s) && Fits(s, b)
    requires forall n, l, m :: 0 <= n < s.n && 0 <= l < s.l && 0 <= m < s.l ==>
      s.acos[n][l][m] == 0.0 && s.asin[n][l][m] == 0.0
    ensures PointField(s, b) == 0.0
  {
    SumTensorZero(Compute(s, b));
  }

  /** The broadcast length `_computeArray` picks: the length of the first array among
      R, z, phi, in that order; None when all three are plain numbers. */
  function BroadcastLength(R: Value, z: Value, phi: Value): (k: Option<nat>)
    ensures k.None? <==> R.Scalar? && z.Scalar? && phi.Scalar?
    ensures R.Array? ==> k == Some(|R.xs|)
    ensures R.Scalar? && z.Array? ==> k == Some(|z.xs|)
    ensures R.Scalar? && z.Scalar? && phi.Array? ==> k == Some(|phi.xs|)
  {
    if R.Array? then Some(|R.xs|)
    else if z.Array? then Some(|z.xs|)
    else if phi.Array? then Some(|phi.xs|)
    else None
  }

  /** The k coordinates `_computeArray` reads from one input, `(nu.ones(k) * v)[[i]][0]`
      for i < k. A number is repeated; an array of length k or 1 broadcasts; for k == 1 any
      non-empty array is accepted and its first entry read; every other length fails the
      broadcast (or, for k == 1 and an empty array, the read). */
  function Spread(v: Value, k: nat): (o: Option<seq<real>>)
    ensures o.Some? <==> v.Scalar? || |v.xs| == k || |v.xs| == 1 || (k == 1 && |v.xs| > 0)
    ensures o.Some? ==> |o.value| == k
    ensures v.Scalar? ==> o.Some? && forall i :: 0 <= i < k ==> o.value[i] == v.x
    ensures v.Array? && |v.xs| == k ==> o == Some(v.xs)
    ensures v.Array? && o.Some? && |v.xs| != k ==> forall i :: 0 <= i < k ==> o.value[i] == v.xs[0]
  {
    match v
    case Scalar(x) => Some(seq(k, _ => x))
    case Array(xs) =>
      if |xs| == k then Some(xs)
      else if |xs| == 1 then Some(seq(k, _ => xs[0]))
      else if k == 1 && |xs| > 0 then Some([xs[0]])
      else None
  }

  /** `_computeArray`: with three numbers, the field at that point; otherwise, for the
      broadcast length k, an array whose entry i is the field at the i-th coordinates, or
      None when an input does not broadcast to k. The loop visits the rows of
      `cartesian([k])`. */
  method ComputeArray(s: Scf, basis: (real, real, real) -> PointBasis, R: Value, z: Value, phi: Value)
    returns (res: Option<Value>)
    requires Valid(s)
    requires FitsEverywhere(s, basis)
    ensures BroadcastLength(R, z, phi).None? ==> res == Some(Scalar(PointField(s, BasisAt(basis, R.x, z.x, phi.x))))
    ensures BroadcastLength(R, z, phi).Some? ==>
      var k := BroadcastLength(R, z, phi).value;
      (res.Some? <==> Spread(R, k).Some? && Spread(z, k).Some? && Spread(phi, k).Some?) &&
      (res.Some? ==> res.value.Array? && |res.value.xs| == k) &&
      (res.Some? ==> forall i :: 0 <= i < k ==>
        res.value.xs[i] == PointField(s, BasisAt(basis, Spread(R, k).value[i], Spread(z, k).value[i], Spread(phi, k).value[i])))
  {
    var shape := BroadcastLength(R, z, phi);
    if shape.None? {
      return Some(Scalar(PointField(s, BasisAt(basis, R.x, z.x, phi.x))));
    }
    var k := shape.value;
    var rs, zs, ps := Spread(R, k), Spread(z, k), Spread(phi, k);
    if rs.None? || zs.None? || ps.None? {
      return None;
    }
    var ok, li := Cartesian.Cartesian([k]);
    Cartesian.SingleAxis(k);
    assert ok && li.Length0 == k && li.Length1 == 1;
    var func := Evaluate(s, basis, rs.value, zs.value, ps.value, li);
    return Some(Array(func[..]));
  }

  /** One pass over the grid rows, in the order the index table gives them. */
  method Evaluate(s: Scf, basis: (real, real, real) -> PointBasis, rs: seq<real>, zs: seq<real>, ps: seq<real>,
                  li: array2<nat>) returns (func: array<real>)
    requires Valid(s) && FitsEverywhere(s, basis)
    requires |zs| == |rs| && |ps| == |rs| && li.Length0 == |rs| && li.Length1 == 1
    requires forall p :: 0 <= p < |rs| ==> li[p, 0] == p
    ensures func.Length == |rs|
    ensures forall j :: 0 <= j < |rs| ==> func[j] == PointField(s, BasisAt(basis, rs[j], zs[j], ps[j]))
  {
    func := new real[|rs|](_ => 0.0);
    for i := 0 to |rs|
      invariant forall j :: 0 <= j < i ==> func[j] == PointField(s, BasisAt(basis, rs[j], zs[j], ps[j]))
    {
      var j := li[i, 0];
      func[j] := PointField(s, BasisAt(basis, rs[j], zs[j], ps[j]));
    }
  }
}
