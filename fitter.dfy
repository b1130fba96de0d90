/** The coefficient fitters `compute_coeffs_spherical`, `compute_coeffs_axi` and
    `compute_coeffs` (SCFPotential.py:263-422): each integrates a density against the basis
    with `gaussianQuadrature` and scales the result into the Acos/Asin tables. The density,
    the Legendre functions, the trigonometric factors, the coordinate conversion and the
    normalisation constants are foreign floating-point code and reach the model as
    function parameters; the sample counts, the radial part of the basis, the layout of the
    integrand's array and the zero pattern of the tables are modelled. */
module Fitter {
  import opened Common
  import Cartesian
  import Gegenbauer
  import RadialTransform
  import Quadrature

  /** The two coefficient tables a fitter returns. */
  datatype Coeffs = Coeffs(acos: Tensor, asin: Tensor)

  /** Coordinate j of an integration point (every point has one per bound). */
  function Coord(x: seq<real>, j: nat): real
  {
    if j < |x| then x[j] else 0.0
  }

  function Pow(x: real, k: nat): real
  {
    if k == 0 then 1.0 else x * Pow(x, k - 1)
  }

  /** `(1. + xi)**l * (1. - xi)**(l + 1.) * _C(xi, L, N)[n, l]`: the radial part of basis
      function (n, l) in the integrands of the axisymmetric and the general fit. */
  function RadialBasis(n: nat, l: nat, xi: real): real
  {
    Pow(1.0 + xi, l) * Pow(1.0 - xi, l + 1) * Gegenbauer.C(n, l, xi)
  }

  // ---------------------------------------------------------------- sample counts

  /** Line 286: `Ksample = [max(N + 1, 20)]`, one count above the largest degree and never
      fewer than 20. */
  function SphericalKsample(N: nat): (K: seq<nat>)
    ensures |K| == 1 && K[0] >= 20 && K[0] > N
    ensures K[0] == 20 || K[0] == N + 1
    ensures Quadrature.Runnable(K)
  {
    [Max(N + 1, 20) as nat]
  }

  /** Lines 354-358: the defaults `max(N + 3*L/2 + 1, 20)` (Python 2 integer division) and
      `max(L + 1, 20)`, each replaced by `radial_order` / `costheta_order` when given. The
      integrator runs unless an override is 0. */
  function AxiKsample(N: nat, L: nat, radialOrder: Option<nat>, costhetaOrder: Option<nat>): (K: seq<nat>)
    ensures |K| == 2
    ensures radialOrder.Some? ==> K[0] == radialOrder.value
    ensures radialOrder.None? ==> K[0] >= 20 && K[0] > N + 3 * L / 2 && (K[0] == 20 || K[0] == N + 3 * L / 2 + 1)
    ensures costhetaOrder.Some? ==> K[1] == costhetaOrder.value
    ensures costhetaOrder.None? ==> K[1] >= 20 && K[1] > L && (K[1] == 20 || K[1] == L + 1)
    ensures Quadrature.Runnable(K) <==> radialOrder != Some(0) && costhetaOrder != Some(0)
  {
    var defaults := [Max(N + 3 * L / 2 + 1, 20) as nat, Max(L + 1, 20) as nat];
    var k0 := if radialOrder.Some? then radialOrder.value else defaults[0];
    var k1 := if costhetaOrder.Some? then costhetaOrder.value else defaults[1];
    [k0, k1]
  }

  /** Line 412: `Ksample = N + 3*L//2 + 1, L, L`, with no lower bound of 20; the integrator
      runs exactly when L > 0. */
  function GeneralKsample(N: nat, L: nat): (K: seq<nat>)
    ensures |K| == 3 && K[0] > N + 3 * L / 2 && K[0] - 1 == N + 3 * L / 2 && K[1] == L && K[2] == L
    ensures Quadrature.Runnable(K) <==> L > 0
  {
    [N + 3 * L / 2 + 1, L, L]
  }

  // ---------------------------------------------------------------- spherical fit

  /** `a**3. * dens(R) * (1 + xi)**2. * (1 - xi)**-3.` with R = `xiToR(xi, a)`. The nodes of
      the rule lie strictly inside (-1, 1), so the pole xi = 1 is never sampled and is given
      the value 0 here. */
  function SphericalWeight(dens: real -> real, a: real, xi: real): real
  {
    if xi == 1.0 then 0.0
    else a * a * a * dens(RadialTransform.XiToR(xi, a)) * (1.0 + xi) * (1.0 + xi) / Cube(1.0 - xi)
  }

  function Cube(y: real): (c: real)
    ensures y != 0.0 ==> c != 0.0
  {
    y * y * y
  }

  /** The radial weight as a function of xi. */
  function SphericalWeightOf(dens: real -> real, a: real): real -> real
  {
    xi => SphericalWeight(dens, a, xi)
  }

  /** Lines 277-281: the spherical integrand for the radial weight w, an array over n of
      `w(xi) * _C(xi, 1, N)[n, 0]`, of length N at every point. */
  function SphericalIntegrand(w: real -> real, N: nat): (f: seq<real> -> Value)
    ensures forall x :: Quadrature.Eval(f, x).Array? && |Quadrature.Eval(f, x).xs| == N
    ensures forall x, n :: 0 <= n < N ==>
      Quadrature.Eval(f, x).xs[n] == w(Coord(x, 0)) * Gegenbauer.C(n, 0, Coord(x, 0))
  {
    x => Array(seq(N, (n: nat) => w(Coord(x, 0)) * Gegenbauer.C(n, 0, Coord(x, 0))))
  }

  /** `(n + 2)*(n + 1)*(1 + n*(n + 3.)/2.)`; n (n + 3) is even, so this is a whole number. */
  function SphericalDenominator(n: nat): (d: nat)
    ensures d > 0
  {
    (n + 2) * (n + 1) * (n * (n + 3) / 2 + 1)
  }

  /** The whole-number denominator is the floating-point one of line 289. */
  lemma SphericalDenominatorExact(n: nat)
    ensures SphericalDenominator(n) as real ==
      (n as real + 2.0) * (n as real + 1.0) * (1.0 + n as real * (n as real + 3.0) / 2.0)
  {
    var p := n * (n + 3);
    TimesShiftedIsEven(n);
    var h := p / 2 + 1;
    assert h as real == 1.0 + p as real / 2.0;
    CastMul(n, n + 3);
    CastMul(n + 2, n + 1);
    CastMul((n + 2) * (n + 1), h);
  }

  /** n (n + 3) is even: n and n + 3 have different parities, so one of them is even. */
  lemma TimesShiftedIsEven(n: nat)
    ensures n * (n + 3) % 2 == 0
  {
    var q := n / 2;
    if n % 2 == 0 {
      assert n * (n + 3) == 2 * (q * (n + 3));
    } else {
      assert n + 3 == 2 * (q + 2);
      assert n * (n + 3) == 2 * (n * (q + 2));
    }
  }

  lemma CastMul(x: nat, y: nat)
    ensures (x * y) as real == x as real * y as real
  {
  }

  /** Line 289: `K = 16*pi*(n + 3./2)/((n + 2)*(n + 1)*(1 + n*(n + 3.)/2.))`. */
  function SphericalScale(n: nat, pi: real): (k: real)
    ensures pi > 0.0 ==> k > 0.0
  {
    16.0 * pi * (n as real + 1.5) / SphericalDenominator(n) as real
  }

  /** Line 287: the unrounded one-dimensional integral over [-1, 1]. */
  function SphericalIntegral(w: real -> real, N: nat, leggauss: nat -> Quadrature.Rule): (v: Value)
    requires Quadrature.RulesFit(leggauss)
    ensures v.Array? && |v.xs| == N
  {
    Quadrature.Integral(SphericalIntegrand(w, N), [(-1.0, 1.0)], SphericalKsample(N), leggauss)
  }

  /** Entry n of the spherical integral is the rule's sum: over every node c of the
      `max(N + 1, 20)`-point rule, the mapped weight times the integrand's entry n at the
      mapped node. */
  lemma SphericalIntegralIsSum(w: real -> real, N: nat, leggauss: nat -> Quadrature.Rule, n: nat)
    requires Quadrature.RulesFit(leggauss) && n < N
    ensures var k := SphericalKsample(N)[0];
            SphericalIntegral(w, N, leggauss).xs[n] == Sum(SphericalTerms(w, k, Quadrature.RuleOf(leggauss, k), n))
  {
    var k := SphericalKsample(N)[0];
    var rule := Quadrature.RuleOf(leggauss, k);
    var f := SphericalIntegrand(w, N);
    Quadrature.OneAxis(f, -1.0, 1.0, k, leggauss);
    Quadrature.OneAxisSum(f, -1.0, 1.0, k, leggauss, n);
    SphericalTermsMatch(w, N, k, rule, n);
  }

  /** Term c of the spherical sum for entry n: the mapped weight times the radial weight
      and C_n^(3/2) at the mapped node. */
  function SphericalTerms(w: real -> real, k: nat, rule: Quadrature.Rule, n: nat): (terms: seq<real>)
    requires |rule.x| == k && |rule.w| == k
    ensures |terms| == k
  {
    seq(k, c requires 0 <= c < k =>
      Quadrature.MapWeight(rule.w[c], -1.0, 1.0) *
      (w(Quadrature.MapNode(rule.x[c], -1.0, 1.0)) * Gegenbauer.C(n, 0, Quadrature.MapNode(rule.x[c], -1.0, 1.0))))
  }

  lemma SphericalTermsMatch(w: real -> real, N: nat, k: nat, rule: Quadrature.Rule, n: nat)
    requires |rule.x| == k && |rule.w| == k && n < N
    ensures seq(k, c requires 0 <= c < k =>
              Quadrature.MapWeight(rule.w[c], -1.0, 1.0) *
              Quadrature.Eval(SphericalIntegrand(w, N), [Quadrature.MapNode(rule.x[c], -1.0, 1.0)]).xs[n])
            == SphericalTerms(w, k, rule, n)
  {
    var f := SphericalIntegrand(w, N);
    var terms := seq(k, c requires 0 <= c < k =>
      Quadrature.MapWeight(rule.w[c], -1.0, 1.0) * Quadrature.Eval(f, [Quadrature.MapNode(rule.x[c], -1.0, 1.0)]).xs[n]);
    var wanted := SphericalTerms(w, k, rule, n);
    forall c | 0 <= c < k
      ensures terms[c] == wanted[c]
    {
      var node := Quadrature.MapNode(rule.x[c], -1.0, 1.0);
      assert Coord([node], 0) == node;
    }
    assert terms == wanted;
  }

  /** Lines 283-291: the coefficient tables are those `SphericalCoeffs` builds from the
      integral of the spherical integrand (the default `roundoff = 0` leaves the integral
      as it is): shape (N, 1, 1), `Asin` zero, `Acos[n, 0, 0]` the scale K_n times entry n. */
  method ComputeCoeffsSpherical(dens: real -> real, N: nat, a: real, pi: real, leggauss: nat -> Quadrature.Rule)
    returns (c: Coeffs)
    requires Quadrature.RulesFit(leggauss)
    ensures c == SphericalCoeffs(SphericalIntegral(SphericalWeightOf(dens, a), N, leggauss).xs, pi)
  {
    var q := SphericalQuadrature(SphericalWeightOf(dens, a), N, leggauss);
    c := SphericalCoeffs(q, pi);
  }

  /** Line 287: `gaussianQuadrature(integrand, [[-1., 1.]], Ksample=Ksample)`, which always
      runs and, with `roundoff = 0`, returns the integral unchanged. */
  method SphericalQuadrature(w: real -> real, N: nat, leggauss: nat -> Quadrature.Rule)
    returns (q: seq<real>)
    requires Quadrature.RulesFit(leggauss)
    ensures q == SphericalIntegral(w, N, leggauss).xs
  {
    var integrated := Quadrature.GaussianQuadrature(SphericalIntegrand(w, N), [(-1.0, 1.0)], SphericalKsample(N), 0.0, leggauss);
    Quadrature.SnapNoRoundoff(SphericalIntegral(w, N, leggauss), 0.0);
    q := integrated.value.xs;
  }

  /** Lines 283-290 from the integral q: `Acos[n, 0, 0] = K[n] * q[n]`, `Asin` zero. */
  function SphericalCoeffs(q: seq<real>, pi: real): (c: Coeffs)
    ensures IsTensor(c.acos, |q|, 1, 1) && IsTensor(c.asin, |q|, 1, 1)
    ensures forall n :: 0 <= n < |q| ==> c.acos[n][0][0] == SphericalScale(n, pi) * q[n] && c.asin[n][0][0] == 0.0
  {
    Coeffs(seq(|q|, n requires 0 <= n < |q| => [[SphericalScale(n, pi) * q[n]]]), seq(|q|, _ => [[0.0]]))
  }

  // ---------------------------------------------------------------- axisymmetric fit

  /** Lines 338-347: the axisymmetric integrand, an N x L array (flattened row-major) whose
      entry (n, l) is the radial basis at xi times `rest(l, xi, costheta)`, which stands
      for the Legendre function P_l(costheta), the volume factor and the density. */
  function AxiIntegrand(N: nat, L: nat, rest: (nat, real, real) -> real): (f: seq<real> -> Value)
    ensures forall x :: Quadrature.Eval(f, x).Array? && |Quadrature.Eval(f, x).xs| == Cartesian.Prod([N, L])
    ensures forall x, n, l :: 0 <= n < N && 0 <= l < L ==>
      Quadrature.Eval(f, x).xs[Cartesian.Index([N, L], [n, l])] == RadialBasis(n, l, Coord(x, 0)) * rest(l, Coord(x, 0), Coord(x, 1))
  {
    AxiDigits(N, L);
    x => Array(seq(Cartesian.Prod([N, L]), i requires 0 <= i < Cartesian.Prod([N, L]) =>
      AxiEntry(rest, x, Cartesian.Digits([N, L], i))))
  }

  /** The entry at digits d = [n, l] of the axisymmetric integrand at the point x. */
  function AxiEntry(rest: (nat, real, real) -> real, x: seq<real>, d: seq<nat>): real
    requires |d| == 2
  {
    RadialBasis(d[0], d[1], Coord(x, 0)) * rest(d[1], Coord(x, 0), Coord(x, 1))
  }

  /** Entry (n, l) of the flattened N x L array sits at row Index([N, L], [n, l]). */
  lemma AxiDigits(N: nat, L: nat)
    ensures forall n, l :: 0 <= n < N && 0 <= l < L ==> Cartesian.Digits([N, L], Cartesian.Index([N, L], [n, l])) == [n, l]
  {
    forall n, l | 0 <= n < N && 0 <= l < L
      ensures Cartesian.Digits([N, L], Cartesian.Index([N, L], [n, l])) == [n, l]
    {
      Cartesian.DigitsOfIndex([N, L], [n, l]);
    }
  }

  /** Line 361, before the factor 2 pi: the unrounded integral over [-1, 1] x [-1, 1]. */
  function AxiIntegral(N: nat, L: nat, rest: (nat, real, real) -> real, K: seq<nat>,
                       leggauss: nat -> Quadrature.Rule): (v: Value)
    requires Quadrature.RulesFit(leggauss) && |K| == 2
    ensures v.Array? && |v.xs| == Cartesian.Prod([N, L])
  {
    Quadrature.Integral(AxiIntegrand(N, L, rest), [(-1.0, 1.0), (-1.0, 1.0)], K, leggauss)
  }

  /** Line 361: `gaussianQuadrature(integrand, [[-1., 1.], [-1., 1.]], Ksample=Ksample)`,
      which fails (None) exactly when an override is 0 and otherwise, with `roundoff = 0`,
      returns the integral unchanged. */
  method AxiQuadrature(N: nat, L: nat, rest: (nat, real, real) -> real, K: seq<nat>,
                       leggauss: nat -> Quadrature.Rule)
    returns (res: Option<seq<real>>)
    requires Quadrature.RulesFit(leggauss) && |K| == 2
    ensures res.Some? <==> Quadrature.Runnable(K)
    ensures res.Some? ==> res.value == AxiIntegral(N, L, rest, K, leggauss).xs
  {
    var integrated := Quadrature.GaussianQuadrature(AxiIntegrand(N, L, rest), [(-1.0, 1.0), (-1.0, 1.0)], K, 0.0, leggauss);
    if integrated.None? {
      return None;
    }
    Quadrature.SnapNoRoundoff(AxiIntegral(N, L, rest, K, leggauss), 0.0);
    res := Some(integrated.value.xs);
  }

  /** Lines 355-373 from the integral q (flattened N x L): both tables are N x L x L,
      `Asin` and every m > 0 slice of `Acos` stay zero, and `Acos[n, l, 0]` is
      `scale(n, l)` (the foreign `I**-1 * constants`) times 2 pi times entry (n, l). */
  function AxiCoeffs(q: seq<real>, N: nat, L: nat, scale: (nat, nat) -> real, pi: real): (c: Coeffs)
    requires |q| == Cartesian.Prod([N, L])
    ensures IsTensor(c.acos, N, L, L) && IsTensor(c.asin, N, L, L)
    ensures forall n, l, m :: 0 <= n < N && 0 <= l < L && 0 <= m < L ==>
      c.asin[n][l][m] == 0.0 && (m > 0 ==> c.acos[n][l][m] == 0.0)
    ensures forall n, l :: 0 <= n < N && 0 <= l < L ==>
      c.acos[n][l][0] == scale(n, l) * (q[Cartesian.Index([N, L], [n, l])] * (2.0 * pi))
  {
    Coeffs(seq(N, n requires 0 <= n < N => AxiSlice(q, N, L, scale, pi, n)), ZeroTensor(N, L, L))
  }

  /** The (L x L) slice n of the axisymmetric `Acos`: column 0 from q, zero elsewhere. */
  function AxiSlice(q: seq<real>, N: nat, L: nat, scale: (nat, nat) -> real, pi: real, n: nat): (s: Matrix)
    requires |q| == Cartesian.Prod([N, L]) && n < N
    ensures IsMatrix(s, L, L)
    ensures forall l, m :: 0 <= l < L && 0 <= m < L ==>
      s[l][m] == if m == 0 then scale(n, l) * (q[Cartesian.Index([N, L], [n, l])] * (2.0 * pi)) else 0.0
  {
    seq(L, l requires 0 <= l < L =>
      var v := scale(n, l) * (q[Cartesian.Index([N, L], [n, l])] * (2.0 * pi));
      seq(L, m => if m == 0 then v else 0.0))
  }

  /** An all-zero (n x l x k) table. */
  function ZeroTensor(n: nat, l: nat, k: nat): (t: Tensor)
    ensures IsTensor(t, n, l, k)
    ensures forall i, j, h :: 0 <= i < n && 0 <= j < l && 0 <= h < k ==> t[i][j][h] == 0.0
  {
    seq(n, _ => seq(l, _ => seq(k, _ => 0.0)))
  }

  /** Lines 350-373: None where the Python code raises (an override of 0 reaches
      `leggauss(0)`; with L = 0 the probe call of the integrand already fails, in
      `lpmn(0, -1, costheta)` at line 343). Otherwise the tables
      are those `AxiCoeffs` builds from the integral with the sample counts of
      `AxiKsample`. */
  method ComputeCoeffsAxi(N: nat, L: nat, rest: (nat, real, real) -> real, radialOrder: Option<nat>,
                          costhetaOrder: Option<nat>, scale: (nat, nat) -> real, pi: real,
                          leggauss: nat -> Quadrature.Rule)
    returns (res: Option<Coeffs>)
    requires Quadrature.RulesFit(leggauss)
    ensures res.Some? <==> L > 0 && radialOrder != Some(0) && costhetaOrder != Some(0)
    ensures res.Some? ==>
      res.value == AxiCoeffs(AxiIntegral(N, L, rest, AxiKsample(N, L, radialOrder, costhetaOrder), leggauss).xs,
                             N, L, scale, pi)
  {
    var K := AxiKsample(N, L, radialOrder, costhetaOrder);
    var integrated := AxiQuadrature(N, L, rest, K, leggauss);
    if integrated.None? {
      return None;
    }
    if L == 0 {
      // `Acos[:,:,0]` on an (N, 0, 0) array
      return None;
    }
    res := Some(AxiCoeffs(integrated.value, N, L, scale, pi));
  }

  // ---------------------------------------------------------------- general fit

  /** The shape (2, N, L, L) of the general integrand: cos/sin part, n, l, m. */
  function GeneralShape(N: nat, L: nat): seq<nat>
  {
    [2, N, L, L]
  }

  /** Lines 399-401: the factor `NN[l, m]`, whose infinite entries (m > l, where
      `gammaln(l - m + 1)` is infinite) are set to 0. */
  function GeneralNN(nn: (nat, nat) -> real, l: nat, m: nat): (r: real)
    ensures m > l ==> r == 0.0
    ensures m <= l ==> r == nn(l, m)
  {
    if m > l then 0.0 else nn(l, m)
  }

  /** Lines 390-405: the general integrand, a 2 x N x L x L array (flattened row-major)
      whose entry (t, n, l, m) is `-NN[l, m]` times the radial basis at xi times
      `rest(t, l, m, point)`, which stands for sqrt(2l + 1), the Legendre function
      P_l^m(cos theta), cos(m phi) (t = 0) or sin(m phi) (t = 1), the volume factor and
      the density. */
  function GeneralIntegrand(N: nat, L: nat, nn: (nat, nat) -> real, rest: (nat, nat, nat, seq<real>) -> real)
    : (f: seq<real> -> Value)
    ensures forall x :: Quadrature.Eval(f, x).Array? && |Quadrature.Eval(f, x).xs| == Cartesian.Prod(GeneralShape(N, L))
    ensures forall x, t, n, l, m :: 0 <= t < 2 && 0 <= n < N && 0 <= l < L && 0 <= m < L ==>
      Quadrature.Eval(f, x).xs[GeneralAt(N, L, t, n, l, m)] == GeneralEntry(N, L, nn, rest, x, [t, n, l, m])
  {
    GeneralDigits(N, L);
    x => Array(seq(Cartesian.Prod(GeneralShape(N, L)), i requires 0 <= i < Cartesian.Prod(GeneralShape(N, L)) =>
      GeneralEntry(N, L, nn, rest, x, Cartesian.Digits(GeneralShape(N, L), i))))
  }

  function GeneralEntry(N: nat, L: nat, nn: (nat, nat) -> real, rest: (nat, nat, nat, seq<real>) -> real,
                        x: seq<real>, d: seq<nat>): (r: real)
    requires |d| == 4
    ensures d[3] > d[2] ==> r == 0.0
  {
    -GeneralNN(nn, d[2], d[3]) * RadialBasis(d[1], d[2], Coord(x, 0)) * rest(d[0], d[2], d[3], x)
  }

  /** Line 413: the unrounded integral over [-1, 1] x [0, pi] x [0, 2 pi]. */
  function GeneralIntegral(N: nat, L: nat, nn: (nat, nat) -> real, rest: (nat, nat, nat, seq<real>) -> real,
                           pi: real, leggauss: nat -> Quadrature.Rule): (v: Value)
    requires Quadrature.RulesFit(leggauss)
    ensures v.Array? && |v.xs| == Cartesian.Prod(GeneralShape(N, L))
  {
    Quadrature.Integral(GeneralIntegrand(N, L, nn, rest), [(-1.0, 1.0), (0.0, pi), (0.0, 2.0 * pi)],
                        GeneralKsample(N, L), leggauss)
  }

  /** Position of entry (t, n, l, m) in the flattened integral. */
  function GeneralAt(N: nat, L: nat, t: nat, n: nat, l: nat, m: nat): (i: nat)
    requires t < 2 && n < N && l < L && m < L
    ensures i < Cartesian.Prod(GeneralShape(N, L))
  {
    Cartesian.Index(GeneralShape(N, L), [t, n, l, m])
  }

  /** Entry (t, n, l, m) of the flattened 2 x N x L x L array sits at row GeneralAt(t, n, l, m). */
  lemma GeneralDigits(N: nat, L: nat)
    ensures forall t, n, l, m :: 0 <= t < 2 && 0 <= n < N && 0 <= l < L && 0 <= m < L ==>
      Cartesian.Digits(GeneralShape(N, L), GeneralAt(N, L, t, n, l, m)) == [t, n, l, m]
  {
    forall t, n, l, m | 0 <= t < 2 && 0 <= n < N && 0 <= l < L && 0 <= m < L
      ensures Cartesian.Digits(GeneralShape(N, L), GeneralAt(N, L, t, n, l, m)) == [t, n, l, m]
    {
      Cartesian.DigitsOfIndex(GeneralShape(N, L), [t, n, l, m]);
    }
  }

  /** Every entry with m > l of the general integral is 0, before and after rounding. */
  lemma GeneralUpperVanishes(N: nat, L: nat, nn: (nat, nat) -> real, rest: (nat, nat, nat, seq<real>) -> real,
                             pi: real, leggauss: nat -> Quadrature.Rule, t: nat, n: nat, l: nat, m: nat)
    requires Quadrature.RulesFit(leggauss)
    requires t < 2 && n < N && l < m < L
    ensures GeneralIntegral(N, L, nn, rest, pi, leggauss).xs[GeneralAt(N, L, t, n, l, m)] == 0.0
    ensures Quadrature.Snap(GeneralIntegral(N, L, nn, rest, pi, leggauss), 0.0).xs[GeneralAt(N, L, t, n, l, m)] == 0.0
  {
    var shape := GeneralShape(N, L);
    var e := GeneralAt(N, L, t, n, l, m);
    Cartesian.DigitsOfIndex(shape, [t, n, l, m]);
    var f := GeneralIntegrand(N, L, nn, rest);
    forall x | |x| == 3
      ensures Quadrature.Eval(f, x).Array? && e < |Quadrature.Eval(f, x).xs| && Quadrature.Eval(f, x).xs[e] == 0.0
    {
      assert Quadrature.Eval(f, x).xs[e] == GeneralEntry(N, L, nn, rest, x, [t, n, l, m]);
    }
    Quadrature.EntryVanishes(f, [(-1.0, 1.0), (0.0, pi), (0.0, 2.0 * pi)], GeneralKsample(N, L), leggauss, 0.0, e);
  }

  /** Line 413: `gaussianQuadrature(integrand, [[-1., 1.], [0, pi], [0, 2 pi]],
      Ksample=Ksample)`, which fails (None) exactly when L = 0 and otherwise, with
      `roundoff = 0`, returns the integral unchanged. */
  method GeneralQuadrature(N: nat, L: nat, nn: (nat, nat) -> real, rest: (nat, nat, nat, seq<real>) -> real,
                           pi: real, leggauss: nat -> Quadrature.Rule)
    returns (res: Option<seq<real>>)
    requires Quadrature.RulesFit(leggauss)
    ensures res.Some? <==> L > 0
    ensures res.Some? ==> res.value == GeneralIntegral(N, L, nn, rest, pi, leggauss).xs
  {
    var integrated := Quadrature.GaussianQuadrature(GeneralIntegrand(N, L, nn, rest),
                                                    [(-1.0, 1.0), (0.0, pi), (0.0, 2.0 * pi)],
                                                    GeneralKsample(N, L), 0.0, leggauss);
    if integrated.None? {
      return None;
    }
    Quadrature.SnapNoRoundoff(GeneralIntegral(N, L, nn, rest, pi, leggauss), 0.0);
    res := Some(integrated.value.xs);
  }

  /** Lines 415-422 from the integral q (flattened 2 x N x L x L): both tables are
      N x L x L and `Acos[n, l, m]`, `Asin[n, l, m]` are `invI(n, l)` (the foreign
      `I**-1`) times the cos and the sin entry of q. */
  function GeneralCoeffs(q: seq<real>, N: nat, L: nat, invI: (nat, nat) -> real): (c: Coeffs)
    requires |q| == Cartesian.Prod(GeneralShape(N, L))
    ensures IsTensor(c.acos, N, L, L) && IsTensor(c.asin, N, L, L)
    ensures forall n, l, m :: 0 <= n < N && 0 <= l < L && 0 <= m < L ==>
      c.acos[n][l][m] == invI(n, l) * q[GeneralAt(N, L, 0, n, l, m)] &&
      c.asin[n][l][m] == invI(n, l) * q[GeneralAt(N, L, 1, n, l, m)]
  {
    Coeffs(seq(N, n requires 0 <= n < N => GeneralSlice(q, N, L, invI, 0, n)),
           seq(N, n requires 0 <= n < N => GeneralSlice(q, N, L, invI, 1, n)))
  }

  /** The (L x L) slice n of the general `Acos` (t = 0) or `Asin` (t = 1). */
  function GeneralSlice(q: seq<real>, N: nat, L: nat, invI: (nat, nat) -> real, t: nat, n: nat): (s: Matrix)
    requires |q| == Cartesian.Prod(GeneralShape(N, L)) && t < 2 && n < N
    ensures IsMatrix(s, L, L)
    ensures forall l, m :: 0 <= l < L && 0 <= m < L ==> s[l][m] == invI(n, l) * q[GeneralAt(N, L, t, n, l, m)]
  {
    seq(L, l requires 0 <= l < L => GeneralRow(q, N, L, invI, t, n, l))
  }

  /** Row l of that slice: entries m < L of half t, degree n, order l, scaled by invI(n, l). */
  function GeneralRow(q: seq<real>, N: nat, L: nat, invI: (nat, nat) -> real, t: nat, n: nat, l: nat): (r: seq<real>)
    requires |q| == Cartesian.Prod(GeneralShape(N, L)) && t < 2 && n < N && l < L
    ensures |r| == L
    ensures forall m :: 0 <= m < L ==> r[m] == invI(n, l) * q[GeneralAt(N, L, t, n, l, m)]
  {
    seq(L, m requires 0 <= m < L => invI(n, l) * q[GeneralAt(N, L, t, n, l, m)])
  }

  /** Lines 408-422: None where the Python code raises (L = 0 reaches `leggauss(0)`).
      Otherwise the tables are those `GeneralCoeffs` builds from the integral. */
  method ComputeCoeffsGeneral(N: nat, L: nat, nn: (nat, nat) -> real, rest: (nat, nat, nat, seq<real>) -> real,
                              invI: (nat, nat) -> real, pi: real, leggauss: nat -> Quadrature.Rule)
    returns (res: Option<Coeffs>)
    requires Quadrature.RulesFit(leggauss)
    ensures res.Some? <==> L > 0
    ensures res.Some? ==> res.value == GeneralCoeffs(GeneralIntegral(N, L, nn, rest, pi, leggauss).xs, N, L, invI)
  {
    var integrated := GeneralQuadrature(N, L, nn, rest, pi, leggauss);
    if integrated.None? {
      return None;
    }
    res := Some(GeneralCoeffs(integrated.value, N, L, invI));
  }

  /** Lines 399-401 and 415-422: since `NN[l, m]` is 0 for m > l, every entry with m > l
      of the general fit's `Acos` and `Asin` is zero. */
  lemma GeneralCoeffsUpperZero(N: nat, L: nat, nn: (nat, nat) -> real, rest: (nat, nat, nat, seq<real>) -> real,
                               invI: (nat, nat) -> real, pi: real, leggauss: nat -> Quadrature.Rule)
    requires Quadrature.RulesFit(leggauss)
    ensures forall n, l, m :: 0 <= n < N && 0 <= l < m < L ==>
      GeneralCoeffs(GeneralIntegral(N, L, nn, rest, pi, leggauss).xs, N, L, invI).acos[n][l][m] == 0.0 &&
      GeneralCoeffs(GeneralIntegral(N, L, nn, rest, pi, leggauss).xs, N, L, invI).asin[n][l][m] == 0.0
  {
    var c := GeneralCoeffs(GeneralIntegral(N, L, nn, rest, pi, leggauss).xs, N, L, invI);
    forall n, l, m | 0 <= n < N && 0 <= l < m < L
      ensures c.acos[n][l][m] == 0.0 && c.asin[n][l][m] == 0.0
    {
      GeneralUpperVanishes(N, L, nn, rest, pi, leggauss, 0, n, l, m);
      GeneralUpperVanishes(N, L, nn, rest, pi, leggauss, 1, n, l, m);
    }
  }
}
