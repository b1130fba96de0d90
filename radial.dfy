/** The radius transform of the expansion: `_calculateXi` (SCFPotential.py:88-102) maps a
    radius r to xi = (r - a) / (r + a), and `xiToR` (SCFPotential.py:260-261) maps it back,
    r = a (1 + xi) / (1 - xi). */
module RadialTransform {

  /** `_calculateXi(r)` with scale length a; every radius r >= 0 lands in [-1, 1). */
  function Xi(r: real, a: real): (xi: real)
    requires r + a != 0.0
    ensures a > 0.0 && r >= 0.0 ==> -1.0 <= xi < 1.0
  {
    var xi := (r - a) / (r + a);
    QuotientFacts(r - a, r + a);
    if a > 0.0 && r >= 0.0 then
      SignOfFactor(xi + 1.0, r + a);
      SignOfFactor(1.0 - xi, r + a);
      xi
    else
      xi
  }

  /** `xiToR(xi, a)`; every xi in [-1, 1) gives a radius r >= 0. */
  function XiToR(xi: real, a: real): (r: real)
    requires xi != 1.0
    ensures a > 0.0 && -1.0 <= xi < 1.0 ==> r >= 0.0
  {
    var q := (1.0 + xi) / (1.0 - xi);
    QuotientFacts(1.0 + xi, 1.0 - xi);
    if a > 0.0 && -1.0 <= xi < 1.0 then
      SignOfFactor(q, 1.0 - xi);
      a * q
    else
      a * q
  }

  lemma QuotientFacts(x: real, d: real)
    requires d != 0.0
    ensures (x / d) * d == x
  {
  }

  lemma SignOfFactor(x: real, d: real)
    requires d > 0.0
    ensures x * d >= 0.0 ==> x >= 0.0
    ensures x * d > 0.0 ==> x > 0.0
  {
    if x < 0.0 {
      assert x * d < 0.0;
    }
  }

  /** The radius comes back unchanged from xi. */
  lemma RadiusRoundTrip(r: real, a: real)
    requires a != 0.0 && r + a != 0.0
    ensures Xi(r, a) != 1.0 && XiToR(Xi(r, a), a) == r
  {
    var s := r + a;
    var xi := Xi(r, a);
    QuotientFacts(r - a, s);
    assert (1.0 + xi) * s == 2.0 * r;
    assert (1.0 - xi) * s == 2.0 * a;
    var q := (1.0 + xi) / (1.0 - xi);
    QuotientFacts(1.0 + xi, 1.0 - xi);
    assert q * (2.0 * a) == q * ((1.0 - xi) * s) == (1.0 + xi) * s == 2.0 * r;
  }

  /** xi comes back unchanged from the radius. */
  lemma XiRoundTrip(xi: real, a: real)
    requires a != 0.0 && xi != 1.0
    ensures XiToR(xi, a) + a != 0.0 && Xi(XiToR(xi, a), a) == xi
  {
    var d := 1.0 - xi;
    var q := (1.0 + xi) / d;
    QuotientFacts(1.0 + xi, d);
    var r := XiToR(xi, a);
    assert r * d == a * (1.0 + xi);
    assert (r + a) * d == 2.0 * a;
    assert (r - a) * d == 2.0 * a * xi;
    var y := Xi(r, a);
    QuotientFacts(r - a, r + a);
    assert y * (r + a) == r - a;
    assert y * (2.0 * a) == y * ((r + a) * d) == (r - a) * d == xi * (2.0 * a);
  }

  /** The transform is strictly increasing in the radius. */
  lemma XiIncreasing(r1: real, r2: real, a: real)
    requires a > 0.0 && 0.0 <= r1 < r2
    ensures Xi(r1, a) < Xi(r2, a)
  {
    var s1, s2 := r1 + a, r2 + a;
    var x1, x2 := Xi(r1, a), Xi(r2, a);
    QuotientFacts(r1 - a, s1);
    QuotientFacts(r2 - a, s2);
    // (x2 - x1) s1 s2 = (r2 - a) s1 - (r1 - a) s2 = 2 a (r2 - r1) > 0
    assert (x2 - x1) * (s1 * s2) == (r2 - a) * s1 - (r1 - a) * s2 == 2.0 * a * (r2 - r1);
    SignOfFactor(x2 - x1, s1 * s2);
  }
}
