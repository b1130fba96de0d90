/** The radial polynomial table `_C(xi, L, N)` (SCFPotential.py:293-319): for every order
    l the Gegenbauer polynomials with alpha = 2l + 3/2, evaluated at xi by their
    three-term recurrence in the degree n. */
module Gegenbauer {

  /** The Gegenbauer parameter of order l, `alpha = 2*l + 3./2.`. */
  function Alpha(l: nat): (a: real)
    ensures a >= 1.5
  {
    2.0 * l as real + 1.5
  }

  /** One step of the recurrence: the degree n + 1 value from the degree n and n - 1
      values, `(n + 1.)**-1. * (2*(n + alpha)*xi*CC[n] - (n + 2*alpha - 1)*CC[n-1])`. */
  function Step(n: nat, alpha: real, xi: real, cn: real, cprev: real): real
  {
    (1.0 / (n as real + 1.0)) * (2.0 * (n as real + alpha) * xi * cn - (n as real + 2.0 * alpha - 1.0) * cprev)
  }

  /** The degree n polynomial of order l at xi, defined by the recurrence. */
  function C(n: nat, l: nat, xi: real): real
  {
    if n == 0 then 1.0
    else if n == 1 then 2.0 * Alpha(l) * xi
    else Step(n - 1, Alpha(l), xi, C(n - 1, l, xi), C(n - 2, l, xi))
  }

  /** The recurrence with its denominator cleared, the textbook three-term form:
      n C_n = 2 (n - 1 + alpha) xi C_{n-1} - (n + 2 alpha - 2) C_{n-2}. */
  lemma Recurrence(n: nat, l: nat, xi: real)
    requires n >= 2
    ensures n as real * C(n, l, xi)
      == 2.0 * ((n - 1) as real + Alpha(l)) * xi * C(n - 1, l, xi) - ((n - 1) as real + 2.0 * Alpha(l) - 1.0) * C(n - 2, l, xi)
  {
    var a, c1, c2 := Alpha(l), C(n - 1, l, xi), C(n - 2, l, xi);
    var k := (n - 1) as real + 1.0;
    assert C(n, l, xi) == Step(n - 1, a, xi, c1, c2);
    ClearDenominator(k, 2.0 * ((n - 1) as real + a) * xi * c1 - ((n - 1) as real + 2.0 * a - 1.0) * c2);
  }

  lemma ClearDenominator(k: real, e: real)
    requires k > 0.0
    ensures k * ((1.0 / k) * e) == e
  {
    assert k * (1.0 / k) == 1.0;
  }

  /** How many degrees of the current column are final when the inner loop is about to
      visit degree n: visiting 1 also writes degree 2, visiting n >= 2 writes n + 1. */
  function Done(n: nat): nat
  {
    if n <= 1 then n else n + 1
  }

  /** `_C(xi, L, N)`: the N x L table, filled column by column; while visiting degree n
      the loop writes degree n + 1 (and sets degree 1 itself when n == 1). Entry [n, l] is
      the recurrence value C(n, l, xi), whatever N is, so the table for N is the first N
      rows of the table for any larger N. */
  method CTable(xi: real, L: nat, N: nat) returns (cc: array2<real>)
    ensures fresh(cc)
    ensures cc.Length0 == N && cc.Length1 == L
    ensures forall n, l :: 0 <= n < N && 0 <= l < L ==> cc[n, l] == C(n, l, xi)
  {
    cc := new real[N, L]((_, _) => 0.0);
    for l := 0 to L
      invariant forall p, k :: 0 <= p < N && 0 <= k < l ==> cc[p, k] == C(p, k, xi)
    {
      FillColumn(cc, xi, l);
    }
  }

  /** The inner loop `for n in range(N)` of `_C` for one order l: it writes column l and
      no other entry. */
  method FillColumn(cc: array2<real>, xi: real, l: nat)
    requires l < cc.Length1
    modifies cc
    ensures forall p :: 0 <= p < cc.Length0 ==> cc[p, l] == C(p, l, xi)
    ensures forall p, k :: 0 <= p < cc.Length0 && 0 <= k < cc.Length1 && k != l ==> cc[p, k] == old(cc[p, k])
  {
    var N := cc.Length0;
    for n := 0 to N
      invariant forall p, k :: 0 <= p < N && 0 <= k < cc.Length1 && k != l ==> cc[p, k] == old(cc[p, k])
      invariant forall p :: 0 <= p < N && p < Done(n) ==> cc[p, l] == C(p, l, xi)
    {
      var alpha := Alpha(l);
      if n == 0 {
        cc[n, l] := 1.0;
        continue;
      } else if n == 1 {
        cc[n, l] := 2.0 * alpha * xi;
      }
      if n + 1 != N {
        assert cc[n, l] == C(n, l, xi) && cc[n - 1, l] == C(n - 1, l, xi);
        cc[n + 1, l] := Step(n, alpha, xi, cc[n, l], cc[n - 1, l]);
      }
    }
  }

  /** The recurrence step commutes with negating xi and flipping the sign of the previous
      value only. */
  lemma StepReflect(n: nat, alpha: real, xi: real, cn: real, cprev: real, s: real)
    ensures Step(n, alpha, -xi, -s * cn, s * cprev) == s * Step(n, alpha, xi, cn, cprev)
  {
    var d, u, b := 1.0 / (n as real + 1.0), 2.0 * (n as real + alpha), n as real + 2.0 * alpha - 1.0;
    assert u * (-xi) * (-s * cn) == s * (u * xi * cn);
    assert b * (s * cprev) == s * (b * cprev);
    assert d * (s * (u * xi * cn) - s * (b * cprev)) == s * (d * (u * xi * cn - b * cprev));
  }

  /** Parity of the degree, counted down one step at a time. */
  predicate Even(n: nat)
  {
    n == 0 || (n > 0 && !Even(n - 1))
  }

  lemma {:induction false} EvenIsModTwo(n: nat)
    ensures Even(n) <==> n % 2 == 0
  {
    if n > 0 {
      EvenIsModTwo(n - 1);
    }
  }

  /** Degree n has the parity of n at xi: C(n, l, -xi) = (-1)^n C(n, l, xi). */
  predicate Reflects(n: nat, l: nat, xi: real)
  {
    if Even(n) then C(n, l, -xi) == C(n, l, xi) else C(n, l, -xi) == -C(n, l, xi)
  }

  /** Parity: the degree n polynomial is even or odd with n, C(n, l, -xi) = (-1)^n C(n, l, xi). */
  lemma {:induction false} Parity(n: nat, l: nat, xi: real)
    ensures Reflects(n, l, xi)
  {
    if n >= 2 {
      Parity(n - 1, l, xi);
      Parity(n - 2, l, xi);
      ParityStep(n, l, xi);
    }
  }

  /** If degrees n - 1 and n - 2 have the parity of their degree, so has degree n. */
  lemma ParityStep(n: nat, l: nat, xi: real)
    requires n >= 2 && Reflects(n - 1, l, xi) && Reflects(n - 2, l, xi)
    ensures Reflects(n, l, xi)
  {
    if Even(n) {
      ReflectStep(n, l, xi, 1.0);
    } else {
      ReflectStep(n, l, xi, -1.0);
    }
  }

  /** If degrees n - 1 and n - 2 reflect with signs -s and s, degree n reflects with s. */
  lemma ReflectStep(n: nat, l: nat, xi: real, s: real)
    requires n >= 2
    requires C(n - 1, l, -xi) == -s * C(n - 1, l, xi) && C(n - 2, l, -xi) == s * C(n - 2, l, xi)
    ensures C(n, l, -xi) == s * C(n, l, xi)
  {
    StepReflect(n - 1, Alpha(l), xi, C(n - 1, l, xi), C(n - 2, l, xi), s);
  }

  /** Odd degrees vanish at the centre xi = 0 (radius r = a). */
  lemma OddVanishesAtCentre(n: nat, l: nat)
    requires n % 2 == 1
    ensures C(n, l, 0.0) == 0.0
  {
    EvenIsModTwo(n);
    Parity(n, l, 0.0);
  }

  /** The closed form at xi = 1: the product over k = 1..n of (k + 4l + 2) / k, which is
      the binomial coefficient (n + 4l + 2 choose n) = Gamma(n + 2 alpha) / (n! Gamma(2 alpha)). */
  function AtOne(n: nat, l: nat): real
  {
    if n == 0 then 1.0 else AtOne(n - 1, l) * ((n as real + 4.0 * l as real + 2.0) / n as real)
  }

  /** The recurrence reproduces the closed form of the polynomials at xi = 1. */
  lemma {:induction false} ValueAtOne(n: nat, l: nat)
    ensures C(n, l, 1.0) == AtOne(n, l)
  {
    if n == 1 {
      assert AtOne(1, l) == 1.0 * ((1.0 + 4.0 * l as real + 2.0) / 1.0);
    } else if n >= 2 {
      ValueAtOne(n - 1, l);
      ValueAtOne(n - 2, l);
      var a, k := Alpha(l), (n - 1) as real;
      var p, c1 := AtOne(n - 2, l), AtOne(n - 1, l);
      AtOneStep(n - 1, l);
      assert ((n - 1 - 1) as real + 2.0 * a) / (n - 1) as real == (k + 2.0 * a - 1.0) / k;
      StepAtOne(k, a, p, c1);
      assert C(n, l, 1.0) == Step(n - 1, a, 1.0, c1, p);
      AtOneStep(n, l);
      assert ((n - 1) as real + 2.0 * a) / n as real == (k + 2.0 * a) / (k + 1.0);
    }
  }

  /** One factor more of the closed form, written with alpha: (n - 1 + 2 alpha) / n. */
  lemma AtOneStep(n: nat, l: nat)
    requires n >= 1
    ensures AtOne(n, l) == AtOne(n - 1, l) * (((n - 1) as real + 2.0 * Alpha(l)) / n as real)
  {
    assert n as real + 4.0 * l as real + 2.0 == (n - 1) as real + 2.0 * Alpha(l);
  }

  /** The algebra of one step at xi = 1: if c1 = p (k + 2a - 1) / k then the step gives
      c1 (k + 2a) / (k + 1). */
  lemma StepAtOne(k: real, a: real, p: real, c1: real)
    requires k >= 1.0 && c1 == p * ((k + 2.0 * a - 1.0) / k)
    ensures (1.0 / (k + 1.0)) * (2.0 * (k + a) * 1.0 * c1 - (k + 2.0 * a - 1.0) * p)
      == c1 * ((k + 2.0 * a) / (k + 1.0))
  {
    var b := k + 2.0 * a - 1.0;
    assert (b / k) * k == b;
    assert c1 * k == p * ((b / k) * k) == b * p;
    assert 2.0 * (k + a) * 1.0 * c1 - b * p == 2.0 * (k + a) * c1 - c1 * k == c1 * (k + 2.0 * a);
  }

  /** Every polynomial of the family is positive at xi = 1. */
  lemma {:induction false} PositiveAtOne(n: nat, l: nat)
    ensures C(n, l, 1.0) > 0.0
  {
    ValueAtOne(n, l);
    AtOnePositive(n, l);
  }

  lemma {:induction false} AtOnePositive(n: nat, l: nat)
    ensures AtOne(n, l) > 0.0
  {
    if n > 0 {
      AtOnePositive(n - 1, l);
      var f := (n as real + 4.0 * l as real + 2.0) / n as real;
      assert f > 0.0;
    }
  }
}
