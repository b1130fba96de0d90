/** The tensor-product Gauss-Legendre integrator `gaussianQuadrature`
    (SCFPotential.py:459-511). The one-dimensional nodes and weights on [-1, 1]
    (`numpy.polynomial.legendre.leggauss`) are foreign and reach the model as the function
    `leggauss`; the integrand is a function from a point to a number or a flat array. What
    is modelled is the affine map of every axis onto its bounds, the sum over every row of
    `cartesian(Ksample)` of the product of the row's weights times the integrand at the
    row's nodes, and the final rounding of small values to zero. */
module Quadrature {
  import opened Common
  import Cartesian

  /** Nodes and weights of a one-dimensional rule on [-1, 1]. */
  datatype Rule = Rule(x: seq<real>, w: seq<real>)

  /** `leggauss(k)`. */
  function RuleOf(leggauss: nat -> Rule, k: nat): Rule
  {
    leggauss(k)
  }

  /** `leggauss(k)` has k nodes and k weights for every k > 0. */
  ghost predicate RulesFit(leggauss: nat -> Rule)
  {
    forall k :: k > 0 ==> |RuleOf(leggauss, k).x| == k && |RuleOf(leggauss, k).w| == k
  }

  /** `.5*(b-a)*x + .5*(b+a)`: a node on [-1, 1] moved onto [a, b]. */
  function MapNode(x: real, a: real, b: real): real
  {
    0.5 * (b - a) * x + 0.5 * (b + a)
  }

  /** `.5*(b - a)*w`: a weight on [-1, 1] scaled for [a, b]. */
  function MapWeight(w: real, a: real, b: real): real
  {
    0.5 * (b - a) * w
  }

  /** The node map sends the end points of [-1, 1] to those of [a, b], keeps order, and
      sends [-1, 1] into [a, b]. */
  lemma MapNodeEnds(x: real, y: real, a: real, b: real)
    requires a <= b
    ensures MapNode(-1.0, a, b) == a && MapNode(1.0, a, b) == b
    ensures x <= y ==> MapNode(x, a, b) <= MapNode(y, a, b)
    ensures -1.0 <= x <= 1.0 ==> a <= MapNode(x, a, b) <= b
  {
    if x <= y {
      assert MapNode(y, a, b) - MapNode(x, a, b) == 0.5 * (b - a) * (y - x);
    }
    if -1.0 <= x <= 1.0 {
      var h := 0.5 * (b - a);
      assert MapNode(x, a, b) - a == h * (x + 1.0);
      assert b - MapNode(x, a, b) == h * (1.0 - x);
      NonNegativeProduct(h, x + 1.0);
      NonNegativeProduct(h, 1.0 - x);
    }
  }

  lemma NonNegativeProduct(p: real, q: real)
    requires p >= 0.0 && q >= 0.0
    ensures p * q >= 0.0
  {
  }

  /** The mapped weights of a rule add up to (b - a)/2 times the rule's own total, so a
      rule whose weights add up to 2 on [-1, 1] adds up to b - a on [a, b]. */
  lemma {:induction false} MappedWeightSum(w: seq<real>, a: real, b: real)
    ensures Sum(seq(|w|, c requires 0 <= c < |w| => MapWeight(w[c], a, b))) == 0.5 * (b - a) * Sum(w)
  {
    var m := seq(|w|, c requires 0 <= c < |w| => MapWeight(w[c], a, b));
    if |w| > 0 {
      var w' := w[..|w| - 1];
      MappedWeightSum(w', a, b);
      assert m[..|m| - 1] == seq(|w'|, c requires 0 <= c < |w'| => MapWeight(w'[c], a, b));
    }
  }

  /** `nu.max(Ksample)`. */
  function MaxOf(K: seq<nat>): (r: nat)
    requires |K| > 0
    ensures forall i :: 0 <= i < |K| ==> K[i] <= r
    ensures exists i :: 0 <= i < |K| && K[i] == r
  {
    if |K| == 1 then K[0]
    else
      var rest := MaxOf(K[1..]);
      assert forall i :: 1 <= i < |K| ==> K[i] == K[1..][i - 1];
      Max(K[0], rest)
  }

  /** The integrator gets past `nu.max(Ksample)` and every `leggauss(Ksample[i])`: at
      least one axis and no axis with zero samples. */
  predicate Runnable(K: seq<nat>)
  {
    |K| > 0 && forall i :: 0 <= i < |K| ==> K[i] > 0
  }

  /** `xp[i, c]` and `wp[i, c]` after the loop of lines 481-485: the mapped rule for the
      first `Ksample[i]` columns, zero in the rest. */
  function NodeEntry(bounds: seq<(real, real)>, K: seq<nat>, leggauss: nat -> Rule, i: nat, c: nat): real
    requires |K| == |bounds| && i < |K| && RulesFit(leggauss)
  {
    if c < K[i] then MapNode(RuleOf(leggauss, K[i]).x[c], bounds[i].0, bounds[i].1) else 0.0
  }

  function WeightEntry(bounds: seq<(real, real)>, K: seq<nat>, leggauss: nat -> Rule, i: nat, c: nat): real
    requires |K| == |bounds| && i < |K| && RulesFit(leggauss)
  {
    if c < K[i] then MapWeight(RuleOf(leggauss, K[i]).w[c], bounds[i].0, bounds[i].1) else 0.0
  }

  /** `xp` and `wp` hold the mapped tables. */
  ghost predicate Tables(xp: array2<real>, wp: array2<real>, bounds: seq<(real, real)>, K: seq<nat>, leggauss: nat -> Rule)
    requires |K| == |bounds| && RulesFit(leggauss) && Runnable(K)
    reads xp, wp
  {
    xp.Length0 == |K| && wp.Length0 == |K| && xp.Length1 == MaxOf(K) && wp.Length1 == MaxOf(K) &&
    forall i, c :: 0 <= i < |K| && 0 <= c < MaxOf(K) ==>
      xp[i, c] == NodeEntry(bounds, K, leggauss, i, c) && wp[i, c] == WeightEntry(bounds, K, leggauss, i, c)
  }

  /** Lines 479-485: the len(bounds) x max(Ksample) tables of mapped nodes and weights;
      `ok` is false where the Python code raises (no axis, or an axis with no samples). */
  method MapSamples(bounds: seq<(real, real)>, K: seq<nat>, leggauss: nat -> Rule)
    returns (ok: bool, xp: array2<real>, wp: array2<real>)
    requires |K| == |bounds| && RulesFit(leggauss)
    ensures ok <==> Runnable(K)
    ensures ok ==> Tables(xp, wp, bounds, K, leggauss)
  {
    if |K| == 0 {
      xp, wp := new real[0, 0], new real[0, 0];
      return false, xp, wp;
    }
    var width := MaxOf(K);
    xp := new real[|K|, width]((_, _) => 0.0);
    wp := new real[|K|, width]((_, _) => 0.0);
    for i := 0 to |K|
      invariant forall j :: 0 <= j < i ==> K[j] > 0
      invariant forall j, c :: 0 <= j < i && 0 <= c < width ==>
        xp[j, c] == NodeEntry(bounds, K, leggauss, j, c) && wp[j, c] == WeightEntry(bounds, K, leggauss, j, c)
      invariant forall j, c :: i <= j < |K| && 0 <= c < width ==> xp[j, c] == 0.0 && wp[j, c] == 0.0
    {
      if K[i] == 0 {
        return false, xp, wp;
      }
      var rule := RuleOf(leggauss, K[i]);
      var (a, b) := bounds[i];
      for c := 0 to K[i]
        invariant forall j, d :: 0 <= j < i && 0 <= d < width ==>
          xp[j, d] == NodeEntry(bounds, K, leggauss, j, d) && wp[j, d] == WeightEntry(bounds, K, leggauss, j, d)
        invariant forall d :: 0 <= d < width ==>
          xp[i, d] == (if d < c then NodeEntry(bounds, K, leggauss, i, d) else 0.0) &&
          wp[i, d] == (if d < c then WeightEntry(bounds, K, leggauss, i, d) else 0.0)
        invariant forall j, d :: i < j < |K| && 0 <= d < width ==> xp[j, d] == 0.0 && wp[j, d] == 0.0
      {
        xp[i, c] := MapNode(rule.x[c], a, b);
        wp[i, c] := MapWeight(rule.w[c], a, b);
      }
    }
    ok := true;
  }

  /** `nu.prod`, left to right. */
  function Product(s: seq<real>): real
  {
    if |s| == 0 then 1.0 else Product(s[..|s| - 1]) * s[|s| - 1]
  }

  /** A tuple of sample indices, one per axis, each below its axis's count. */
  predicate InShape(d: seq<nat>, K: seq<nat>)
  {
    |d| == |K| && forall j :: 0 <= j < |d| ==> d[j] < K[j]
  }

  /** The weights `wp[index]` of the row with sample indices d, one per axis. */
  function RowWeights(bounds: seq<(real, real)>, K: seq<nat>, leggauss: nat -> Rule, d: seq<nat>): (w: seq<real>)
    requires |K| == |bounds| && RulesFit(leggauss) && InShape(d, K)
    ensures |w| == |K|
  {
    seq(|K|, j requires 0 <= j < |K| => WeightEntry(bounds, K, leggauss, j, d[j]))
  }

  /** The nodes `xp[index]` of the row with sample indices d: the point the integrand is
      evaluated at. */
  function RowNodes(bounds: seq<(real, real)>, K: seq<nat>, leggauss: nat -> Rule, d: seq<nat>): (x: seq<real>)
    requires |K| == |bounds| && RulesFit(leggauss) && InShape(d, K)
    ensures |x| == |K|
  {
    seq(|K|, j requires 0 <= j < |K| => NodeEntry(bounds, K, leggauss, j, d[j]))
  }

  /** `integrand(*x)`. */
  function Eval(f: seq<real> -> Value, x: seq<real>): Value
  {
    f(x)
  }

  /** `integrand(*nu.zeros(len(bounds)))`, the call that decides the shape of the sum. */
  function Probe(f: seq<real> -> Value, d: nat): Value
  {
    Eval(f, seq(d, _ => 0.0))
  }

  predicate SameShape(u: Value, v: Value)
  {
    (u.Scalar? && v.Scalar?) || (u.Array? && v.Array? && |u.xs| == |v.xs|)
  }

  /** The integrand has the shape of the probe at every point. */
  ghost predicate Consistent(f: seq<real> -> Value, d: nat)
  {
    forall x :: |x| == d ==> SameShape(Eval(f, x), Probe(f, d))
  }

  /** The starting value of the sum: `0.` or `nu.zeros(shape)`. */
  function Zero(v: Value): (z: Value)
    ensures SameShape(z, v)
  {
    match v
    case Scalar(_) => Scalar(0.0)
    case Array(xs) => Array(seq(|xs|, _ => 0.0))
  }

  function AddScaledSeq(s: seq<real>, w: real, v: seq<real>): (r: seq<real>)
    requires |s| == |v|
    ensures |r| == |s|
  {
    seq(|s|, e requires 0 <= e < |s| => s[e] + w * v[e])
  }

  /** `s += w * v` on a number or entry by entry on an array. A term whose shape differs
      from the sum's is left out; for a consistent integrand that never happens. */
  function AddScaled(s: Value, w: real, v: Value): (r: Value)
    ensures SameShape(r, s)
  {
    if !SameShape(s, v) then s
    else match s
      case Scalar(x) => Scalar(x + w * v.x)
      case Array(xs) => Array(AddScaledSeq(xs, w, v.xs))
  }

  /** One term of the sum: the product of a row's weights and the integrand at its nodes. */
  datatype Sample = Sample(w: real, v: Value)

  /** `cartesian(Ksample)` as a value: row i holds the sample indices of the i-th term. */
  function Rows(K: seq<nat>): (rows: seq<seq<nat>>)
    ensures |rows| == Cartesian.Prod(K)
    ensures forall i :: 0 <= i < |rows| ==> InShape(rows[i], K)
  {
    seq(Cartesian.Prod(K), i requires 0 <= i < Cartesian.Prod(K) => Cartesian.Digits(K, i))
  }

  /** The terms of the sum, one per row, in row order. */
  function Samples(f: seq<real> -> Value, bounds: seq<(real, real)>, K: seq<nat>, leggauss: nat -> Rule,
                   rows: seq<seq<nat>>): (ts: seq<Sample>)
    requires |K| == |bounds| && RulesFit(leggauss) && Consistent(f, |K|)
    requires forall i :: 0 <= i < |rows| ==> InShape(rows[i], K)
    ensures |ts| == |rows|
    ensures forall i :: 0 <= i < |ts| ==> SameShape(ts[i].v, Probe(f, |K|))
  {
    seq(|rows|, i requires 0 <= i < |rows| => SampleOf(f, bounds, K, leggauss, rows[i]))
  }

  /** The term of the row with sample indices d. */
  function SampleOf(f: seq<real> -> Value, bounds: seq<(real, real)>, K: seq<nat>, leggauss: nat -> Rule,
                    d: seq<nat>): (t: Sample)
    requires |K| == |bounds| && RulesFit(leggauss) && Consistent(f, |K|) && InShape(d, K)
    ensures SameShape(t.v, Probe(f, |K|))
  {
    Sample(Product(RowWeights(bounds, K, leggauss, d)), Eval(f, RowNodes(bounds, K, leggauss, d)))
  }

  /** `s += w * v` for every term in order, from `start`; it keeps the shape of `start`. */
  function Fold(start: Value, ts: seq<Sample>): (s: Value)
    ensures SameShape(s, start)
  {
    if |ts| == 0 then start
    else AddScaled(Fold(start, ts[..|ts| - 1]), ts[|ts| - 1].w, ts[|ts| - 1].v)
  }

  /** The sum over the first i + 1 terms is the sum over the first i plus term i. */
  lemma FoldNext(start: Value, ts: seq<Sample>, i: nat)
    requires i < |ts|
    ensures Fold(start, ts[..i + 1]) == AddScaled(Fold(start, ts[..i]), ts[i].w, ts[i].v)
  {
    assert ts[..i + 1][..i] == ts[..i];
  }

  /** The unrounded result: every row's term added to the zero of the probe's shape. */
  function Integral(f: seq<real> -> Value, bounds: seq<(real, real)>, K: seq<nat>, leggauss: nat -> Rule): (s: Value)
    requires |K| == |bounds| && RulesFit(leggauss) && Consistent(f, |K|)
    ensures SameShape(s, Probe(f, |K|))
  {
    Fold(Zero(Probe(f, |K|)), Samples(f, bounds, K, leggauss, Rows(K)))
  }

  /** On numbers the accumulated value is the plain sum of weight times value, term by term. */
  lemma {:induction false} FoldScalarSum(ts: seq<Sample>)
    requires forall k :: 0 <= k < |ts| ==> ts[k].v.Scalar?
    ensures Fold(Scalar(0.0), ts) == Scalar(Sum(seq(|ts|, k requires 0 <= k < |ts| => ts[k].w * ts[k].v.x)))
  {
    if |ts| > 0 {
      var front := ts[..|ts| - 1];
      FoldScalarSum(front);
      var terms := seq(|ts|, k requires 0 <= k < |ts| => ts[k].w * ts[k].v.x);
      var earlier := seq(|front|, k requires 0 <= k < |front| => front[k].w * front[k].v.x);
      assert forall k :: 0 <= k < |front| ==> terms[..|ts| - 1][k] == terms[k] == earlier[k];
      assert terms[..|ts| - 1] == earlier;
    }
  }

  /** Entry e of the accumulated array is its start value plus the sum, term by term, of
      weight times the term's entry e. */
  lemma {:induction false} FoldEntrySum(start: Value, ts: seq<Sample>, e: nat)
    requires start.Array? && e < |start.xs|
    requires forall k :: 0 <= k < |ts| ==> ts[k].v.Array? && |ts[k].v.xs| == |start.xs|
    ensures Fold(start, ts).xs[e] == start.xs[e] + Sum(seq(|ts|, k requires 0 <= k < |ts| => ts[k].w * ts[k].v.xs[e]))
  {
    if |ts| > 0 {
      var front := ts[..|ts| - 1];
      FoldEntrySum(start, front, e);
      var terms := seq(|ts|, k requires 0 <= k < |ts| => ts[k].w * ts[k].v.xs[e]);
      var earlier := seq(|front|, k requires 0 <= k < |front| => front[k].w * front[k].v.xs[e]);
      assert forall k :: 0 <= k < |front| ==> terms[..|ts| - 1][k] == terms[k] == earlier[k];
      assert terms[..|ts| - 1] == earlier;
    }
  }

  /** An entry of the integrand that is 0 at every point is 0 in the unrounded and in the
      rounded result, whatever the bounds, sample counts and rule. */
  lemma EntryVanishes(f: seq<real> -> Value, bounds: seq<(real, real)>, K: seq<nat>, leggauss: nat -> Rule,
                      roundoff: real, e: nat)
    requires |K| == |bounds| && RulesFit(leggauss) && Consistent(f, |K|)
    requires forall x :: |x| == |K| ==> Eval(f, x).Array? && e < |Eval(f, x).xs| && Eval(f, x).xs[e] == 0.0
    ensures Integral(f, bounds, K, leggauss).Array? && e < |Integral(f, bounds, K, leggauss).xs|
    ensures Integral(f, bounds, K, leggauss).xs[e] == 0.0
    ensures Snap(Integral(f, bounds, K, leggauss), roundoff).xs[e] == 0.0
  {
    var probe := Probe(f, |K|);
    assert probe.Array? && e < |probe.xs|;
    var ts := Samples(f, bounds, K, leggauss, Rows(K));
    forall k | 0 <= k < |ts|
      ensures ts[k].v.Array? && |ts[k].v.xs| == |probe.xs| && ts[k].v.xs[e] == 0.0
    {
      var x := RowNodes(bounds, K, leggauss, Rows(K)[k]);
      assert ts[k].v == Eval(f, x);
    }
    var terms := seq(|ts|, k requires 0 <= k < |ts| => ts[k].w * ts[k].v.xs[e]);
    assert forall k :: 0 <= k < |terms| ==> terms[k] == 0.0;
    SumZero(terms);
    FoldEntrySum(Zero(probe), ts, e);
  }

  /** The terms of a one-axis sum written out: node c of the rule, mapped onto [a, b],
      with its mapped weight. */
  function OneAxisTerms(f: seq<real> -> Value, a: real, b: real, k: nat, leggauss: nat -> Rule): (ts: seq<Sample>)
    requires k > 0 && RulesFit(leggauss)
    ensures |ts| == k
  {
    seq(k, c requires 0 <= c < k =>
      Sample(MapWeight(RuleOf(leggauss, k).w[c], a, b), Eval(f, [MapNode(RuleOf(leggauss, k).x[c], a, b)])))
  }

  /** With one axis, row c of the sum is node c of the rule: its weight is the c-th mapped
      weight and the integrand is taken at the c-th mapped node. */
  lemma OneAxis(f: seq<real> -> Value, a: real, b: real, k: nat, leggauss: nat -> Rule)
    requires k > 0 && RulesFit(leggauss) && Consistent(f, 1)
    ensures Samples(f, [(a, b)], [k], leggauss, Rows([k])) == OneAxisTerms(f, a, b, k, leggauss)
    ensures Integral(f, [(a, b)], [k], leggauss) == Fold(Zero(Probe(f, 1)), OneAxisTerms(f, a, b, k, leggauss))
  {
    Cartesian.SingleAxis(k);
    var ts := Samples(f, [(a, b)], [k], leggauss, Rows([k]));
    var us := OneAxisTerms(f, a, b, k, leggauss);
    forall c | 0 <= c < k
      ensures ts[c] == us[c]
    {
      assert Rows([k])[c] == [c];
      var ws := RowWeights([(a, b)], [k], leggauss, [c]);
      assert ws == [MapWeight(RuleOf(leggauss, k).w[c], a, b)];
      assert Product(ws) == Product(ws[..0]) * ws[0];
      assert RowNodes([(a, b)], [k], leggauss, [c]) == [MapNode(RuleOf(leggauss, k).x[c], a, b)];
    }
    assert ts == us;
  }

  /** Entry e of a one-axis sum is the rule's weighted sum of the integrand's entry e. */
  lemma OneAxisSum(f: seq<real> -> Value, a: real, b: real, k: nat, leggauss: nat -> Rule, e: nat)
    requires k > 0 && RulesFit(leggauss) && Consistent(f, 1)
    requires Probe(f, 1).Array? && e < |Probe(f, 1).xs|
    ensures Fold(Zero(Probe(f, 1)), OneAxisTerms(f, a, b, k, leggauss)).xs[e] ==
      Sum(seq(k, c requires 0 <= c < k =>
        MapWeight(RuleOf(leggauss, k).w[c], a, b) * Eval(f, [MapNode(RuleOf(leggauss, k).x[c], a, b)]).xs[e]))
  {
    var rule := RuleOf(leggauss, k);
    var zero := Zero(Probe(f, 1));
    var ts := OneAxisTerms(f, a, b, k, leggauss);
    forall c | 0 <= c < k
      ensures ts[c].v.Array? && |ts[c].v.xs| == |zero.xs|
    {
      assert |[MapNode(rule.x[c], a, b)]| == 1;
    }
    FoldEntrySum(zero, ts, e);
    var terms := seq(|ts|, c requires 0 <= c < |ts| => ts[c].w * ts[c].v.xs[e]);
    var wanted := seq(k, c requires 0 <= c < k =>
      MapWeight(rule.w[c], a, b) * Eval(f, [MapNode(rule.x[c], a, b)]).xs[e]);
    assert forall c :: 0 <= c < k ==> terms[c] == wanted[c];
    assert terms == wanted;
  }

  function SnapSeq(s: seq<real>, roundoff: real): (r: seq<real>)
    ensures |r| == |s|
  {
    seq(|s|, e requires 0 <= e < |s| => if Abs(s[e]) < roundoff then 0.0 else s[e])
  }

  /** Lines 508-510: an array entry becomes 0 when its magnitude is strictly below
      `roundoff`; a number is kept only when its magnitude is strictly above it
      (`s *= fabs(s) > roundoff`), so a number exactly at `roundoff` becomes 0. */
  function Snap(v: Value, roundoff: real): (r: Value)
    ensures SameShape(r, v)
    ensures v.Array? ==> forall e :: 0 <= e < |v.xs| ==>
      (r.xs[e] == 0.0 <==> Abs(v.xs[e]) < roundoff || v.xs[e] == 0.0) &&
      (r.xs[e] == v.xs[e] || r.xs[e] == 0.0)
    ensures v.Scalar? ==> (r.x == 0.0 <==> Abs(v.x) <= roundoff || v.x == 0.0) && (r.x == v.x || r.x == 0.0)
  {
    match v
    case Scalar(x) => Scalar(if Abs(x) > roundoff then x else 0.0)
    case Array(xs) => Array(SnapSeq(xs, roundoff))
  }

  /** With `roundoff <= 0` (the default is 0) nothing is rounded. */
  lemma SnapNoRoundoff(v: Value, roundoff: real)
    requires roundoff <= 0.0
    ensures Snap(v, roundoff) == v
  {
    if v.Array? {
      assert Snap(v, roundoff).xs == v.xs;
    }
  }

  /** Rounding twice is rounding once. */
  lemma SnapIdempotent(v: Value, roundoff: real)
    ensures Snap(Snap(v, roundoff), roundoff) == Snap(v, roundoff)
  {
    if v.Array? {
      assert Snap(Snap(v, roundoff), roundoff).xs == Snap(v, roundoff).xs;
    }
  }

  /** The array `li` holds the rows. */
  ghost predicate Holds(li: array2<nat>, rows: seq<seq<nat>>, K: seq<nat>)
    requires forall i :: 0 <= i < |rows| ==> InShape(rows[i], K)
    reads li
  {
    li.Length0 == |rows| && li.Length1 == |K| &&
    forall i, c :: 0 <= i < |rows| && 0 <= c < |K| ==> InShape(rows[i], K) && li[i, c] == rows[i][c]
  }

  /** The weights and nodes of row i of `li`, `nu.prod(wp[index])` and `xp[index]`, for
      the row's sample indices d. */
  method SampleRow(xp: array2<real>, wp: array2<real>, li: array2<nat>, i: nat,
                   ghost bounds: seq<(real, real)>, K: seq<nat>, ghost leggauss: nat -> Rule, ghost d: seq<nat>)
    returns (w: real, x: seq<real>)
    requires |K| == |bounds| && RulesFit(leggauss) && Runnable(K) && InShape(d, K)
    requires Tables(xp, wp, bounds, K, leggauss)
    requires i < li.Length0 && li.Length1 == |K| && forall c :: 0 <= c < |K| ==> li[i, c] == d[c]
    ensures w == Product(RowWeights(bounds, K, leggauss, d))
    ensures x == RowNodes(bounds, K, leggauss, d)
  {
    ghost var ws, xs := RowWeights(bounds, K, leggauss, d), RowNodes(bounds, K, leggauss, d);
    w, x := 1.0, [];
    for j := 0 to |K|
      invariant w == Product(ws[..j]) && x == xs[..j]
    {
      var c := li[i, j];
      assert wp[j, c] == ws[j] && xp[j, c] == xs[j] by {
        assert c == d[j] < K[j] <= MaxOf(K);
      }
      assert ws[..j + 1][..j] == ws[..j];
      w, x := w * wp[j, c], x + [xp[j, c]];
    }
    assert ws[..|K|] == ws && xs[..|K|] == xs;
  }

  /** `s += w * v` on the accumulator array, entry by entry. */
  method AddScaledInPlace(acc: array<real>, w: real, v: seq<real>)
    requires acc.Length == |v|
    modifies acc
    ensures acc[..] == AddScaledSeq(old(acc[..]), w, v)
  {
    for e := 0 to acc.Length
      invariant forall p :: 0 <= p < acc.Length ==> acc[p] == (if p < e then old(acc[p]) + w * v[p] else old(acc[p]))
    {
      acc[e] := acc[e] + w * v[e];
    }
    assert forall p :: 0 <= p < acc.Length ==> acc[..][p] == AddScaledSeq(old(acc[..]), w, v)[p];
  }

  /** `s[nu.where(nu.fabs(s) < roundoff)] = 0`. */
  method SnapInPlace(acc: array<real>, roundoff: real)
    modifies acc
    ensures acc[..] == SnapSeq(old(acc[..]), roundoff)
  {
    for e := 0 to acc.Length
      invariant forall p :: 0 <= p < acc.Length ==>
        acc[p] == (if p < e && Abs(old(acc[p])) < roundoff then 0.0 else old(acc[p]))
    {
      if Abs(acc[e]) < roundoff {
        acc[e] := 0.0;
      }
    }
  }

  /** Everything the accumulation loop relies on: the node and weight tables are built,
      `li` holds the rows, and the integrand keeps the probe's shape. */
  ghost predicate Prepared(f: seq<real> -> Value, xp: array2<real>, wp: array2<real>, li: array2<nat>,
                           bounds: seq<(real, real)>, K: seq<nat>, leggauss: nat -> Rule, rows: seq<seq<nat>>)
    reads xp, wp, li
  {
    |K| == |bounds| && RulesFit(leggauss) && Runnable(K) && Consistent(f, |K|) &&
    (forall i :: 0 <= i < |rows| ==> InShape(rows[i], K)) &&
    Tables(xp, wp, bounds, K, leggauss) && Holds(li, rows, K)
  }

  /** The weight and the integrand value of row i: `nu.prod(wp[index])` and
      `integrand(*xp[index])`, which make up term i of the sum. */
  method RowTerm(f: seq<real> -> Value, xp: array2<real>, wp: array2<real>, li: array2<nat>, i: nat,
                 ghost bounds: seq<(real, real)>, K: seq<nat>, ghost leggauss: nat -> Rule, ghost rows: seq<seq<nat>>)
    returns (w: real, v: Value)
    requires Prepared(f, xp, wp, li, bounds, K, leggauss, rows) && i < |rows|
    ensures Samples(f, bounds, K, leggauss, rows)[i] == Sample(w, v)
    ensures SameShape(v, Probe(f, |K|))
  {
    var x;
    w, x := SampleRow(xp, wp, li, i, bounds, K, leggauss, rows[i]);
    v := Eval(f, x);
  }

  /** The loop of lines 503-505 when the integrand gives numbers. */
  method SumScalar(f: seq<real> -> Value, xp: array2<real>, wp: array2<real>, li: array2<nat>,
                   ghost bounds: seq<(real, real)>, K: seq<nat>, ghost leggauss: nat -> Rule, ghost rows: seq<seq<nat>>)
    returns (s: real)
    requires Prepared(f, xp, wp, li, bounds, K, leggauss, rows) && Probe(f, |K|).Scalar?
    ensures Fold(Zero(Probe(f, |K|)), Samples(f, bounds, K, leggauss, rows)) == Scalar(s)
  {
    ghost var ts, zero := Samples(f, bounds, K, leggauss, rows), Zero(Probe(f, |K|));
    assert li.Length0 == |ts|;
    s := 0.0;
    for i := 0 to li.Length0
      invariant Fold(zero, ts[..i]) == Scalar(s)
    {
      var w, v := RowTerm(f, xp, wp, li, i, bounds, K, leggauss, rows);
      FoldNext(zero, ts, i);
      // `s += w * v` on a number
      s := AddScaled(Scalar(s), w, v).x;
    }
    assert ts[..li.Length0] == ts;
  }

  /** The loop of lines 503-505 when the integrand gives arrays: `acc` starts at zero and
      every row adds into it in place. */
  method SumArray(f: seq<real> -> Value, xp: array2<real>, wp: array2<real>, li: array2<nat>, acc: array<real>,
                  ghost bounds: seq<(real, real)>, K: seq<nat>, ghost leggauss: nat -> Rule, ghost rows: seq<seq<nat>>)
    requires Prepared(f, xp, wp, li, bounds, K, leggauss, rows) && Probe(f, |K|).Array?
    requires acc[..] == Zero(Probe(f, |K|)).xs
    modifies acc
    ensures Fold(Zero(Probe(f, |K|)), Samples(f, bounds, K, leggauss, rows)) == Array(acc[..])
  {
    ghost var ts, zero := Samples(f, bounds, K, leggauss, rows), Zero(Probe(f, |K|));
    assert li.Length0 == |ts|;
    for i := 0 to li.Length0
      invariant Fold(zero, ts[..i]) == Array(acc[..])
    {
      var w, v := RowTerm(f, xp, wp, li, i, bounds, K, leggauss, rows);
      FoldNext(zero, ts, i);
      AddScaledInPlace(acc, w, v.xs);
    }
    assert ts[..li.Length0] == ts;
  }

  /** `gaussianQuadrature(integrand, bounds, Ksample, roundoff)` with as many sample counts
      as bounds: None where the Python code raises, otherwise the rounded sum over all
      rows of `cartesian(Ksample)`. */
  method GaussianQuadrature(f: seq<real> -> Value, bounds: seq<(real, real)>, K: seq<nat>, roundoff: real,
                            leggauss: nat -> Rule)
    returns (res: Option<Value>)
    requires |K| == |bounds| && RulesFit(leggauss) && Consistent(f, |K|)
    ensures res.Some? <==> Runnable(K)
    ensures res.Some? ==> res.value == Snap(Integral(f, bounds, K, leggauss), roundoff)
  {
    var ok, xp, wp := MapSamples(bounds, K, leggauss);
    if !ok {
      return None;
    }
    var built, li := Cartesian.Cartesian(K);
    Cartesian.ProdPositive(K);
    Cartesian.FailsCharacterised(K);
    ghost var rows := Rows(K);
    assert built && Holds(li, rows, K);
    assert Prepared(f, xp, wp, li, bounds, K, leggauss, rows);
    // `s_temp = integrand(*nu.zeros(len(bounds)))` decides between a number and an array
    var probe := Probe(f, |K|);
    if probe.Scalar? {
      var s := SumScalar(f, xp, wp, li, bounds, K, leggauss, rows);
      // `s *= nu.fabs(s) > roundoff`
      if !(Abs(s) > roundoff) {
        s := 0.0;
      }
      return Some(Scalar(s));
    }
    var acc := new real[|probe.xs|](_ => 0.0);
    SumArray(f, xp, wp, li, acc, bounds, K, leggauss, rows);
    SnapInPlace(acc, roundoff);
    return Some(Array(acc[..]));
  }
}
