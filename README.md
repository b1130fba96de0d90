# SCF basis-expansion core of galpy's `SCFPotential`

galpy's `SCFPotential` describes a galaxy's gravitational potential and density as an
expansion in the Hernquist–Ostriker self-consistent-field (SCF) basis.

- **Radial part.** The radius r becomes xi = (r - a)/(r + a) on [-1, 1), and the radial
  basis uses Gegenbauer polynomials C_n^(2l+3/2)(xi).
- **Angular part.** It uses associated Legendre functions P_l^m(cos theta) and
  cos(m phi) / sin(m phi), normalised by the table `NN`.
- **Coefficients.** `Acos[n, l, m]` and `Asin[n, l, m]` weight each basis function.
- **Evaluation.** Evaluating the expansion contracts these tables at a point (`_compute`).
  `_computeArray` repeats this over one-dimensional arrays of points.
- **Fitting.** The fitters (`compute_coeffs_spherical`, `compute_coeffs_axi`,
  `compute_coeffs`) integrate a density against the basis with a tensor-product
  Gauss–Legendre rule (`gaussianQuadrature`). The index tuples for that rule come from the
  mixed-radix enumerator `cartesian`.

This project models these operations in Dafny over `real`. Every foreign SciPy/NumPy
routine enters as a function parameter or a given table:

- `leggauss`, `lpmn`, `gammaln`, `exp`, `sqrt`, `cos`, `sin`, and π;
- the density;
- the coordinate conversion.

The modules follow the structure of `galpy/potential_src/SCFPotential.py`:

| module | file | models |
|---|---|---|
| `Common` | common.dfy | values (number or 1-D array), sums, table shapes |
| `Cartesian` | cartesian.dfy | `cartesian`: recursive fill of a 2-D array, proved equal to mixed-radix digits |
| `Gegenbauer` | gegenbauer.dfy | `_C`: the in-place nested loop, proved equal to the three-term recurrence |
| `RadialTransform` | radial.dfy | `_calculateXi` and `xiToR` |
| `Normalization` | normalization.dfy | the structure of `_Nroot` |
| `Expansion` | expansion.dfy | `__init__`, `_compute`, and `_computeArray` for numbers and 1-D arrays |
| `Quadrature` | quadrature.dfy | `gaussianQuadrature`: node/weight tables, the accumulation loop, rounding |
| `Fitter` | fitter.dfy | the three coefficient fitters: sample counts, integrands, table layout and zero pattern |

## Model

| member | source | states |
|---|---|---|
| Cartesian.Prod | galpy/potential_src/SCFPotential.py:447 | the row count `n = nu.prod(sizes)`, the product of the axis sizes (1 for no axes); defined by recursion, with no contract of its own |
| Cartesian.Block | galpy/potential_src/SCFPotential.py:451 | the block size `m = n / arrays[0].size` under Python 2 integer division, taken as 0 when the first size is 0; `Cartesian.BlockIsTailProd` proves it is the product of the later sizes otherwise; no contract of its own |
| Cartesian.Fails | galpy/potential_src/SCFPotential.py:452-454 | the broadcast failure of `out[:,0] = nu.repeat(arrays[0], m)` at this level (the repeated column has n entries, the slice has `rows`, and numpy needs equal lengths or one entry), or at a deeper level of the recursive call; a predicate, characterised by `Cartesian.FailsCharacterised` |
| Cartesian.Digits | galpy/potential_src/SCFPotential.py:447-456 | row i of the table has one entry per axis, each entry below its axis size |
| Cartesian.DigitsUnfold | galpy/potential_src/SCFPotential.py:451-456 | row i is its block number i / m followed by row i mod m of the sub-table for the later axes, with m the product of the later sizes |
| Cartesian.Index | galpy/potential_src/SCFPotential.py:447 | the row number of an index tuple lies below the number of rows, prod(sizes) |
| Cartesian.DigitsOfIndex | galpy/potential_src/SCFPotential.py:447-457 | every index tuple appears in the table, as row Index(t) |
| Cartesian.IndexOfDigits | galpy/potential_src/SCFPotential.py:447-457 | no index tuple appears twice: reading row i back gives i |
| Cartesian.DigitsOrdered | galpy/potential_src/SCFPotential.py:451-456 | rows come out in strictly increasing lexicographic order, with column 0 most significant |
| Cartesian.BlockIsTailProd | galpy/potential_src/SCFPotential.py:447-451 | the block size n / size0 equals the product of the later sizes when size0 > 0 |
| Cartesian.FailsWithoutRows | galpy/potential_src/SCFPotential.py:452-454 | filling a sub-table with no rows fails exactly when some suffix of the sizes has two or more tuples, so that `repeat` cannot broadcast into an empty column |
| Cartesian.FailsCharacterised | galpy/potential_src/SCFPotential.py:447-456 | the top-level fill fails exactly when prod(sizes) = 0 and some proper suffix of the sizes has product at least 2 |
| Cartesian.ProdPositive | galpy/potential_src/SCFPotential.py:447 | a shape with no empty axis has at least one row |
| Cartesian.SingleAxis | galpy/potential_src/SCFPotential.py:451-452 | for one axis of size k the table is the column 0..k-1, and building it never fails |
| Cartesian.CopyRows | galpy/potential_src/SCFPotential.py:456 | the block copy `out[j*m:(j+1)*m, 1:] = out[0:m, 1:]` writes a copy of the first rows and changes nothing else |
| Cartesian.RepeatedBase | galpy/potential_src/SCFPotential.py:453-454 | the first m rows, filled with the sub-table, already hold row p % m of it in each row p |
| Cartesian.RepeatColumn | galpy/potential_src/SCFPotential.py:452 | `out[:,0] = repeat(arange(s0), m)` puts i / m in row i of the column and changes nothing else |
| Cartesian.CopyBlocks | galpy/potential_src/SCFPotential.py:455-456 | after the copy loop every block of m rows holds the sub-table for the later axes |
| Cartesian.CopyBlock | galpy/potential_src/SCFPotential.py:456 | one pass of the copy loop extends the repeated sub-table from j blocks to j + 1 blocks and writes only inside block j |
| Cartesian.Fill | galpy/potential_src/SCFPotential.py:447-457 | the recursive fill succeeds exactly when the numpy broadcasts succeed, and then writes row i = Digits(sizes, i) into its columns and nothing outside them |
| Cartesian.Cartesian | galpy/potential_src/SCFPotential.py:424-457 | fails exactly on an empty size list or a failing broadcast; otherwise returns prod(sizes) rows of len(sizes) columns, and row i is the mixed-radix digits of i |
| Gegenbauer.Alpha | galpy/potential_src/SCFPotential.py:312 | the Gegenbauer parameter `alpha = 2*l + 3./2.` is at least 3/2 |
| Gegenbauer.Step | galpy/potential_src/SCFPotential.py:318 | one recurrence step `(n + 1.)**-1 * (2*(n + alpha)*xi*CC[n] - (n + 2*alpha - 1)*CC[n-1])`; a definition, put in textbook form by `Gegenbauer.Recurrence` |
| Gegenbauer.C | galpy/potential_src/SCFPotential.py:312-318 | the degree-n value of the column for order l: 1 at n = 0, 2 alpha xi at n = 1, and one `Step` from the two previous degrees otherwise; a definition, which `Gegenbauer.CTable` is proved to fill in |
| Gegenbauer.Recurrence | galpy/potential_src/SCFPotential.py:318 | with the division cleared, the step is the three-term recurrence n C_n = 2 (n - 1 + alpha) xi C_(n-1) - (n + 2 alpha - 2) C_(n-2) |
| Gegenbauer.CTable | galpy/potential_src/SCFPotential.py:293-319 | the in-place loop returns an N x L table whose entry [n, l] is C(n, l, xi), the three-term recurrence with alpha = 2l + 3/2; entry [n, l] does not depend on N, so the table for N is a prefix of the table for any larger N |
| Gegenbauer.FillColumn | galpy/potential_src/SCFPotential.py:308-319 | the inner loop over n for one order l writes C(n, l, xi) in column l for every n and leaves every other column as it was |
| Gegenbauer.StepReflect | galpy/potential_src/SCFPotential.py:318 | one recurrence step commutes with negating xi when the two previous values change sign alternately |
| Gegenbauer.Parity | galpy/potential_src/SCFPotential.py:308-319 | the recurrence gives C(n, l, -xi) = (-1)^n C(n, l, xi) |
| Gegenbauer.ParityStep | galpy/potential_src/SCFPotential.py:318 | if degrees n - 1 and n - 2 are even or odd with their degree under xi -> -xi, so is degree n |
| Gegenbauer.ReflectStep | galpy/potential_src/SCFPotential.py:318 | if degrees n - 1 and n - 2 reflect under xi -> -xi with signs -s and s, the recurrence makes degree n reflect with sign s |
| Gegenbauer.OddVanishesAtCentre | galpy/potential_src/SCFPotential.py:308-319 | every odd-degree entry is 0 at xi = 0, that is at r = a |
| Gegenbauer.ValueAtOne | galpy/potential_src/SCFPotential.py:308-319 | at xi = 1 the recurrence gives the closed form, the product over k = 1..n of (k + 4l + 2) / k |
| Gegenbauer.AtOneStep | galpy/potential_src/SCFPotential.py:318 | the closed form at xi = 1 grows from degree n - 1 to n by the recurrence's factor (n - 1 + 2 alpha) / n |
| Gegenbauer.StepAtOne | galpy/potential_src/SCFPotential.py:318 | the algebra of one recurrence step at xi = 1 |
| Gegenbauer.AtOnePositive | galpy/potential_src/SCFPotential.py:308-319 | the closed form at xi = 1 is positive |
| Gegenbauer.PositiveAtOne | galpy/potential_src/SCFPotential.py:308-319 | every table entry is positive at xi = 1 |
| RadialTransform.Xi | galpy/potential_src/SCFPotential.py:101-102 | for a > 0 and r >= 0, xi lies in [-1, 1) |
| RadialTransform.XiToR | galpy/potential_src/SCFPotential.py:260-261 | for a > 0 and xi in [-1, 1), the radius is non-negative |
| RadialTransform.RadiusRoundTrip | galpy/potential_src/SCFPotential.py:101-102 | xiToR(_calculateXi(r)) = r, and xi never reaches 1 there |
| RadialTransform.XiRoundTrip | galpy/potential_src/SCFPotential.py:260-261 | _calculateXi(xiToR(xi)) = xi for xi other than 1 |
| RadialTransform.XiIncreasing | galpy/potential_src/SCFPotential.py:101-102 | xi is strictly increasing in r for a > 0 |
| Normalization.Doubled | galpy/potential_src/SCFPotential.py:84 | `NN[:,:] = g * 2` is L x L |
| Normalization.HalveFirstColumn | galpy/potential_src/SCFPotential.py:85 | `NN[:,0] /= 2` keeps the shape |
| Normalization.Tril | galpy/potential_src/SCFPotential.py:86 | `tril` keeps the shape |
| Normalization.LowerTriangular | galpy/potential_src/SCFPotential.py:86 | the property `nu.tril` establishes: every entry above the diagonal (m > l) is 0; a predicate, promised by `Normalization.Nroot` |
| Normalization.Nroot | galpy/potential_src/SCFPotential.py:80-87 | `_Nroot(L)` is L x L and zero above the diagonal (m > l); column 0 is g(l, 0), half the generic 2 g(l, m) of the other entries on or below the diagonal |
| Expansion.Valid | galpy/potential_src/SCFPotential.py:166-167 | the object `_compute` can read: Acos and Asin of shape (N, L, L) and NN of shape L x L; a predicate |
| Expansion.NewScf | galpy/potential_src/SCFPotential.py:59-63 | the constructor stores Acos, Asin and a as given, without a shape check; NN is L x L and lower-triangular whatever the coefficients are; tables of shape (N, L, L) give a valid object |
| Expansion.Term | galpy/potential_src/SCFPotential.py:181 | entry [n, l, m] of the product `func_tilde[:,:,None]*(Acos*mcos + Asin*msin)*PP[None]*NN[None]`; a definition, tied to `Expansion.Compute` entry by entry |
| Expansion.Compute | galpy/potential_src/SCFPotential.py:166-182 | `_compute` is an N x L x L table; entry [n, l, m] is tilde[n, l] (Acos cos_m + Asin sin_m) PP[l, m] NN[l, m]; it is 0 where NN[l, m] is 0 and where both coefficients are 0 |
| Expansion.PointField | galpy/potential_src/SCFPotential.py:208 | the value `nu.sum(self._compute(...))` at one point, the sum of the N x L x L terms; a definition, whose zero and upper-triangle properties are `Expansion.ZeroCoefficients` and `Expansion.UpperCoefficientsIgnored` |
| Expansion.UpperCoefficientsIgnored | galpy/potential_src/SCFPotential.py:80-87 | with a lower-triangular NN, changing coefficients above the diagonal changes neither the table nor the summed field |
| Expansion.ZeroCoefficients | galpy/potential_src/SCFPotential.py:181 | all-zero coefficients give a zero field at every point |
| Expansion.BroadcastLength | galpy/potential_src/SCFPotential.py:199-208 | the output shape comes from R, else z, else phi, whichever is the first array; with three numbers there is none |
| Expansion.Spread | galpy/potential_src/SCFPotential.py:211-213 | `ones(k) * v` succeeds exactly for a number, an array of length k or 1, or k = 1 with a non-empty array; then it has length k, and a number or a length-1 array is repeated |
| Expansion.ComputeArray | galpy/potential_src/SCFPotential.py:199-218 | three numbers give the summed field at that point; otherwise the result is None exactly when an input does not broadcast; if not None, it is an array of the broadcast length whose entry i is the summed field at the i-th coordinates |
| Expansion.Evaluate | galpy/potential_src/SCFPotential.py:210-217 | the loop over the rows of `cartesian([k])` writes the summed field at the i-th coordinates into entry i of the output, for every i < k |
| Quadrature.MapNode | galpy/potential_src/SCFPotential.py:484 | the node map `.5*(b-a)*x + .5*(b+a)` from [-1, 1] to [a, b]; a definition, whose properties are `Quadrature.MapNodeEnds` |
| Quadrature.MapWeight | galpy/potential_src/SCFPotential.py:485 | the weight map `.5*(b - a)*w`; a definition, whose sum is `Quadrature.MappedWeightSum` |
| Quadrature.MapNodeEnds | galpy/potential_src/SCFPotential.py:484 | the node map sends -1 and 1 to a and b, keeps order, and keeps nodes of [-1, 1] inside [a, b] |
| Quadrature.MappedWeightSum | galpy/potential_src/SCFPotential.py:485 | the mapped weights sum to (b - a) / 2 times the rule's own total |
| Quadrature.Runnable | galpy/potential_src/SCFPotential.py:479-482 | the integrator gets past `nu.max(Ksample)` and every `leggauss(Ksample[i])` exactly when there is at least one count and no count is 0; a predicate, the success condition of `Quadrature.GaussianQuadrature` and `Quadrature.MapSamples` |
| Quadrature.NodeEntry | galpy/potential_src/SCFPotential.py:479-484 | `xp[i, c]` after the mapping loop: the mapped node for c < Ksample[i], the zero padding of `nu.zeros` otherwise; a definition, checked against the array by `Quadrature.MapSamples` |
| Quadrature.WeightEntry | galpy/potential_src/SCFPotential.py:480-485 | `wp[i, c]` after the mapping loop: the mapped weight for c < Ksample[i], zero padding otherwise; a definition, checked against the array by `Quadrature.MapSamples` |
| Quadrature.MaxOf | galpy/potential_src/SCFPotential.py:479 | `max(Ksample)` bounds every count and is one of them |
| Quadrature.MapSamples | galpy/potential_src/SCFPotential.py:479-485 | the loop succeeds exactly when every count is positive; then the node and weight tables hold the mapped rule of each axis |
| Quadrature.Probe | galpy/potential_src/SCFPotential.py:491 | the probe call `integrand(*nu.zeros(len(bounds)))` that decides whether the sum is a number or an array; a definition |
| Quadrature.Zero | galpy/potential_src/SCFPotential.py:489-494 | the starting sum has the shape of the probe call's result |
| Quadrature.AddScaled | galpy/potential_src/SCFPotential.py:505 | `s += w * v` keeps the shape of s |
| Quadrature.Rows | galpy/potential_src/SCFPotential.py:500 | `cartesian(Ksample)` gives prod(Ksample) rows of in-range sample indices |
| Quadrature.Samples | galpy/potential_src/SCFPotential.py:503-505 | one term per row, each shaped like the probe's result |
| Quadrature.Fold | galpy/potential_src/SCFPotential.py:503-505 | accumulating the terms keeps the shape of the start value |
| Quadrature.FoldNext | galpy/potential_src/SCFPotential.py:503-505 | the sum over i + 1 terms is the sum over i terms plus term i |
| Quadrature.Integral | galpy/potential_src/SCFPotential.py:489-505 | the unrounded integral has the probe's shape |
| Quadrature.FoldScalarSum | galpy/potential_src/SCFPotential.py:503-505 | on numbers, the accumulated value is the plain sum of weight times value over the terms |
| Quadrature.FoldEntrySum | galpy/potential_src/SCFPotential.py:503-505 | on arrays, entry e is its start value plus the sum of weight times entry e over the terms |
| Quadrature.EntryVanishes | galpy/potential_src/SCFPotential.py:503-511 | an entry of the integrand that is 0 everywhere is 0 in the integral, before and after rounding |
| Quadrature.OneAxis | galpy/potential_src/SCFPotential.py:479-505 | with one axis, term c is the c-th node and weight of the rule, mapped onto [a, b] |
| Quadrature.OneAxisSum | galpy/potential_src/SCFPotential.py:479-505 | with one axis, entry e of the integral is the weighted sum over the mapped rule of the integrand's entry e |
| Quadrature.Snap | galpy/potential_src/SCFPotential.py:507-510 | an array entry becomes 0 exactly when its magnitude is below roundoff (strict); a number becomes 0 when its magnitude is at most roundoff; nothing else changes |
| Quadrature.SnapNoRoundoff | galpy/potential_src/SCFPotential.py:507-510 | with roundoff <= 0, the default 0 included, nothing is rounded |
| Quadrature.SnapIdempotent | galpy/potential_src/SCFPotential.py:507-510 | rounding twice is the same as rounding once |
| Quadrature.Product | galpy/potential_src/SCFPotential.py:505 | `nu.prod` of the row weights, left to right; a definition |
| Quadrature.RowWeights | galpy/potential_src/SCFPotential.py:504-505 | `wp[index]` for the row with sample indices d: one mapped weight per axis |
| Quadrature.RowNodes | galpy/potential_src/SCFPotential.py:504-505 | `xp[index]` for the row with sample indices d: one mapped node per axis, the point the integrand is called at |
| Quadrature.SampleOf | galpy/potential_src/SCFPotential.py:505 | the term `Sample(nu.prod(wp[index]), integrand(*xp[index]))` of one row; its value has the probe's shape |
| Quadrature.SampleRow | galpy/potential_src/SCFPotential.py:504-505 | `prod(wp[index])` and `xp[index]` for row i are the product of the row's mapped weights and its mapped nodes |
| Quadrature.AddScaledInPlace | galpy/potential_src/SCFPotential.py:505 | the array `s += w * v` updates each entry and nothing else |
| Quadrature.SnapSeq | galpy/potential_src/SCFPotential.py:509 | `s[nu.where(nu.fabs(s) < roundoff)] = 0` on an array: same length, each entry zeroed exactly when its magnitude is strictly below roundoff |
| Quadrature.SnapInPlace | galpy/potential_src/SCFPotential.py:509 | zeroing entries in place gives the rounded array |
| Quadrature.RowTerm | galpy/potential_src/SCFPotential.py:504-505 | the weight product and integrand value computed for row i are term i of the sum, shaped like the probe's result |
| Quadrature.SumScalar | galpy/potential_src/SCFPotential.py:503-505 | the loop over the rows, for numbers, ends with the accumulated sum of all terms |
| Quadrature.SumArray | galpy/potential_src/SCFPotential.py:503-505 | the loop over the rows, for arrays, leaves the accumulated sum of all terms in the accumulator |
| Quadrature.GaussianQuadrature | galpy/potential_src/SCFPotential.py:459-511 | fails exactly when some sample count is 0; otherwise returns the rounded sum, over every `cartesian(Ksample)` row, of the product of weights times the integrand at the mapped nodes |
| Fitter.SphericalKsample | galpy/potential_src/SCFPotential.py:286 | the spherical sample count is max(N + 1, 20), so it always runs |
| Fitter.AxiKsample | galpy/potential_src/SCFPotential.py:354-358 | the axisymmetric counts default to max(N + 3L/2 + 1, 20) (integer division) and max(L + 1, 20); a given override replaces either; the quadrature runs exactly when neither override is 0 |
| Fitter.GeneralKsample | galpy/potential_src/SCFPotential.py:412 | the general counts are (N + 3L//2 + 1, L, L), with no lower bound of 20; the quadrature runs exactly when L > 0 |
| Fitter.Pow | galpy/potential_src/SCFPotential.py:345 | the power `x**k` for a whole exponent k, as in `(1. + xi)**l` and `(1. - xi)**(l + 1.)`; a definition |
| Fitter.RadialBasis | galpy/potential_src/SCFPotential.py:345 | the radial factor `(1 + xi)**l * (1 - xi)**(l + 1) * _C(xi, L, N)[n, l]` of the axisymmetric and general integrands (line 403 for the general one); a definition |
| Fitter.SphericalWeight | galpy/potential_src/SCFPotential.py:281 | the weight `a**3 * dens(xiToR(xi)) * (1 + xi)**2 * (1 - xi)**-3`, taken as 0 at xi = 1 (see "Left out"); a definition, used by `Fitter.SphericalIntegrand` |
| Fitter.Cube | galpy/potential_src/SCFPotential.py:281 | the cube of a non-zero number is non-zero, so the spherical weight's division is defined for xi other than 1 |
| Fitter.SphericalIntegrand | galpy/potential_src/SCFPotential.py:277-281 | the spherical integrand is an array of length N whose entry n is the radial weight w(xi) times C(n, 0, xi); the spherical fit passes w(xi) = a^3 dens(xiToR(xi)) (1 + xi)^2 (1 - xi)^-3 |
| Fitter.SphericalDenominator | galpy/potential_src/SCFPotential.py:289 | the denominator of K_n is positive |
| Fitter.SphericalScale | galpy/potential_src/SCFPotential.py:289 | the factor K_n = 16 pi (n + 3/2) / ((n + 2)(n + 1)(1 + n(n + 3)/2)) is positive when pi is |
| Fitter.SphericalDenominatorExact | galpy/potential_src/SCFPotential.py:289 | the integer denominator equals the real (n + 2)(n + 1)(1 + n(n + 3)/2) of the source |
| Fitter.TimesShiftedIsEven | galpy/potential_src/SCFPotential.py:289 | n(n + 3) is even, so n(n + 3)/2 is exact |
| Fitter.SphericalIntegral | galpy/potential_src/SCFPotential.py:287 | the spherical integral is an array of length N |
| Fitter.SphericalTerms | galpy/potential_src/SCFPotential.py:287 | one term per node of the rule |
| Fitter.SphericalTermsMatch | galpy/potential_src/SCFPotential.py:287 | the terms of entry n are the mapped weights times the integrand's entry n at the mapped nodes |
| Fitter.SphericalIntegralIsSum | galpy/potential_src/SCFPotential.py:286-287 | entry n of the spherical integral is the sum over the max(N + 1, 20) nodes of weight times w(xi) C(n, 0, xi) |
| Fitter.SphericalQuadrature | galpy/potential_src/SCFPotential.py:287 | the spherical quadrature always runs and returns the integral unchanged (roundoff 0) |
| Fitter.SphericalCoeffs | galpy/potential_src/SCFPotential.py:283-290 | Acos and Asin are (N, 1, 1); Asin is zero and Acos[n, 0, 0] = K_n times entry n of the integral |
| Fitter.ComputeCoeffsSpherical | galpy/potential_src/SCFPotential.py:263-291 | the spherical fit returns the tables SphericalCoeffs builds from the integral of the spherical integrand |
| Fitter.AxiIntegrand | galpy/potential_src/SCFPotential.py:338-347 | the axisymmetric integrand is an array of N x L entries at every point, and the entry at row Index([N, L], [n, l]) is the radial basis of (n, l) at xi times `rest(l, xi, costheta)`, the (n, l) entry of `phi_nl * dV * dens` |
| Fitter.AxiDigits | galpy/potential_src/SCFPotential.py:338-347 | entry (n, l) of the flattened N x L integrand is read back at row Index([N, L], [n, l]) |
| Fitter.AxiIntegral | galpy/potential_src/SCFPotential.py:361 | the axisymmetric integral has N x L entries |
| Fitter.AxiQuadrature | galpy/potential_src/SCFPotential.py:361 | the axisymmetric quadrature fails exactly when a sample count is 0; otherwise it returns the integral unchanged |
| Fitter.AxiSlice | galpy/potential_src/SCFPotential.py:371 | slice n of Acos is L x L, with scale(n, l) 2 pi times entry (n, l) in column 0 and zero elsewhere |
| Fitter.ZeroTensor | galpy/potential_src/SCFPotential.py:350-351 | `zeros((N, L, L))` has that shape and is zero everywhere |
| Fitter.AxiCoeffs | galpy/potential_src/SCFPotential.py:350-373 | both tables are N x L x L; Asin and every m > 0 slice of Acos are zero; Acos[n, l, 0] is scale(n, l) times 2 pi times entry (n, l) of the integral |
| Fitter.ComputeCoeffsAxi | galpy/potential_src/SCFPotential.py:321-373 | the axisymmetric fit fails exactly when L = 0 or an override is 0; otherwise it returns the tables AxiCoeffs builds from the integral with the AxiKsample counts |
| Fitter.GeneralNN | galpy/potential_src/SCFPotential.py:398-401 | NN[l, m] is 0 for m > l (where gammaln gives infinity) and the finite factor otherwise |
| Fitter.GeneralIntegrand | galpy/potential_src/SCFPotential.py:390-405 | the general integrand is an array of 2 x N x L x L entries at every point, and the entry at GeneralAt(t, n, l, m) is `GeneralEntry` of [t, n, l, m], the (t, n, l, m) entry of the returned product |
| Fitter.GeneralDigits | galpy/potential_src/SCFPotential.py:390-405 | entry (t, n, l, m) of the flattened 2 x N x L x L integrand is read back at row GeneralAt(t, n, l, m) |
| Fitter.GeneralEntry | galpy/potential_src/SCFPotential.py:403-405 | an entry of the general integrand with m > l is 0 |
| Fitter.GeneralIntegral | galpy/potential_src/SCFPotential.py:413 | the general integral has 2 x N x L x L entries |
| Fitter.GeneralAt | galpy/potential_src/SCFPotential.py:405-420 | the flattened position of entry (t, n, l, m) lies inside the integral |
| Fitter.GeneralUpperVanishes | galpy/potential_src/SCFPotential.py:398-413 | every entry of the general integral with m > l is 0, before and after rounding |
| Fitter.GeneralQuadrature | galpy/potential_src/SCFPotential.py:412-413 | the general quadrature fails exactly when L = 0; otherwise it returns the integral unchanged |
| Fitter.GeneralSlice | galpy/potential_src/SCFPotential.py:420 | slice n of Acos (t = 0) or Asin (t = 1) is L x L, with entry (l, m) equal to invI(n, l) times the matching integral entry |
| Fitter.GeneralRow | galpy/potential_src/SCFPotential.py:420 | row l of that slice has L entries, entry m being invI(n, l) times the integral entry at GeneralAt(t, n, l, m) |
| Fitter.GeneralCoeffs | galpy/potential_src/SCFPotential.py:408-422 | both tables are N x L x L; Acos[n, l, m] and Asin[n, l, m] are invI(n, l) times the cos and sin entries of the integral |
| Fitter.ComputeCoeffsGeneral | galpy/potential_src/SCFPotential.py:375-422 | the general fit fails exactly when L = 0; otherwise it returns the tables GeneralCoeffs builds from the integral |
| Fitter.GeneralCoeffsUpperZero | galpy/potential_src/SCFPotential.py:398-422 | every entry with m > l of the general fit's Acos and Asin is zero |
| Common.Sum | galpy/potential_src/SCFPotential.py:208 | the sum of a sequence of reals, left to right; the innermost axis of `nu.sum`; a definition |
| Common.SumMatrix | galpy/potential_src/SCFPotential.py:208 | `nu.sum` over both axes of a matrix, row by row; a definition |
| Common.SumTensor | galpy/potential_src/SCFPotential.py:208 | `nu.sum` over all three axes of an N x L x L table, the reduction `_computeArray` applies to `_compute`; a definition, whose zero property is `Common.SumTensorZero` |
| Common.SumZero | galpy/potential_src/SCFPotential.py:505 | a sum of zeros is zero |
| Common.SumMatrixZero | galpy/potential_src/SCFPotential.py:208 | a table sum of zeros is zero |
| Common.SumTensorZero | galpy/potential_src/SCFPotential.py:208 | the `nu.sum` of an all-zero N x L x L table is zero |

## Left out

- **Foreign floating-point routines.**
  - `leggauss`, `lpmn`, `gammaln`, `exp`, `sqrt`, `cos`, `sin`, π and `eval_gegenbauer` are parameters.
  - No claim is made about their accuracy, about quadrature exactness or about orthogonality.
  - `leggauss(k)` is only required to return k nodes and k weights.
- **Floating point itself.** Everything is exact `real` arithmetic, with no rounding error and no infinities. The general fit's infinite `NN` entries appear as `GeneralNN`'s explicit 0.
- **`_rhoTilde` and `_phiTilde` formulas.** The N x L radial table reaches `Expansion.Compute` as a given matrix.
- **Coordinate conversion and object plumbing.** Not modelled:
  - `bovy_coords.cyl_to_spher` and `spher_to_cyl`;
  - the `Potential` base class;
  - astropy units, `amp`, `ro`/`vo` and `normalize`.
- **`_dens` and `_evaluate`.** They only pass `_rhoTilde` or `_phiTilde` to `_computeArray`. The choice of tilde function is part of the `basis` parameter of `Expansion.ComputeArray`.
- **Multi-dimensional arrays in `_computeArray`.** Only numbers and one-dimensional arrays are modelled, because the fancy indexing `R[li[i]][0]` selects whole rows for rank >= 2. Inputs are numbers or one-dimensional ndarrays. Python lists and other non-ndarray sequences are not modelled:
  the type test at lines 201-206 does not pick a list as the shape, but when another input is an ndarray, `nu.ones(shape, float)*R` at lines 211-213 spreads a list entry by entry, like an array.
- **Fitter normalisation constants.**
  - The axisymmetric and general constants (`K`, `lnI`, `I`, `constants`) are parameters: `scale` for the axisymmetric fit, `invI` for the general fit.
  - The integrands' transcendental factors are a parameter `rest`, and the general fit's finite NN values are a parameter `nn`.
  - Only the spherical K_n is written out, because it is rational.
- **Densities.** The density is a function parameter. In the spherical fit it enters through the weight `SphericalWeight`.
- **Quadrature.GaussianQuadrature: preconditions.**
  - It requires as many sample counts as bounds. An empty `Ksample` fails first, with a ValueError from `nu.max(Ksample)` (line 479). With fewer, but at least one, counts the source raises an IndexError reading `Ksample[i]` (line 482).
    With more counts, `cartesian(Ksample)` (line 500) enumerates every count. With two or more bounds the row index `[nu.arange(len(bounds)), li[i]]` (line 504) then pairs arrays of different lengths and raises.
    With one bound it broadcasts instead, and the integrand receives |K| arguments, all read from the first axis's nodes and weights. This case is not modelled.
  - It requires the integrand to return the same shape at every point as at the probe point. The source raises only in some of the other cases:
    - With an array probe, a later number or length-1 array broadcasts into `s += ...` (line 505) without error.
    - With a number probe, a later array term turns `s` into an array (line 505), and `s *= nu.fabs(s) > roundoff` (line 510) then works entry by entry.
    - Only an array term whose length differs from the sum's, and is not 1, raises a broadcast error.
    None of these mixed-shape cases is modelled.
- **Quadrature.AddScaled.** A term whose shape differs from the sum leaves the sum unchanged; the case cannot arise under the consistency precondition.
- **Expansion.Compute.** It requires tables of shape (N, L, L), that is M = L. The source reads N, L, M from `Acos.shape` (line 167) and does not require this.
  Tables of shape (N, L, 1) broadcast against `mcos`, `msin` and the L x L tables PP and NN (lines 178-181), and `_compute` then returns an N x L x L result. The model excludes every M different from L; it does not claim that such shapes fail.
- **Fitter.SphericalWeight.** It is given the value 0 at xi = 1, where the source divides by zero. No Gauss–Legendre node is ±1, so the quadrature never evaluates it there.
- **Fitter.AxiKsample.** Overrides are natural numbers. A negative `radial_order`/`costheta_order`, or a non-integer one, is not modelled.
- **Fitter.ComputeCoeffsAxi and Fitter.ComputeCoeffsGeneral: `None` outcome.** These and `Quadrature.GaussianQuadrature` return `None` where the source raises an exception; which exception is raised is not modelled.

## Where the code and its documentation differ

These follow the code:

- **Axisymmetric radial default.** It is `max(N + 3*L/2 + 1, 20)`, which under Python 2 is integer division, i.e. floor(3L/2). The docstring says `N + 3/2 L`.
- **General-fit sample counts.** They are `(N + 3L//2 + 1, L, L)`, with no lower bound of 20, unlike the other two fitters.
- **Axisymmetric cos(theta) default.** The code at line 354 uses `max(L + 1, 20)`. The docstring at line 332 says `max(20, L)`.
- **Constructor.** It does not check that Acos and Asin have the same shape, despite the comment at line 58.
