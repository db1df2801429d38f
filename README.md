# fast-mcmc core in Dafny

This project models the parameter-space and linear-algebra core of the
fast-mcmc Markov-chain Monte Carlo library, and proves properties of that model.

- **Fit parameters.** A `Parameter` has a start value, an absolute error and
  optional lower and upper limits. Its limit operations are total functions
  over reals: the closed-interval test, clamping, and reflection at a
  violated limit with a success flag. Construction (with `CheckLimits`) is a
  function returning a `Result`. A non-finite limit becomes unset. Inverted
  limits and a start value outside the limits are the two errors.
- **The parameter list.** `ParameterList` is a class holding:
  - `parameters`, a sequence that grows on write;
  - `correlations`, the lower triangle of the correlation matrix, where row
    `i` holds cells `(i, 0) .. (i, i)`;
  - `errorScaling`.

  Its methods produce the errors vector, the covariance matrix (an
  `array2<real>`) and the Cholesky factor, and include the element-wise
  limit operations on a point. The source's quirk is kept:
  `SetCorrelation(i, i, c)` writes nothing, so the stored diagonal keeps the
  initial value of the cells a resize adds. The model takes the matrix to be
  a `MatrixLower`, whose diagonal then reads 0.0; the unit-lower alternative
  is modelled too (see "Left out" and "Findings").
- **`choleskyDecompose`.** A method works in place on `array2<real>`. It is
  proved equal to a column-by-column specification function `CholeskyRun`.
  The status code, the column formulas, the reconstruction `L·Lᵀ = A`, the
  fact that only the lower triangle of `A` is read, and which columns are
  left untouched on failure are proved as lemmas about `CholeskyRun`.
  `double` is modelled as `real`. The square root is a parameter `sqrt` of
  which only `IsSqrt(sqrt)` is assumed: a positive root of every positive
  number.
- **The sampler's live code.** `MetropolisHastings` is a class with:
  - a constructor that sets the default scales and the beta list;
  - `Initialize`, which sets up one chain and one copy of the parameter
    configuration per beta and installs the default proposal;
  - `Advance`, whose algorithm is commented out in the source and which
    returns 0.0.
- **Numeric helpers.** `numberOfDigits` is a loop over C++ truncating
  division, which is written out explicitly because Dafny's `/` is
  Euclidean. `approxEqual` and `essentEqual` are relative-tolerance
  predicates.

Files: `wrappers.dfy` (Option and Result), `numeric.dfy`, `blas.dfy`,
`parameter.dfy`, `metropolis.dfy`.

## Model

| member | source | states |
|---|---|---|
| Numeric.TruncDiv | src/vmcmc/numeric.hpp:43 | C++ integer division by a positive divisor: the magnitude of the quotient is the floor of the magnitude ratio, and the quotient has the sign of the dividend (rounds toward zero) |
| Numeric.NumberOfDigits | src/vmcmc/numeric.hpp:33-47 | returns 1 for 0; for a nonzero number, the d ≥ 1 with 10^(d−1) ≤ \|number\| < 10^d, so it depends on \|number\| only |
| Numeric.DigitsBounds | src/vmcmc/numeric.hpp:40-46 | the digit count d of a positive m satisfies d ≥ 1 and 10^(d−1) ≤ m < 10^d |
| Numeric.DigitsUnique | src/vmcmc/numeric.hpp:40-46 | that d is the only one with those bounds |
| Numeric.DigitsOfNegation | src/vmcmc/numeric.hpp:41-44 | the digit count of −n and n agree; this is a property of the specification `Digits(Abs(·))` only. That the truncating-division loop returns that count for negative inputs is the loop invariant and second `ensures` of `NumberOfDigits` |
| Numeric.ApproxEqual | src/vmcmc/numeric.hpp:56-60 | approxEqual: equal values pass for every epsilon ≥ 0, and with epsilon 0 only equal values pass; its tolerance scaling and symmetry are in the Scale row |
| Numeric.ApproxEqualScale | src/vmcmc/numeric.hpp:56-60 | approxEqual scales the tolerance by max(\|a\|, \|b\|) and is symmetric in a and b |
| Numeric.EssentEqual | src/vmcmc/numeric.hpp:81-85 | essentEqual: equal values pass for every epsilon ≥ 0, and with epsilon 0 only equal values pass; its tolerance scaling and symmetry are in the Scale row |
| Numeric.EssentEqualScale | src/vmcmc/numeric.hpp:81-85 | essentEqual scales the tolerance by min(\|a\|, \|b\|) and is symmetric in a and b |
| Numeric.ApproxEqualReflexive | src/vmcmc/numeric.hpp:56-60 | approxEqual(a, a, eps) holds for eps ≥ 0 |
| Numeric.ZeroTolerance | src/vmcmc/numeric.hpp:56-85 | with eps = 0 both comparisons hold iff a == b |
| Numeric.EssentImpliesApprox | src/vmcmc/numeric.hpp:59-84 | for eps ≥ 0, essentEqual(a, b, eps) implies approxEqual(a, b, eps) |
| Numeric.Constrain | test/math-test.cpp:24-34 | the clamp into the interval spanned by the two bounds, in either order: the result lies in it, an inside value is kept, and a value outside is moved to the nearer end |
| Numeric.ConstrainTestCases | test/math-test.cpp:28-33 | the four clamp cases the test asserts, including bounds given in descending order |
| Parameters.NormalizeLimit | src/vmcmc/parameter.cpp:52-55 | a limit is kept exactly when it is finite; an unset or non-finite one becomes absent |
| Parameters.NewParameter | src/vmcmc/parameter.cpp:30-68 | construction fails with InvertedLimits exactly when both limits are finite and lower > upper; it succeeds exactly when the limits are not inverted and the start value is inside the finite limits; a built parameter has ordered limits and its start value inside them |
| Parameters.FixedParameter | src/vmcmc/parameter.cpp:25-28 | construction cannot fail; the result is fixed, has zero error and no limits, and every value is inside its limits |
| Parameters.Parameter.IsInsideLimits | src/vmcmc/parameter.cpp:70-74 | the closed-interval test; a value can be inside only when the limits are not inverted, and a parameter without limits accepts every value |
| Parameters.Parameter.SetRelativeError | src/vmcmc/parameter.cpp:45-48 | the absolute error becomes relError × start value and nothing else changes, so well-formedness is kept |
| Parameters.Parameter.ConstrainToLimits | src/vmcmc/parameter.cpp:76-82 | an inside value is unchanged; with ordered limits the result is inside the limits |
| Parameters.ConstrainIdempotent | src/vmcmc/parameter.cpp:76-82 | with ordered limits, clamping twice equals clamping once |
| Parameters.ConstrainIsNearest | src/vmcmc/parameter.cpp:76-82 | the clamped value is at least as close to v as any value inside the limits |
| Parameters.Parameter.ReflectFromLimits | src/vmcmc/parameter.cpp:84-101 | an inside value is kept with success; v < lower becomes 2·lower − v and succeeds iff that is not above the upper limit; the upper side is symmetric; on success the value is inside the limits |
| Parameters.ReflectOkIffInside | src/vmcmc/parameter.cpp:84-101 | with ordered limits, reflection succeeds exactly when its result is inside the limits |
| Parameters.ReflectKeepsDistance | src/vmcmc/parameter.cpp:84-101 | the reflected value lies as far beyond the violated limit, on the inside, as v lay outside it |
| Parameters.Grown | src/vmcmc/parameter.cpp:128-136 | growing the store keeps every earlier cell, zero-fills the new off-diagonal cells and gives the new diagonal cells the resize's initial value; the size ends up max(old, requested) |
| Parameters.StoreCorrelation | src/vmcmc/parameter.cpp:124-143 | a write with p1 == p2 changes nothing; otherwise only cell (max, min) changes, and it receives the value clamped to [−1, 1] |
| Parameters.ParameterList.constructor | src/vmcmc/parameter.cpp:103-105 | a new list is empty with error scaling 1.0 |
| Parameters.ParameterList.Copy | src/fmcmc/metropolis.cpp:40 | the implicit copy construction `assign` performs: a new list with the same parameters, correlations and error scaling, valid when its source is |
| Parameters.ParameterList.SetCorrelation | src/vmcmc/parameter.cpp:122-144 | the new store is the old one grown to max(p1, p2) + 1 rows, then the clamped write at (max, min) unless p1 == p2; the store invariant is kept (off-diagonal cells in [−1, 1], diagonal never written) |
| Parameters.NewRow | src/vmcmc/parameter.cpp:133-135 | the inner zero-fill loop: a new row i of length i + 1 whose cells before the diagonal are 0.0 and whose diagonal keeps the resize's initial value |
| Parameters.ResizeStore | src/vmcmc/parameter.cpp:130-136 | the resize with its nested zero-fill loop computes exactly `Grown` |
| Parameters.ParameterList.GetCorrelation | src/vmcmc/parameter.cpp:146-154 | the result lies in [−1, 1] and is CorrelationOf: 1.0 for p1 == p2 at any index, even one past the store, and the stored cell (max, min) otherwise |
| Parameters.CorrelationSymmetric | src/vmcmc/parameter.cpp:148-151 | GetCorrelation(i, j) == GetCorrelation(j, i) |
| Parameters.SetThenGetCorrelation | src/vmcmc/parameter.cpp:122-154 | after a write, the written pair reads the clamped value in either order; a pair of a parameter with itself still reads 1.0; other old pairs read what they read before; pairs involving a new row read 0 |
| Parameters.ParameterList.SetParameter | src/vmcmc/parameter.cpp:110-120 | the size becomes max(old, i + 1); slot i is the new parameter; other old slots are unchanged; new filler slots are FixedParameter("", 0.0); the store grows to at least i + 1 rows exactly when the list grew, and the list invariant is kept |
| Parameters.ParameterList.GetStartValues | src/vmcmc/parameter.cpp:156-169 | without randomisation, element i is the start value of parameter i, and it is inside that parameter's limits, so the final clamp changes nothing |
| Parameters.ParameterList.GetErrors | src/vmcmc/parameter.cpp:171-177 | element i is errorScaling × absoluteError of parameter i |
| Parameters.ParameterList.GetCovarianceMatrix | src/vmcmc/parameter.cpp:179-191 | a new n × n matrix; cell (i, j), j ≤ i, is the stored correlation (i, j) × errorScaling² × both absolute errors, including the stored diagonal; zero above the diagonal |
| Parameters.ParameterList.GetCholeskyDecomp | src/vmcmc/parameter.cpp:193-212 | a new matrix: the factor from choleskyDecompose of the covariance when the status is 0, and otherwise the diagonal matrix of GetErrors (zero below the diagonal) |
| Parameters.FillDiagonal | src/vmcmc/parameter.cpp:203-208 | the fallback loop turns a matrix with a zero upper triangle into the diagonal matrix of the given errors |
| Parameters.ParameterList.IsInsideLimits | src/vmcmc/parameter.cpp:214-224 | true iff every element is inside its parameter's limits |
| Parameters.ParameterList.ConstrainToLimits | src/vmcmc/parameter.cpp:226-232 | each element becomes its parameter's clamp of the old element |
| Parameters.ParameterList.ReflectFromLimits | src/vmcmc/parameter.cpp:234-246 | each element becomes its parameter's reflection of the old element; the result is true iff at least one element's reflection succeeded (an element already inside counts), so it is false for an empty list |
| Parameters.CholeskyAlwaysFallsBack | src/vmcmc/parameter.cpp:116 | as written, a non-empty list has covariance (0, 0) = 0, so the decomposition fails with status 1 and GetCholeskyDecomp returns the diagonal matrix of scaled errors, whatever the correlations |
| Parameters.ListCholeskyAlwaysFallsBack | src/vmcmc/parameter.cpp:193-212 | the same for every valid, non-empty ParameterList |
| Parameters.UnitLowerCovarianceIsIntended | src/vmcmc/parameter.cpp:179-191 | if the correlation matrix is unit-lower triangular, so that line 185 reads 1.0 on the diagonal, the covariance built equals the intended one exactly |
| Parameters.CovarianceDiffersOnDiagonal | src/vmcmc/parameter.cpp:185 | below the diagonal the covariance as written equals the intended one; on the diagonal it is 0 |
| Parameters.IntendedCovariance | src/vmcmc/parameter.cpp:179-191 | corrected definition: the diagonal holds the squared scaled errors, as GetCorrelation's 1.0 prescribes |
| Parameters.IntendedPassesFirstRow | src/vmcmc/parameter.cpp:193-198 | with the corrected covariance, a nonzero scaling and a nonzero first error take the decomposition past row 0 |
| Parameters.IntendedTwoParameters | src/vmcmc/parameter.cpp:193-198 | with the corrected covariance, two parameters with positive errors, a positive scaling and a correlation ρ in (−1, 1) decompose with status 0, giving L(0,0) = s·e0, L(1,0) = ρ·s·e1 and L(1,1)² = (s·e1)²(1 − ρ²) |
| Blas.CholeskyRun | src/vmcmc/blas.hpp:54-73 | the status is 0 or 1 + k for a row k at or after the starting column, and the factor stays n × n |
| Blas.CholeskyDecompose | src/vmcmc/blas.hpp:43-74 | the in-place loop on arrays returns the status and leaves in L exactly what `CholeskyRun` computes from the input |
| Blas.StoreColumn | src/vmcmc/blas.hpp:64-70 | writes L(k, k) and column k below it by the source's formula, and changes no other cell |
| Blas.InnerProd | src/vmcmc/blas.hpp:57-58 | the inner product of the first len cells of two rows of L |
| Blas.CholeskyStatus | src/vmcmc/blas.hpp:40-62 | the status lies in [0, n] and is 0 for n = 0; a status 1 + k names a row whose pivot A(k,k) − Σ_{m<k} L(k,m)² is not positive, and every earlier row's pivot is positive, so k is the first such row |
| Blas.CholeskyColumns | src/vmcmc/blas.hpp:64-70 | every finished column has L(k,k) > 0 with L(k,k)² equal to its pivot, and below it L(i,k) = (A(i,k) − Σ_{m<k} L(i,m)·L(k,m)) / L(k,k) |
| Blas.CholeskyFailureLeavesColumns | src/vmcmc/blas.hpp:60-61 | the upper triangle of L is never written; on failure at row k, column k and all later columns keep their values on entry |
| Blas.CholeskyReconstructs | src/vmcmc/blas.hpp:35-41 | on status 0, (L·Lᵀ)(i, j) = A(i, j) for every j ≤ i |
| Blas.CholeskyReadsLowerTriangle | src/vmcmc/blas.hpp:37-38 | two inputs equal on their lower triangles give the same status and the same L |
| Blas.CholeskyPassesFirstRow | src/vmcmc/blas.hpp:56-62 | the status is 1 exactly when A(0,0) ≤ 0 |
| Blas.CholeskyTwoByTwo | src/vmcmc/blas.hpp:56-73 | a 2 × 2 matrix with A(0,0) > 0 and a positive determinant is factorised with status 0 |
| Blas.CholeskyTwoByTwoCells | src/vmcmc/blas.hpp:56-73 | the cells of that factor: L(0,0)² = A(0,0), L(1,0)·L(0,0) = A(1,0), L(1,1)² = A(1,1) − L(1,0)² |
| Metropolis.MetropolisHastings.constructor | src/fmcmc/metropolis.cpp:18-23 | a new engine has betas [1.0], both scales 1.0, an empty parameter list, no chains and no proposal |
| Metropolis.MetropolisHastings.Initialize | src/fmcmc/metropolis.cpp:28-51 | an empty beta list becomes [1.0] and a non-empty one is kept; afterwards there are as many chains and configuration copies as betas. The copies are new lists, pairwise distinct, each equal to the configuration. Every chain, rebuilt from scratch, holds exactly the start point, whose values are inside their limits. A missing proposal becomes the Gaussian one and an existing one is kept. The result is true |
| Metropolis.CopyConfigs | src/fmcmc/metropolis.cpp:40 | `assign(nChains, fParameterConfig)`: n new lists, pairwise distinct and distinct from the configuration, each equal to it in parameters, correlations and error scaling |
| Metropolis.StartChains | src/fmcmc/metropolis.cpp:39-45 | n chains that were emptied, each then given the start point, so every chain is exactly [start point] |
| Metropolis.MetropolisHastings.Advance | src/fmcmc/metropolis.cpp:53-107 | returns 0.0 and, having no modifies clause, changes no state |

## Left out

- Random start points: `Random::Instance().GaussianMultiVariate` is an external random generator. Only `GetStartValues(false)` is modelled. The default of its argument lives in `parameter.h`, which is not part of this model.
- Logging (`LOG`, `LOG_ASSERT`): the size checks become `requires |point| == |parameters|`.
- Exception text: a failed construction is an `Err` carrying only the kind of error.
- IEEE arithmetic: `double` is `real` with no rounding, overflow, NaN or infinity. `std::isfinite` becomes the three-way `LimitInput`. `numeric::NaN` and `numeric::inf` are not modelled.
- `sqrt` is a parameter constrained by `IsSqrt`; its rounding is not modelled.
- Parameters.Parameter.ConstrainToLimits: the `double&` the source updates in place is modelled as the returned value. The same holds for Parameters.Parameter.ReflectFromLimits, which also returns the flag next to the value. A reference to one double cannot alias anything else here.
- Parameters.ParameterList.SetParameter: requires a well-formed parameter. Every `Parameter` object in the source has passed `CheckLimits`, so this excludes nothing the source can pass.
- Numeric.Constrain: `SetCorrelation` calls `numeric::constrain` from `vmcmc/numeric.h`, and the test calls an unqualified `constrain` from `vmcmc/math.hpp`. Neither header is part of this model. Treating the two as one function, with the behaviour the test shows (bounds in either order), is an inference. For the ordered bounds −1 and 1 that `SetCorrelation` passes, every reading gives the same clamp. Other functions the test uses (`pow`, the normal distribution functions) are not modelled.
- Parameters.InitialCell: the correlation matrix is declared in `parameter.h`, which is not part of this model, so its triangular type is open. Both triangular aliases in `blas.hpp` (lines 32-33) use std::vector storage. As a `MatrixLower`, the never-written diagonal reads as its value-initialised 0.0, and `CholeskyAlwaysFallsBack` and the finding below follow. As a `MatrixUnitLower`, line 185 reads 1.0 on the diagonal. Then `Parameters.UnitLowerCovarianceIsIntended` shows the covariance is the intended one and the finding does not arise. That reading fits every write shown: lines 135 and 143 stay strictly below the diagonal, and lines 138-139 return before a diagonal write.
- Metropolis.MetropolisHastings.Initialize: the source calls `GetStartValues()` with its default argument. The model takes that call as `GetStartValues(false)`, with no randomisation.
- `approxLessOrEqual`, `approxGreaterOrEqual`, `essentLessOrEqual` and `essentGreaterOrEqual` call functions that are never declared, so they cannot be instantiated.
- The uBLAS `operator==` and `operator!=` overloads in `blas.hpp` wrap `std::vector` equality.
- `MatrixLower`: the triangular uBLAS matrix is an `array2<real>` whose upper triangle is kept zero.
- Blas.CholeskyDecompose: requires distinct input and output arrays, as every caller in the source passes them.
- The commented-out Metropolis–Hastings step in `Advance`, `ProposalGaussian` itself, and the headers `metropolis.h` and `parameter.h`: these are not part of this model. The proposal is a tag, a `Sample` holds only its values, and `GetParameterConfig()` is read as the `parameterConfig` field.
- Metropolis.MetropolisHastings.Initialize: requires a valid parameter configuration. This is the invariant every `ParameterList` keeps.
- Parameter names play no part in any operation and are carried as strings.

## Findings

| source | as written | input that shows it | evidently intended | confidence | as-written member | corrected member |
|---|---|---|---|---|---|---|
| src/vmcmc/parameter.cpp:116 | `SetParameter` calls `SetCorrelation(i, i, 1.0)`, which returns at lines 138-139 before writing. So the stored diagonal keeps the resize's initial value. If the matrix is a `MatrixLower`, that is 0.0, and `GetCovarianceMatrix` (line 185) puts 0 on the covariance diagonal. `choleskyDecompose` then fails at row 0, and `GetCholeskyDecomp` always returns the diagonal of errors, ignoring every correlation. | `SetParameter(0, p)` and `SetParameter(1, q)` with both errors 1.0 and `SetCorrelation(1, 0, 0.5)`: covariance (0,0) = 0, status 1, result diag(1, 1) | the diagonal correlation is 1.0, as `GetCorrelation` reports and the 1.0 passed by `SetParameter` shows. A positive-definite covariance then decomposes: for this input L = [[1, 0], [0.5, √0.75]] | medium, not executed: the declaring header is not part of this model. If the matrix is a `MatrixUnitLower`, the diagonal reads 1.0 and there is no defect (`Parameters.UnitLowerCovarianceIsIntended`) | Parameters.CholeskyAlwaysFallsBack | Parameters.IntendedTwoParameters |

The ParameterList methods keep the source's behaviour. `Parameters.IntendedCovariance` is the corrected covariance, and `Parameters.IntendedPassesFirstRow` and `Parameters.IntendedTwoParameters` are proved about it. `Parameters.UnitLowerCovarianceIsIntended` shows that a unit-lower correlation matrix would already give that covariance.
