# Feldt-Gilmer reliability

A Dafny model of the `FeldtGilmer` estimator of test score reliability. It works
on the covariance matrix of n items and computes the following:

- **The pivot item ell.** This is the item with the largest off-diagonal row sum,
  `rowSum(i) - m[i][i]`. On a tie the first such item wins.
- **A weight per item.** The pivot's weight is 1. Every other item i gets
  `(rowSum(i) - m[i][ell] - m[i][i]) / (rowSum(ell) - m[i][ell] - m[ell][ell])`.
- **The coefficient** `(S^2 / (S^2 - Q)) * ((T - C) / T)`. Here S is the sum of
  the weights and Q the sum of their squares. T is the observed score variance,
  the sum of every entry. C is the component variance, the sum of the diagonal.
- **The item-deleted coefficients.** These are the same computation with each
  item left out in turn.

The model has five modules:

- `Doubles` models Java `double` values. A finite value is the exact real it
  denotes. Positive infinity, negative infinity and NaN follow the IEEE 754
  rules for `+`, `-`, `*`, `/` and `Math.pow(x, 2)`.
- `ScoreReliability` holds the three summary helpers the estimator inherits,
  `rowSum`, `totalVariance` and `diagonalSum`, as exact sums over the matrix.
  It also holds lemmas about the matrix with one row and column removed.
- `FeldtGilmer` holds the estimator's methods, with their loops, proved against
  specification functions. It also proves what the item-deleted computation
  actually returns.
- `FeldtGilmerTheorems` holds properties of the coefficient:
  - when the weights are finite;
  - when the result is NaN;
  - the closed form for items with equal variances and equal covariances;
  - a worked three-item example;
  - the meaning of the item-deleted adjustments.
- `ItemOrder` proves that listing the items in another order leaves the
  coefficient unchanged whenever the pivot is a strict maximum.

The matrix is an immutable square `seq<seq<real>>`. `nItems` is its length.

The item-deleted computation is modelled as the code writes it, not as its
documentation describes it:

- The inner loop adds `dAdj[i]`, the weight of the deleted item itself.
- The accumulators `sumDadj` and `sumD2adj` are never reset between items.
- `DwithoutItemAt` leaves the deleted slot at 0.

So both accumulators stay 0, and every entry of the result is `0/(0 - 0)`,
which is NaN. `FeldtGilmer.ItemDeletedReliability` states this, and the lemmas
beside it prove it. The variable names and the Javadoc at FeldtGilmer.java:133-138
("reliability estimate without the first item") suggest a loop that sums
`dAdj[j]` over the retained items and starts from 0 for each item. That reading
conflicts with `getEllWithoutItemAt` and `DwithoutItemAt`, which still use the
full `rowSum` including the deleted item. So no single corrected behaviour is
evident, and the model records the code's behaviour rather than a fix.

## Model

| member | source | states |
|---|---|---|
| FeldtGilmer.GetEll | src/main/java/com/itemanalysis/psychometrics/reliability/FeldtGilmer.java:40-55 | the result is the first index whose off-diagonal sum `rowSum(k) - m[k][k]` is at least every other item's and strictly greater than every earlier item's (strict `>` keeps the first maximum) |
| FeldtGilmer.FirstMax | src/main/java/com/itemanalysis/psychometrics/reliability/FeldtGilmer.java:46-53 | the scan's index is in range, holds a maximal value, and no earlier index holds that value |
| FeldtGilmer.GetEllWithoutItemAt | src/main/java/com/itemanalysis/psychometrics/reliability/FeldtGilmer.java:74-92 | if some retained item's off-diagonal sum exceeds `Double.MIN_VALUE`, the result is the first maximum among the retained items (so it is not `index`); otherwise the result is 0, even when `index` is 0 |
| FeldtGilmer.ScanExcluding | src/main/java/com/itemanalysis/psychometrics/reliability/FeldtGilmer.java:80-90 | the scan seeded with a value never goes below the seed; it keeps index 0 exactly when nothing retained beats the seed; otherwise it returns the first retained maximum, and that maximum bounds every retained entry |
| FeldtGilmer.ExcludedScanIsPivot | src/main/java/com/itemanalysis/psychometrics/reliability/FeldtGilmer.java:74-92 | the same two cases for the specification function of the excluded pivot |
| FeldtGilmer.ScanBelowSeed | src/main/java/com/itemanalysis/psychometrics/reliability/FeldtGilmer.java:81-90 | when every retained entry is at most the seed, the scan returns index 0 with the seed |
| FeldtGilmer.D | src/main/java/com/itemanalysis/psychometrics/reliability/FeldtGilmer.java:57-72 | returns a fresh array of length nItems; the pivot slot is exactly 1.0; every other slot i is the double quotient `(rowSum(i) - m[i][ell] - m[i][i]) / (rowSum(ell) - m[i][ell] - m[ell][ell])` |
| FeldtGilmer.DWithoutItemAt | src/main/java/com/itemanalysis/psychometrics/reliability/FeldtGilmer.java:94-113 | returns a fresh array of length nItems; the deleted slot stays 0; the pivot slot is 1.0 when the pivot is not the deleted item; every retained slot equals the corresponding weight of `D(ell)` |
| FeldtGilmer.Value | src/main/java/com/itemanalysis/psychometrics/reliability/FeldtGilmer.java:115-131 | NaN below three items; otherwise the formula applied to the weights around `getEll()`, with S and Q accumulated in index order and T, C the observed and component variances |
| FeldtGilmer.FormulaAsWritten | src/main/java/com/itemanalysis/psychometrics/reliability/FeldtGilmer.java:129 | the expression as written, with `observed - component` as a double subtraction, equals the formula |
| FeldtGilmer.ItemDeletedReliability | src/main/java/com/itemanalysis/psychometrics/reliability/FeldtGilmer.java:140-181 | returns a fresh array of length exactly nItems; entry i is the formula over the accumulators after item i and the adjusted variances of item i; every entry is NaN |
| FeldtGilmer.DeleteItem | src/main/java/com/itemanalysis/psychometrics/reliability/FeldtGilmer.java:155-177 | one outer iteration: the accumulators advance by the inner loop over the deleted item's own weight, which is 0; the result is the formula over the new accumulators and the adjusted variances `totalVariance - 2 * Σ_{j≠i} m[i][j] - m[i][i]` and `diagonalSum - m[i][i]` |
| FeldtGilmer.AccumulateDeletedWeight | src/main/java/com/itemanalysis/psychometrics/reliability/FeldtGilmer.java:170-173 | the inner loop adds `dAdj[i]` to `sumDadj` for every j other than i, and adds `dAdj[i]^2` to `sumD2adj` for every j, continuing from the incoming accumulators |
| FeldtGilmer.CovariancesBeforeIsSum | src/main/java/com/itemanalysis/psychometrics/reliability/FeldtGilmer.java:159-162 | the covariance loop after j columns is the sum of the row prefix without the diagonal entry |
| FeldtGilmer.CovariancesBeforeEnd | src/main/java/com/itemanalysis/psychometrics/reliability/FeldtGilmer.java:159-162 | after the whole row the covariance loop gives the off-diagonal sum `rowSum(i) - m[i][i]` |
| FeldtGilmer.OwnDeletedWeightsAreZero | src/main/java/com/itemanalysis/psychometrics/reliability/FeldtGilmer.java:169-171 | the weight `dAdj[i]` that the inner loop reads is always 0, because `DwithoutItemAt` never writes the deleted slot |
| FeldtGilmer.InnerAccumulateZero | src/main/java/com/itemanalysis/psychometrics/reliability/FeldtGilmer.java:170-173 | adding a zero weight any number of times leaves zero accumulators at zero |
| FeldtGilmer.AccumulateZeroItems | src/main/java/com/itemanalysis/psychometrics/reliability/FeldtGilmer.java:150-173 | accumulators that are never reset and only ever receive zero weights stay zero over any number of items |
| FeldtGilmer.AccumulatorsStayZero | src/main/java/com/itemanalysis/psychometrics/reliability/FeldtGilmer.java:150-173 | `sumDadj` and `sumD2adj` are exactly 0 before and after every outer iteration |
| FeldtGilmer.CoefficientOfZeroWeights | src/main/java/com/itemanalysis/psychometrics/reliability/FeldtGilmer.java:175-177 | with both sums 0, the formula is `0/(0 - 0)` times anything, which is NaN |
| FeldtGilmer.ItemDeletedIsNaN | src/main/java/com/itemanalysis/psychometrics/reliability/FeldtGilmer.java:140-181 | every item-deleted entry is NaN, for every matrix |
| ScoreReliability.MinorTotalVariance | src/main/java/com/itemanalysis/psychometrics/reliability/FeldtGilmer.java:156-165 | for a symmetric matrix, the total of the matrix without row and column k is `totalVariance - 2 * (rowSum(k) - m[k][k]) - m[k][k]` |
| ScoreReliability.MinorDiagonalSum | src/main/java/com/itemanalysis/psychometrics/reliability/FeldtGilmer.java:156-166 | the diagonal sum of the matrix without row and column k is `diagonalSum - m[k][k]` |
| FeldtGilmerTheorems.AdjustedVariancesOfMinor | src/main/java/com/itemanalysis/psychometrics/reliability/FeldtGilmer.java:156-166 | for a symmetric matrix, `totalVarianceAdjusted` and `diagonalSumAdjusted` of item i are the total and the diagonal sum of the matrix with item i removed |
| ScoreReliability.RowSumWithDiagonal | src/main/java/com/itemanalysis/psychometrics/reliability/FeldtGilmer.java:43 | `rowSum(i)`, as used at lines 43, 66-67 and 106-107, is the full row: the covariances of item i with every other item plus its variance `m[i][i]` |
| ScoreReliability.TotalIsSumOfRowSums | src/main/java/com/itemanalysis/psychometrics/reliability/FeldtGilmer.java:121 | `totalVariance()`, as used at lines 121 and 142, adds up every entry of the matrix: it is the sum of all row sums |
| ScoreReliability.TotalSplits | src/main/java/com/itemanalysis/psychometrics/reliability/FeldtGilmer.java:121-122 | `diagonalSum()`, as used at lines 122 and 143, is the sum of the item variances on the diagonal, and `totalVariance() - diagonalSum()` is the sum of every covariance |
| ItemOrder.SumOfPermuted | src/main/java/com/itemanalysis/psychometrics/reliability/FeldtGilmer.java:124-127 | the running double sum `sumD` does not depend on the order of the weights, special values included |
| ItemOrder.SumOfSquaresPermuted | src/main/java/com/itemanalysis/psychometrics/reliability/FeldtGilmer.java:124-127 | nor does the running sum of squares `sumD2` |
| ItemOrder.SumPermuted | src/main/java/com/itemanalysis/psychometrics/reliability/FeldtGilmer.java:43 | an exact sum of reals does not depend on the order of its terms |
| ItemOrder.TotalOfReorder | src/main/java/com/itemanalysis/psychometrics/reliability/FeldtGilmer.java:121 | listing the items in another order leaves `totalVariance()` unchanged |
| ItemOrder.DiagonalSumOfReorder | src/main/java/com/itemanalysis/psychometrics/reliability/FeldtGilmer.java:122 | listing the items in another order leaves `diagonalSum()` unchanged |
| ItemOrder.OffDiagonalsOfReorder | src/main/java/com/itemanalysis/psychometrics/reliability/FeldtGilmer.java:41-44 | the off-diagonal sums of the reordered items are the original ones in the new order |
| ItemOrder.PivotOfReorder | src/main/java/com/itemanalysis/psychometrics/reliability/FeldtGilmer.java:40-55 | when one item has a strictly larger off-diagonal sum than every other, `getEll()` of the reordered test is that same item at its new position |
| ItemOrder.WeightsOfReorder | src/main/java/com/itemanalysis/psychometrics/reliability/FeldtGilmer.java:57-72 | the weights `D(ell)` of the reordered test are the original weights in the new order, the pivot moving with its item |
| ItemOrder.SummariesOfReorder | src/main/java/com/itemanalysis/psychometrics/reliability/FeldtGilmer.java:117-122 | with a strict pivot, reordering leaves S, Q, T and C unchanged |
| ItemOrder.ValueFromSummaries | src/main/java/com/itemanalysis/psychometrics/reliability/FeldtGilmer.java:115-131 | two matrices of the same size with equal S, Q, T and C have the same `value()` |
| ItemOrder.ValueOfReorder | src/main/java/com/itemanalysis/psychometrics/reliability/FeldtGilmer.java:115-131 | listing the items in any other order leaves `value()` unchanged, provided the pivot is a strict maximum |
| FeldtGilmerTheorems.WeightFinite | src/main/java/com/itemanalysis/psychometrics/reliability/FeldtGilmer.java:62-70 | a weight is finite if and only if it is the pivot's or its denominator is nonzero |
| FeldtGilmerTheorems.FiniteSums | src/main/java/com/itemanalysis/psychometrics/reliability/FeldtGilmer.java:124-127 | with finite weights, `sumD` and `sumD2` are the exact sums of the weights and of their squares |
| FeldtGilmerTheorems.CoefficientOfFinite | src/main/java/com/itemanalysis/psychometrics/reliability/FeldtGilmer.java:129 | with finite S and Q, `S^2 != Q` and `T != 0`, the double formula is the real formula and has no special value |
| FeldtGilmerTheorems.ValueOfFiniteWeights | src/main/java/com/itemanalysis/psychometrics/reliability/FeldtGilmer.java:115-131 | with finite weights, `value()` is the formula applied to the exact sums of the weights and of their squares |
| FeldtGilmerTheorems.SumOfSquaresNotNegInf | src/main/java/com/itemanalysis/psychometrics/reliability/FeldtGilmer.java:126 | the running sum of squares is never negative infinity |
| FeldtGilmerTheorems.NonFiniteSums | src/main/java/com/itemanalysis/psychometrics/reliability/FeldtGilmer.java:124-127 | one infinite or NaN weight makes `sumD` non-finite and `sumD2` positive infinity or NaN |
| FeldtGilmerTheorems.CoefficientOfNonFinite | src/main/java/com/itemanalysis/psychometrics/reliability/FeldtGilmer.java:129 | a non-finite S with such a Q makes the formula NaN |
| FeldtGilmerTheorems.NonFiniteWeightGivesNaN | src/main/java/com/itemanalysis/psychometrics/reliability/FeldtGilmer.java:115-131 | an infinite or NaN weight makes `value()` NaN |
| FeldtGilmerTheorems.ZeroDenominatorGivesNaN | src/main/java/com/itemanalysis/psychometrics/reliability/FeldtGilmer.java:115-131 | a zero weight denominator for any item other than the pivot makes `value()` NaN |
| FeldtGilmerTheorems.SumOfPattern | src/main/java/com/itemanalysis/psychometrics/reliability/FeldtGilmer.java:43 | a row holding v in one place and c elsewhere adds up to `v + (n - 1) c` |
| FeldtGilmerTheorems.RowSumOfCompoundSymmetric | src/main/java/com/itemanalysis/psychometrics/reliability/FeldtGilmer.java:43 | with equal variances v and equal covariances c, every `rowSum(i)` is `v + (n - 1) c` |
| FeldtGilmerTheorems.TotalOfEqualRows | src/main/java/com/itemanalysis/psychometrics/reliability/FeldtGilmer.java:121 | rows that all add up to r give an observed variance of n times r |
| FeldtGilmerTheorems.CompoundSymmetricPivot | src/main/java/com/itemanalysis/psychometrics/reliability/FeldtGilmer.java:40-55 | with equal variances and covariances all off-diagonal sums tie, so `getEll()` is 0 |
| FeldtGilmerTheorems.CompoundSymmetricWeights | src/main/java/com/itemanalysis/psychometrics/reliability/FeldtGilmer.java:57-72 | with a nonzero common covariance, every weight around item 0 is exactly 1 |
| FeldtGilmerTheorems.SumOfOnes | src/main/java/com/itemanalysis/psychometrics/reliability/FeldtGilmer.java:125 | n unit weights make `sumD` equal to n |
| FeldtGilmerTheorems.SumOfSquaresOfOnes | src/main/java/com/itemanalysis/psychometrics/reliability/FeldtGilmer.java:126 | n unit weights make `sumD2` equal to n |
| FeldtGilmerTheorems.ValueOfUnitWeights | src/main/java/com/itemanalysis/psychometrics/reliability/FeldtGilmer.java:115-131 | with unit weights, `value()` is the formula with S = Q = n |
| FeldtGilmerTheorems.UnitWeightsFactor | src/main/java/com/itemanalysis/psychometrics/reliability/FeldtGilmer.java:129 | with S = Q = n, the first factor `S^2 / (S^2 - Q)` is `n / (n - 1)` |
| FeldtGilmerTheorems.EqualCovarianceFactor | src/main/java/com/itemanalysis/psychometrics/reliability/FeldtGilmer.java:129 | with T = n e and C = n v, the second factor `(T - C) / T` is `(n - 1) c / e` |
| FeldtGilmerTheorems.EqualWeightsCoefficient | src/main/java/com/itemanalysis/psychometrics/reliability/FeldtGilmer.java:129 | the product of the two factors is `n c / e` |
| FeldtGilmerTheorems.CompoundSymmetricTotal | src/main/java/com/itemanalysis/psychometrics/reliability/FeldtGilmer.java:121 | with equal variances v and covariances c, T is n times `e = v + (n - 1) c` |
| FeldtGilmerTheorems.CompoundSymmetricDiagonal | src/main/java/com/itemanalysis/psychometrics/reliability/FeldtGilmer.java:122 | with equal variances v, C is n times v |
| FeldtGilmerTheorems.CompoundSymmetricUnitWeights | src/main/java/com/itemanalysis/psychometrics/reliability/FeldtGilmer.java:115-131 | with equal variances and equal nonzero covariances, `value()` is the formula with S = Q = n |
| FeldtGilmerTheorems.CompoundSymmetricValue | src/main/java/com/itemanalysis/psychometrics/reliability/FeldtGilmer.java:115-131 | for n >= 3 items with equal variances v and equal nonzero covariances c, `value()` is the formula with S = Q = n, T = n e and C = n v |
| FeldtGilmerTheorems.EqualItemsCoefficient | src/main/java/com/itemanalysis/psychometrics/reliability/FeldtGilmer.java:129 | that formula equals `n c / e` when `e != 0`, so with CompoundSymmetricValue, `value()` is coefficient alpha `n c / (v + (n - 1) c)` for such items |
| FeldtGilmerTheorems.HalfCovarianceCoefficient | src/main/java/com/itemanalysis/psychometrics/reliability/FeldtGilmer.java:129 | for unit variances and covariances of one half, the formula gives 0.75, 0.8 and 5/6 for three, four and five items |
| FeldtGilmerTheorems.ExampleParts | src/main/java/com/itemanalysis/psychometrics/reliability/FeldtGilmer.java:40-72 | for variances 4, 5, 6 and covariances 2, the pivot is item 0, the weights are all 1, T = 27 and C = 15 |
| FeldtGilmerTheorems.ExampleCoefficient | src/main/java/com/itemanalysis/psychometrics/reliability/FeldtGilmer.java:129 | S = Q = 3, T = 27 and C = 15 give `(9/6)(12/27) = 2/3` |
| FeldtGilmerTheorems.ExampleValue | src/main/java/com/itemanalysis/psychometrics/reliability/FeldtGilmer.java:115-131 | `value()` of that matrix is exactly 2/3 |

## Left out

- `toString` and `printItemDeletedSummary` (FeldtGilmer.java:183-203) are left out. They only render text with `java.util.Formatter` and need variable labels.
- `getType` (FeldtGilmer.java:36-38) is left out. It returns a constant enum value.
- The constructor (FeldtGilmer.java:31-34) is left out. It keeps a reference to the caller's array. The model takes the matrix as an immutable square input, so aliasing is not modelled, and `itemDeletedReliability` visibly does not change the matrix.
- Floating-point rounding, overflow, subnormal results and signed zero are not modelled. A finite double is the exact real it denotes, and every zero is +0.0. So `x / 0.0` for x > 0 is positive infinity, even where Java would divide by -0.0.
- Where the inherited `rowSum`, `totalVariance` and `diagonalSum` come from is not modelled. `AbstractScoreReliability` and the covariance estimation from raw data are not part of this model. The three helpers are taken to be the exact sums the estimator relies on: a full row with the diagonal, every entry, and the diagonal.
- `Double.MIN_VALUE` is the exact real 2^-1074.
- Matrix entries are exact finite reals. A Java matrix can hold NaN or infinite entries, for example from missing data. Such an entry makes `offDiag` NaN, and NaN is never `>` the running maximum at FeldtGilmer.java:49 and 84. That case is not modelled.
- ItemOrder.ValueOfReorder requires the pivot to be a strict maximum. When several items tie for the largest off-diagonal sum, the first-maximum rule picks a different item after reordering, and the weights, and so `value()`, can change. That case is not covered.
- FeldtGilmer.GetEll requires at least one item. In the source, `getEll` is reached only from `value()`, and only with three or more items. With no items it would index an empty array.
- FeldtGilmerTheorems.CompoundSymmetricValue does not state `value() == n c / e` in one ensures. That is the composition of CompoundSymmetricValue and FeldtGilmerTheorems.EqualItemsCoefficient, and the two are proved separately.
