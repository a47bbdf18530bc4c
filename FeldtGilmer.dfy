/**
 * The Feldt-Gilmer reliability coefficient of a test of congeneric items,
 * computed from the item covariance matrix, and the same coefficient with
 * each item deleted in turn.
 *
 * The covariance matrix is an immutable n-by-n input. Each operation of the
 * estimator is a method with the loops of the Java class, proved against a
 * function that states its result.
 */
module FeldtGilmer {
  import opened Doubles
  import opened ScoreReliability

  // ---------------------------------------------------------------------------
  // Pivot selection
  // ---------------------------------------------------------------------------

  /** `offDiag[i]`: the covariances of item i with every other item. */
  function OffDiagonal(m: seq<seq<real>>, i: nat): real
    requires IsSquare(m) && i < |m|
  {
    RowSum(m, i) - m[i][i]
  }

  function OffDiagonals(m: seq<seq<real>>): (s: seq<real>)
    requires IsSquare(m)
    ensures |s| == |m|
  {
    seq(|m|, i requires 0 <= i < |m| => OffDiagonal(m, i))
  }

  /** k holds a largest value of s, and no earlier index holds that value. */
  predicate IsFirstMax(s: seq<real>, k: nat) {
    k < |s|
    && (forall j :: 0 <= j < |s| ==> s[j] <= s[k])
    && (forall j :: 0 <= j < k ==> s[j] < s[k])
  }

  /** The index a left-to-right scan with a strict `>` ends on. */
  function FirstMax(s: seq<real>): (k: nat)
    requires |s| > 0
    ensures IsFirstMax(s, k)
  {
    if |s| == 1 then 0
    else
      var k := FirstMax(s[..|s| - 1]);
      if s[|s| - 1] > s[k] then |s| - 1 else k
  }

  /** The pivot item `ell`: the first item with the largest off-diagonal row sum. */
  function Pivot(m: seq<seq<real>>): nat
    requires IsSquare(m) && |m| > 0
  {
    FirstMax(OffDiagonals(m))
  }

  /** `getEll()`. */
  method GetEll(m: seq<seq<real>>) returns (ell: nat)
    requires IsSquare(m) && |m| > 0
    ensures ell == Pivot(m)
    ensures IsFirstMax(OffDiagonals(m), ell)
  {
    var n := |m|;
    var offDiag := new real[n](_ => 0.0);
    for i := 0 to n
      invariant forall j :: 0 <= j < i ==> offDiag[j] == OffDiagonal(m, j)
    {
      offDiag[i] := RowSum(m, i) - m[i][i];
    }
    assert offDiag[..] == OffDiagonals(m);

    var maxIndex := 0;
    var maxValue := offDiag[0];
    for i := 1 to n
      invariant maxIndex == FirstMax(offDiag[..i])
      invariant maxValue == offDiag[maxIndex]
    {
      assert offDiag[..i + 1][..i] == offDiag[..i];
      if offDiag[i] > maxValue {
        maxIndex := i;
        maxValue := offDiag[i];
      }
    }
    TakeAll(offDiag[..]);
    ell := maxIndex;
  }

  /** Java's `Double.MIN_VALUE`, the smallest positive double: 2^-1074. */
  const DoubleMinValue: real := 1.0 / Pow2(1074)

  function Pow2(e: nat): (r: real)
    ensures r >= 1.0
  {
    if e == 0 then 1.0 else 2.0 * Pow2(e - 1)
  }

  /** The `offDiag` array of `getEllWithoutItemAt(index)`: slot `index` keeps its initial 0. */
  function OffDiagonalsExcluding(m: seq<seq<real>>, index: int): (s: seq<real>)
    requires IsSquare(m)
    ensures |s| == |m|
  {
    seq(|m|, i requires 0 <= i < |m| => if i == index then 0.0 else OffDiagonal(m, i))
  }

  /** k is not `index`, holds a largest value among the other indices, and is the first to. */
  predicate IsFirstMaxExcluding(s: seq<real>, index: int, k: nat) {
    k < |s| && k != index
    && (forall j :: 0 <= j < |s| && j != index ==> s[j] <= s[k])
    && (forall j :: 0 <= j < k && j != index ==> s[j] < s[k])
  }

  /**
   * The final `(maxIndex, maxValue)` of a left-to-right scan that skips
   * `index`, starts from `(0, seed)` and moves on a strict `>`.
   */
  function ScanExcluding(s: seq<real>, index: int, seed: real): (r: (nat, real))
    ensures r.1 >= seed
    ensures r.1 == seed ==> r.0 == 0
    ensures r.1 > seed ==> r.0 < |s| && s[r.0] == r.1 && IsFirstMaxExcluding(s, index, r.0)
    ensures forall j :: 0 <= j < |s| && j != index ==> s[j] <= r.1
  {
    if s == [] then (0, seed)
    else
      var r := ScanExcluding(s[..|s| - 1], index, seed);
      var i := |s| - 1;
      if i != index && s[i] > r.1 then (i, s[i]) else r
  }

  /** The pivot `ellAdj` chosen when item `index` is deleted. */
  function PivotExcluding(m: seq<seq<real>>, index: int): (ell: nat)
    requires IsSquare(m)
    ensures |m| > 0 ==> ell < |m|
  {
    ScanExcluding(OffDiagonalsExcluding(m, index), index, DoubleMinValue).0
  }

  /** `getEllWithoutItemAt(index)`. */
  method GetEllWithoutItemAt(m: seq<seq<real>>, index: int) returns (ell: nat)
    requires IsSquare(m)
    ensures ell == PivotExcluding(m, index)
    ensures |m| > 0 ==> ell < |m|
    ensures (exists j :: 0 <= j < |m| && j != index && OffDiagonal(m, j) > DoubleMinValue) ==>
              IsFirstMaxExcluding(OffDiagonals(m), index, ell)
    ensures (forall j :: 0 <= j < |m| && j != index ==> OffDiagonal(m, j) <= DoubleMinValue) ==>
              ell == 0
  {
    var n := |m|;
    var offDiag := new real[n](_ => 0.0);
    for i := 0 to n
      invariant forall j :: 0 <= j < i ==> offDiag[j] == OffDiagonalsExcluding(m, index)[j]
      invariant forall j :: i <= j < n ==> offDiag[j] == 0.0
    {
      if i != index {
        offDiag[i] := RowSum(m, i) - m[i][i];
      }
    }
    ghost var values := offDiag[..];
    assert values == OffDiagonalsExcluding(m, index);

    var maxIndex := 0;
    var maxValue := DoubleMinValue;
    for i := 0 to n
      invariant (maxIndex, maxValue) == ScanExcluding(values[..i], index, DoubleMinValue)
    {
      assert values[..i + 1][..i] == values[..i];
      if i != index {
        if offDiag[i] > maxValue {
          maxIndex := i;
          maxValue := offDiag[i];
        }
      }
    }
    TakeAll(values);
    ell := maxIndex;
    ExcludedScanIsPivot(m, index);
  }

  /** What `PivotExcluding` selects, stated over the off-diagonal sums themselves. */
  lemma ExcludedScanIsPivot(m: seq<seq<real>>, index: int)
    requires IsSquare(m)
    ensures |m| > 0 ==> PivotExcluding(m, index) < |m|
    ensures (exists j :: 0 <= j < |m| && j != index && OffDiagonal(m, j) > DoubleMinValue) ==>
              IsFirstMaxExcluding(OffDiagonals(m), index, PivotExcluding(m, index))
    ensures (forall j :: 0 <= j < |m| && j != index ==> OffDiagonal(m, j) <= DoubleMinValue) ==>
              PivotExcluding(m, index) == 0
  {
    var s := OffDiagonalsExcluding(m, index);
    var r := ScanExcluding(s, index, DoubleMinValue);
    if exists j :: 0 <= j < |m| && j != index && OffDiagonal(m, j) > DoubleMinValue {
      var j :| 0 <= j < |m| && j != index && OffDiagonal(m, j) > DoubleMinValue;
      assert s[j] > DoubleMinValue;
      assert r.1 > DoubleMinValue;
      forall i | 0 <= i < |m| && i != index
        ensures OffDiagonals(m)[i] == s[i]
      {
      }
    } else {
      forall j | 0 <= j < |m| && j != index
        ensures s[j] <= DoubleMinValue
      {
      }
      ScanBelowSeed(s, index, DoubleMinValue);
    }
  }

  /** When no retained value exceeds the seed, the scan never moves from `(0, seed)`. */
  lemma {:induction false} ScanBelowSeed(s: seq<real>, index: int, seed: real)
    requires forall j :: 0 <= j < |s| && j != index ==> s[j] <= seed
    ensures ScanExcluding(s, index, seed) == (0, seed)
    decreases |s|
  {
    if s != [] {
      ScanBelowSeed(s[..|s| - 1], index, seed);
    }
  }

  // ---------------------------------------------------------------------------
  // Weight vectors
  // ---------------------------------------------------------------------------

  /** `d[i]` of `D(ell)`: 1 at the pivot, elsewhere a ratio of partial row sums. */
  function Weight(m: seq<seq<real>>, ell: nat, i: nat): Double
    requires IsSquare(m) && ell < |m| && i < |m|
  {
    if i == ell then One
    else Div(Finite(WeightNumerator(m, ell, i)), Finite(WeightDenominator(m, ell, i)))
  }

  /** Item i's covariances with the items other than itself and the pivot. */
  function WeightNumerator(m: seq<seq<real>>, ell: nat, i: nat): real
    requires IsSquare(m) && ell < |m| && i < |m|
  {
    RowSum(m, i) - m[i][ell] - m[i][i]
  }

  /** The pivot's covariances with the items other than itself and item i. */
  function WeightDenominator(m: seq<seq<real>>, ell: nat, i: nat): real
    requires IsSquare(m) && ell < |m| && i < |m|
  {
    RowSum(m, ell) - m[i][ell] - m[ell][ell]
  }

  function Weights(m: seq<seq<real>>, ell: nat): (d: seq<Double>)
    requires IsSquare(m) && ell < |m|
    ensures |d| == |m|
  {
    seq(|m|, i requires 0 <= i < |m| => Weight(m, ell, i))
  }

  /** `D(ell)`. */
  method D(m: seq<seq<real>>, ell: nat) returns (d: array<Double>)
    requires IsSquare(m) && ell < |m|
    ensures fresh(d) && d.Length == |m|
    ensures d[ell] == One
    ensures d[..] == Weights(m, ell)
  {
    var n := |m|;
    d := new Double[n](_ => Zero);
    for i := 0 to n
      invariant forall j :: 0 <= j < i ==> d[j] == Weight(m, ell, j)
    {
      if i == ell {
        d[i] := One;
      } else {
        var num := RowSum(m, i) - m[i][ell] - m[i][i];
        var denom := RowSum(m, ell) - m[i][ell] - m[ell][ell];
        d[i] := Div(Finite(num), Finite(denom));
      }
    }
    assert d[..] == Weights(m, ell);
  }

  /** `d[i]` of `DwithoutItemAt(ell, index)`: slot `index` keeps its initial 0. */
  function WeightExcluding(m: seq<seq<real>>, ell: nat, index: int, i: nat): Double
    requires IsSquare(m) && ell < |m| && i < |m|
  {
    if i == index then Zero else Weight(m, ell, i)
  }

  function WeightsExcluding(m: seq<seq<real>>, ell: nat, index: int): (d: seq<Double>)
    requires IsSquare(m) && ell < |m|
    ensures |d| == |m|
  {
    seq(|m|, i requires 0 <= i < |m| => WeightExcluding(m, ell, index, i))
  }

  /** `DwithoutItemAt(ell, index)`. */
  method DWithoutItemAt(m: seq<seq<real>>, ell: nat, index: int) returns (d: array<Double>)
    requires IsSquare(m) && ell < |m|
    ensures fresh(d) && d.Length == |m|
    ensures 0 <= index < |m| ==> d[index] == Zero
    ensures ell != index ==> d[ell] == One
    ensures forall i :: 0 <= i < |m| && i != index ==> d[i] == Weights(m, ell)[i]
    ensures d[..] == WeightsExcluding(m, ell, index)
  {
    var n := |m|;
    d := new Double[n](_ => Zero);
    for i := 0 to n
      invariant forall j :: 0 <= j < i ==> d[j] == WeightExcluding(m, ell, index, j)
      invariant forall j :: i <= j < n ==> d[j] == Zero
    {
      if i != index {
        if i == ell {
          d[i] := One;
        } else {
          var covAt := m[i][ell];
          var num := RowSum(m, i) - covAt - m[i][i];
          var denom := RowSum(m, ell) - covAt - m[ell][ell];
          d[i] := Div(Finite(num), Finite(denom));
        }
      }
    }
    assert d[..] == WeightsExcluding(m, ell, index);
  }

  // ---------------------------------------------------------------------------
  // The coefficients
  // ---------------------------------------------------------------------------

  /** `sumD`: the weights added in index order. */
  function SumOf(d: seq<Double>): Double {
    if d == [] then Zero else Add(SumOf(d[..|d| - 1]), d[|d| - 1])
  }

  /** `sumD2`: the squared weights added in index order. */
  function SumOfSquares(d: seq<Double>): Double {
    if d == [] then Zero else Add(SumOfSquares(d[..|d| - 1]), Square(d[|d| - 1]))
  }

  /**
   * The Feldt-Gilmer formula `(S^2 / (S^2 - Q)) * ((T - C) / T)` from the sum S
   * and the sum of squares Q of the weights, the observed score variance T and
   * the component variance C.
   */
  function Coefficient(sumD: Double, sumD2: Double, observed: real, component: real): Double {
    Mul(Div(Square(sumD), Sub(Square(sumD), sumD2)),
        Div(Finite(observed - component), Finite(observed)))
  }

  /** The formula as the source writes it, with the differences of doubles spelled out. */
  lemma FormulaAsWritten(sumD: Double, sumD2: Double, observed: real, component: real)
    ensures Mul(Div(Square(sumD), Sub(Square(sumD), sumD2)),
                Div(Sub(Finite(observed), Finite(component)), Finite(observed)))
            == Coefficient(sumD, sumD2, observed, component)
  {
  }

  /** `value()`: NaN below three items. */
  function FeldtGilmerValue(m: seq<seq<real>>): Double
    requires IsSquare(m)
  {
    if |m| < 3 then NaN
    else
      var d := Weights(m, Pivot(m));
      Coefficient(SumOf(d), SumOfSquares(d), TotalVariance(m), DiagonalSum(m))
  }

  /** `value()`. */
  method Value(m: seq<seq<real>>) returns (fg: Double)
    requires IsSquare(m)
    ensures |m| < 3 ==> fg == NaN
    ensures fg == FeldtGilmerValue(m)
  {
    var n := |m|;
    if n < 3 {
      return NaN;
    }
    var ell := GetEll(m);
    var d := D(m, ell);
    var sumD := Zero;
    var sumD2 := Zero;
    var observedScoreVariance := TotalVariance(m);
    var componentVariance := DiagonalSum(m);

    ghost var weights := d[..];
    assert weights == Weights(m, Pivot(m));
    for i := 0 to n
      invariant sumD == SumOf(weights[..i])
      invariant sumD2 == SumOfSquares(weights[..i])
    {
      assert weights[..i + 1][..i] == weights[..i];
      sumD := Add(sumD, d[i]);
      sumD2 := Add(sumD2, Square(d[i]));
    }
    TakeAll(weights);
    fg := Mul(Div(Square(sumD), Sub(Square(sumD), sumD2)),
              Div(Sub(Finite(observedScoreVariance), Finite(componentVariance)), Finite(observedScoreVariance)));
    FormulaAsWritten(sumD, sumD2, observedScoreVariance, componentVariance);
  }

  /** The weights used when item i is deleted. */
  function DeletedWeights(m: seq<seq<real>>, i: nat): (d: seq<Double>)
    requires IsSquare(m) && i < |m|
    ensures |d| == |m|
  {
    WeightsExcluding(m, PivotExcluding(m, i), i)
  }

  /** The two accumulators of `itemDeletedReliability()`. */
  datatype Sums = Sums(sumDadj: Double, sumD2adj: Double)

  const NoSums := Sums(Zero, Zero)

  /**
   * The accumulators `(sumDadj, sumD2adj)` after the inner loop of item i has
   * run over `j` in `[0, upto)`. The loop reads one weight only, `w = dAdj[i]`:
   * every step adds w to the first accumulator when `i != j`, and always adds
   * w squared to the second.
   */
  function InnerAccumulate(acc: Sums, w: Double, i: nat, upto: nat): Sums
  {
    if upto == 0 then acc
    else
      var prev := InnerAccumulate(acc, w, i, upto - 1);
      Sums(if i != upto - 1 then Add(prev.sumDadj, w) else prev.sumDadj, Add(prev.sumD2adj, Square(w)))
  }

  /** `dAdj[i]` for every item i: the one weight that the inner loop of item i reads. */
  function OwnDeletedWeights(m: seq<seq<real>>): (w: seq<Double>)
    requires IsSquare(m)
    ensures |w| == |m|
  {
    seq(|m|, i requires 0 <= i < |m| => DeletedWeights(m, i)[i])
  }

  /**
   * The accumulators once the outer loop has handled the items `[0, |ws|)` of
   * a test of n items, item i reading the weight `ws[i]`; they are never reset.
   */
  function AccumulateItems(ws: seq<Double>, n: nat): Sums {
    if ws == [] then NoSums
    else InnerAccumulate(AccumulateItems(ws[..|ws| - 1], n), ws[|ws| - 1], |ws| - 1, n)
  }

  /** The accumulators after the outer loop has handled items `[0, k)`. */
  function Accumulators(m: seq<seq<real>>, k: nat): Sums
    requires IsSquare(m) && k <= |m|
  {
    AccumulateItems(OwnDeletedWeights(m)[..k], |m|)
  }

  /** `totalVarianceAdjusted` for item i. */
  function AdjustedTotalVariance(m: seq<seq<real>>, i: nat): real
    requires IsSquare(m) && i < |m|
  {
    TotalVariance(m) - 2.0 * OffDiagonal(m, i) - m[i][i]
  }

  /** `diagonalSumAdjusted` for item i. */
  function AdjustedDiagonalSum(m: seq<seq<real>>, i: nat): real
    requires IsSquare(m) && i < |m|
  {
    DiagonalSum(m) - m[i][i]
  }

  /** `rel[i]` of `itemDeletedReliability()`. */
  function ItemDeletedValue(m: seq<seq<real>>, i: nat): Double
    requires IsSquare(m) && i < |m|
  {
    var acc := Accumulators(m, i + 1);
    Coefficient(acc.sumDadj, acc.sumD2adj, AdjustedTotalVariance(m, i), AdjustedDiagonalSum(m, i))
  }

  /** The entries of `row` before column `upto`, except the one at column i. */
  function CovariancesBefore(row: seq<real>, i: nat, upto: nat): real
    requires upto <= |row|
  {
    if upto == 0 then 0.0
    else CovariancesBefore(row, i, upto - 1) + (if upto - 1 != i then row[upto - 1] else 0.0)
  }

  lemma {:induction false} CovariancesBeforeIsSum(row: seq<real>, i: nat, upto: nat)
    requires i < |row| && upto <= |row|
    ensures CovariancesBefore(row, i, upto) == Sum(row[..upto]) - (if i < upto then row[i] else 0.0)
  {
    if upto > 0 {
      CovariancesBeforeIsSum(row, i, upto - 1);
      assert row[..upto][..upto - 1] == row[..upto - 1];
    }
  }

  /** Summed over the whole row, they are the off-diagonal row sum. */
  lemma CovariancesBeforeEnd(m: seq<seq<real>>, i: nat)
    requires IsSquare(m) && i < |m|
    ensures CovariancesBefore(m[i], i, |m|) == OffDiagonal(m, i)
  {
    CovariancesBeforeIsSum(m[i], i, |m|);
    TakeAll(m[i]);
  }

  /** `itemDeletedReliability()`: every entry is NaN. */
  method ItemDeletedReliability(m: seq<seq<real>>) returns (rel: array<Double>)
    requires IsSquare(m)
    ensures fresh(rel) && rel.Length == |m|
    ensures forall i :: 0 <= i < |m| ==> rel[i] == ItemDeletedValue(m, i)
    ensures forall i :: 0 <= i < |m| ==> rel[i] == NaN
  {
    var n := |m|;
    rel := new Double[n](_ => Zero);
    var totalVariance := TotalVariance(m);
    var diagonalSum := DiagonalSum(m);
    var sumDadj := Zero;
    var sumD2adj := Zero;

    for i := 0 to n
      invariant sumDadj == Zero && sumD2adj == Zero
      invariant forall k :: 0 <= k < i ==> rel[k] == NaN
    {
      var reliabilityWithoutItem;
      reliabilityWithoutItem, sumDadj, sumD2adj := DeleteItem(m, i, totalVariance, diagonalSum, sumDadj, sumD2adj);
      assert sumDadj == Zero && sumD2adj == Zero && reliabilityWithoutItem == NaN by {
        InnerAccumulateZero(Zero, i, n);
        CoefficientOfZeroWeights(AdjustedTotalVariance(m, i), AdjustedDiagonalSum(m, i));
      }
      rel[i] := reliabilityWithoutItem;
    }
    forall i | 0 <= i < n
      ensures ItemDeletedValue(m, i) == NaN
    {
      ItemDeletedIsNaN(m, i);
    }
  }

  /**
   * The body of the outer loop of `itemDeletedReliability()` for item i: the
   * adjusted variances, the pivot and weights without item i, then the inner
   * loop, which adds to the accumulators as the items before i left them (they
   * are never reset) and reads only the weight `dAdj[i]`.
   */
  method DeleteItem(m: seq<seq<real>>, i: nat, totalVariance: real, diagonalSum: real,
                    sumDadj: Double, sumD2adj: Double)
    returns (reliabilityWithoutItem: Double, sumDadjOut: Double, sumD2adjOut: Double)
    requires IsSquare(m) && i < |m|
    requires totalVariance == TotalVariance(m) && diagonalSum == DiagonalSum(m)
    ensures Sums(sumDadjOut, sumD2adjOut) == InnerAccumulate(Sums(sumDadj, sumD2adj), Zero, i, |m|)
    ensures reliabilityWithoutItem
            == Coefficient(sumDadjOut, sumD2adjOut, AdjustedTotalVariance(m, i), AdjustedDiagonalSum(m, i))
  {
    var n := |m|;
    var row := m[i];
    var itemVariance := row[i];
    var itemCovariance := 0.0;
    for j := 0 to n
      invariant itemCovariance == CovariancesBefore(row, i, j)
    {
      if i != j {
        itemCovariance := itemCovariance + row[j];
      }
    }
    CovariancesBeforeEnd(m, i);
    itemCovariance := itemCovariance * 2.0;

    var totalVarianceAdjusted := totalVariance - itemCovariance - itemVariance;
    var diagonalSumAdjusted := diagonalSum - itemVariance;
    assert totalVarianceAdjusted == AdjustedTotalVariance(m, i);
    assert diagonalSumAdjusted == AdjustedDiagonalSum(m, i);

    var ellAdj := GetEllWithoutItemAt(m, i);
    var dAdj := DWithoutItemAt(m, ellAdj, i);
    assert dAdj[i] == Zero;
    sumDadjOut, sumD2adjOut := AccumulateDeletedWeight(dAdj, i, n, sumDadj, sumD2adj);

    var sumDadj2 := Square(sumDadjOut);
    reliabilityWithoutItem := Mul(Div(sumDadj2, Sub(sumDadj2, sumD2adjOut)),
      Div(Sub(Finite(totalVarianceAdjusted), Finite(diagonalSumAdjusted)), Finite(totalVarianceAdjusted)));
    FormulaAsWritten(sumDadjOut, sumD2adjOut, totalVarianceAdjusted, diagonalSumAdjusted);
  }

  /**
   * The inner loop of `itemDeletedReliability()` for item i, over `j` in
   * `[0, n)`: every step reads `dAdj[i]`, the weight of the deleted item
   * itself, not `dAdj[j]`.
   */
  method AccumulateDeletedWeight(dAdj: array<Double>, i: nat, n: nat, sumDadj: Double, sumD2adj: Double)
    returns (sumDadjOut: Double, sumD2adjOut: Double)
    requires i < dAdj.Length
    ensures Sums(sumDadjOut, sumD2adjOut) == InnerAccumulate(Sums(sumDadj, sumD2adj), dAdj[i], i, n)
  {
    sumDadjOut, sumD2adjOut := sumDadj, sumD2adj;
    for j := 0 to n
      invariant Sums(sumDadjOut, sumD2adjOut) == InnerAccumulate(Sums(sumDadj, sumD2adj), dAdj[i], i, j)
    {
      if i != j {
        sumDadjOut := Add(sumDadjOut, dAdj[i]);
      }
      sumD2adjOut := Add(sumD2adjOut, Square(dAdj[i]));
    }
  }

  /** The excluded item's own weight, which every accumulation step reads, is 0. */
  lemma OwnDeletedWeightsAreZero(m: seq<seq<real>>)
    requires IsSquare(m)
    ensures forall i :: 0 <= i < |m| ==> OwnDeletedWeights(m)[i] == Zero
  {
    forall i | 0 <= i < |m|
      ensures DeletedWeights(m, i)[i] == Zero
    {
      ExcludedScanIsPivot(m, i);
    }
  }

  /** Accumulating a zero weight, any number of times, leaves zero accumulators at zero. */
  lemma {:induction false} InnerAccumulateZero(w: Double, i: nat, upto: nat)
    requires w == Zero
    ensures InnerAccumulate(NoSums, w, i, upto) == NoSums
  {
    if upto > 0 {
      InnerAccumulateZero(w, i, upto - 1);
      assert Add(Zero, Zero) == Zero && Square(Zero) == Zero;
    }
  }

  /** Items that all read a zero weight leave the accumulators at zero. */
  lemma {:induction false} AccumulateZeroItems(ws: seq<Double>, n: nat)
    requires forall i :: 0 <= i < |ws| ==> ws[i] == Zero
    ensures AccumulateItems(ws, n) == NoSums
  {
    if ws != [] {
      AccumulateZeroItems(ws[..|ws| - 1], n);
      InnerAccumulateZero(ws[|ws| - 1], |ws| - 1, n);
    }
  }

  /** `sumDadj` and `sumD2adj` are never reset, yet stay exactly 0 through every item. */
  lemma AccumulatorsStayZero(m: seq<seq<real>>, k: nat)
    requires IsSquare(m) && k <= |m|
    ensures Accumulators(m, k) == NoSums
  {
    OwnDeletedWeightsAreZero(m);
    AccumulateZeroItems(OwnDeletedWeights(m)[..k], |m|);
  }

  /** Every item-deleted estimate is 0/(0-0) times a finite factor, that is NaN. */
  lemma ItemDeletedIsNaN(m: seq<seq<real>>, i: nat)
    requires IsSquare(m) && i < |m|
    ensures ItemDeletedValue(m, i) == NaN
  {
    AccumulatorsStayZero(m, i + 1);
    CoefficientOfZeroWeights(AdjustedTotalVariance(m, i), AdjustedDiagonalSum(m, i));
  }

  /** With both weight sums 0 the first factor is 0/(0-0), and NaN absorbs the second. */
  lemma CoefficientOfZeroWeights(observed: real, component: real)
    ensures Coefficient(Zero, Zero, observed, component) == NaN
  {
    assert Square(Zero) == Zero;
    assert Sub(Zero, Zero) == Zero;
  }
}
