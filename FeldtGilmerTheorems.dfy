/**
 * What the Feldt-Gilmer estimator computes, stated over exact reals: when its
 * weights are finite, when the coefficient is NaN, its closed form for items
 * with equal covariances, and the meaning of the item-deleted adjustments.
 */
module FeldtGilmerTheorems {
  import opened Doubles
  import opened ScoreReliability
  import opened FeldtGilmer

  // ---------------------------------------------------------------------------
  // Finite weights and their sums
  // ---------------------------------------------------------------------------

  predicate AllFinite(d: seq<Double>) {
    forall i :: 0 <= i < |d| ==> d[i].Finite?
  }

  /** The reals that a sequence of finite doubles denotes. */
  function Values(d: seq<Double>): (r: seq<real>)
    requires AllFinite(d)
    ensures |r| == |d|
  {
    seq(|d|, i requires 0 <= i < |d| => d[i].r)
  }

  function Squares(r: seq<real>): (q: seq<real>)
    ensures |q| == |r|
  {
    seq(|r|, i requires 0 <= i < |r| => r[i] * r[i])
  }

  /** A weight is finite exactly when it is the pivot's or its denominator is not zero. */
  lemma WeightFinite(m: seq<seq<real>>, ell: nat, i: nat)
    requires IsSquare(m) && ell < |m| && i < |m|
    ensures Weight(m, ell, i).Finite? <==> (i == ell || WeightDenominator(m, ell, i) != 0.0)
  {
    if i != ell && WeightDenominator(m, ell, i) == 0.0 {
      var num := WeightNumerator(m, ell, i);
      assert Weight(m, ell, i) == Div(Finite(num), Finite(0.0));
    }
  }

  lemma SquaresOfPrefix(r: seq<real>, k: nat)
    requires k <= |r|
    ensures Squares(r[..k]) == Squares(r)[..k]
  {
    forall i | 0 <= i < k
      ensures Squares(r[..k])[i] == Squares(r)[..k][i]
    {
    }
  }

  /** S: the exact sum of finite weights. */
  function ExactSum(d: seq<Double>): real
    requires AllFinite(d)
  {
    Sum(Values(d))
  }

  /** Q: the exact sum of the squares of finite weights. */
  function ExactSquareSum(d: seq<Double>): real
    requires AllFinite(d)
  {
    Sum(Squares(Values(d)))
  }

  /** Without special values, `sumD` and `sumD2` are the exact sums of the weights and their squares. */
  lemma {:induction false} FiniteSums(d: seq<Double>)
    requires AllFinite(d)
    ensures SumOf(d) == Finite(ExactSum(d))
    ensures SumOfSquares(d) == Finite(ExactSquareSum(d))
    decreases |d|
  {
    if d != [] {
      var prefix := d[..|d| - 1];
      assert Values(prefix) == Values(d)[..|d| - 1];
      SquaresOfPrefix(Values(d), |d| - 1);
      FiniteSums(prefix);
    }
  }

  /** The Feldt-Gilmer formula `(S^2 / (S^2 - Q)) * ((T - C) / T)` over the reals. */
  function RealCoefficient(s: real, q: real, t: real, c: real): real
    requires s * s != q && t != 0.0
  {
    (s * s / (s * s - q)) * ((t - c) / t)
  }

  /**
   * On finite sums S and Q, with `S^2 != Q` and a nonzero observed variance T,
   * the formula on doubles is the real formula: no special value arises.
   */
  lemma CoefficientOfFinite(s: real, q: real, t: real, c: real)
    requires s * s != q && t != 0.0
    ensures Coefficient(Finite(s), Finite(q), t, c) == Finite(RealCoefficient(s, q, t, c))
  {
    var s2 := s * s;
    assert Square(Finite(s)) == Finite(s2);
    assert Sub(Finite(s2), Finite(q)) == Finite(s2 - q);
    assert Div(Finite(s2), Finite(s2 - q)) == Finite(s2 / (s2 - q));
    assert Div(Finite(t - c), Finite(t)) == Finite((t - c) / t);
  }

  /**
   * With finite weights, `value()` applies the formula to the exact sums S and
   * Q of the weights and of their squares; with CoefficientOfFinite, it is then
   * the real `(S^2 / (S^2 - Q)) * ((T - C) / T)` whenever `S^2 != Q` and `T != 0`.
   */
  lemma ValueOfFiniteWeights(m: seq<seq<real>>)
    requires IsSquare(m) && |m| >= 3
    requires AllFinite(Weights(m, Pivot(m)))
    ensures FeldtGilmerValue(m) ==
              Coefficient(Finite(ExactSum(Weights(m, Pivot(m)))), Finite(ExactSquareSum(Weights(m, Pivot(m)))),
                          TotalVariance(m), DiagonalSum(m))
  {
    FiniteSums(Weights(m, Pivot(m)));
  }

  // ---------------------------------------------------------------------------
  // Special values
  // ---------------------------------------------------------------------------

  /** A running sum of squares is never negative infinity. */
  lemma {:induction false} SumOfSquaresNotNegInf(d: seq<Double>)
    ensures SumOfSquares(d) != NegInf
    decreases |d|
  {
    if d != [] {
      SumOfSquaresNotNegInf(d[..|d| - 1]);
    }
  }

  /**
   * One infinite or NaN weight makes `sumD` non-finite and `sumD2` positive
   * infinity or NaN.
   */
  lemma {:induction false} NonFiniteSums(d: seq<Double>)
    requires !AllFinite(d)
    ensures !SumOf(d).Finite?
    ensures SumOfSquares(d) == PosInf || SumOfSquares(d) == NaN
    decreases |d|
  {
    var prefix, last := d[..|d| - 1], d[|d| - 1];
    if AllFinite(prefix) {
      FiniteSums(prefix);
      assert !last.Finite?;
    } else {
      NonFiniteSums(prefix);
      SumOfSquaresNotNegInf(prefix);
    }
  }

  /** `S^2 - Q` is NaN once S is not finite, and NaN absorbs the rest of the formula. */
  lemma CoefficientOfNonFinite(sumD: Double, sumD2: Double, observed: real, component: real)
    requires !sumD.Finite? && (sumD2 == PosInf || sumD2 == NaN)
    ensures Coefficient(sumD, sumD2, observed, component) == NaN
  {
    assert Square(sumD) == PosInf || Square(sumD) == NaN;
    assert Sub(Square(sumD), sumD2) == NaN;
  }

  /** An infinite or NaN weight makes `value()` NaN. */
  lemma NonFiniteWeightGivesNaN(m: seq<seq<real>>)
    requires IsSquare(m) && |m| >= 3
    requires !AllFinite(Weights(m, Pivot(m)))
    ensures FeldtGilmerValue(m) == NaN
  {
    var d := Weights(m, Pivot(m));
    NonFiniteSums(d);
    CoefficientOfNonFinite(SumOf(d), SumOfSquares(d), TotalVariance(m), DiagonalSum(m));
  }

  /**
   * `value()` is NaN when the weight denominator `rowSum(ell) - m[i][ell] -
   * m[ell][ell]` of some item other than the pivot is zero.
   */
  lemma ZeroDenominatorGivesNaN(m: seq<seq<real>>, i: nat)
    requires IsSquare(m) && |m| >= 3 && i < |m|
    requires i != Pivot(m) && WeightDenominator(m, Pivot(m), i) == 0.0
    ensures FeldtGilmerValue(m) == NaN
  {
    WeightFinite(m, Pivot(m), i);
    assert !Weights(m, Pivot(m))[i].Finite?;
    NonFiniteWeightGivesNaN(m);
  }

  // ---------------------------------------------------------------------------
  // Items with equal variances and equal covariances
  // ---------------------------------------------------------------------------

  /** Every variance is v and every covariance is c. */
  predicate CompoundSymmetric(m: seq<seq<real>>, v: real, c: real)
    requires IsSquare(m)
  {
    forall i, j :: 0 <= i < |m| && 0 <= j < |m| ==> m[i][j] == if i == j then v else c
  }

  /** A sequence that holds v at position k (if k is a position) and c everywhere else. */
  lemma {:induction false} SumOfPattern(s: seq<real>, k: int, v: real, c: real)
    requires forall j :: 0 <= j < |s| ==> s[j] == if j == k then v else c
    ensures Sum(s) == if 0 <= k < |s| then v + (|s| - 1) as real * c else |s| as real * c
    decreases |s|
  {
    if s != [] {
      SumOfPattern(s[..|s| - 1], k, v, c);
    }
  }

  lemma RowSumOfCompoundSymmetric(m: seq<seq<real>>, v: real, c: real, i: nat)
    requires IsSquare(m) && CompoundSymmetric(m, v, c) && i < |m|
    ensures RowSum(m, i) == v + (|m| - 1) as real * c
  {
    SumOfPattern(m[i], i, v, c);
  }

  /** Every row sum being r, the total is r times the number of rows. */
  lemma {:induction false} TotalOfEqualRows(rows: seq<seq<real>>, r: real)
    requires forall i :: 0 <= i < |rows| ==> Sum(rows[i]) == r
    ensures TotalVariance(rows) == |rows| as real * r
    decreases |rows|
  {
    if rows != [] {
      TotalOfEqualRows(rows[..|rows| - 1], r);
    }
  }

  /** All off-diagonal sums tie, so the strict scan keeps the first item as pivot. */
  lemma CompoundSymmetricPivot(m: seq<seq<real>>, v: real, c: real)
    requires IsSquare(m) && |m| > 0 && CompoundSymmetric(m, v, c)
    ensures Pivot(m) == 0
  {
    var k := Pivot(m);
    RowSumOfCompoundSymmetric(m, v, c, 0);
    RowSumOfCompoundSymmetric(m, v, c, k);
    assert OffDiagonals(m)[0] == OffDiagonals(m)[k];
  }

  /** With a nonzero covariance, every weight is 1: numerator and denominator are both `(n - 2) c`. */
  lemma CompoundSymmetricWeights(m: seq<seq<real>>, v: real, c: real)
    requires IsSquare(m) && |m| >= 3 && CompoundSymmetric(m, v, c) && c != 0.0
    ensures forall i :: 0 <= i < |m| ==> Weights(m, 0)[i] == One
  {
    var n := |m|;
    forall i | 0 <= i < n
      ensures Weights(m, 0)[i] == One
    {
      if i != 0 {
        RowSumOfCompoundSymmetric(m, v, c, i);
        RowSumOfCompoundSymmetric(m, v, c, 0);
        var x := (n - 2) as real * c;
        assert x != 0.0;
        assert WeightNumerator(m, 0, i) == x;
        assert WeightDenominator(m, 0, i) == x;
        assert x / x == 1.0;
        assert Weights(m, 0)[i] == Div(Finite(x), Finite(x));
      }
    }
  }

  /** Weights that are all 1 add up to their number. */
  lemma {:induction false} SumOfOnes(d: seq<Double>)
    requires forall i :: 0 <= i < |d| ==> d[i] == One
    ensures SumOf(d) == Finite(|d| as real)
    decreases |d|
  {
    if d != [] {
      var k := |d| - 1;
      SumOfOnes(d[..k]);
      assert k as real + 1.0 == |d| as real;
    }
  }

  /** The squares of weights that are all 1 add up to their number. */
  lemma {:induction false} SumOfSquaresOfOnes(d: seq<Double>)
    requires forall i :: 0 <= i < |d| ==> d[i] == One
    ensures SumOfSquares(d) == Finite(|d| as real)
    decreases |d|
  {
    if d != [] {
      var k := |d| - 1;
      SumOfSquaresOfOnes(d[..k]);
      assert Square(One) == One;
      assert k as real + 1.0 == |d| as real;
    }
  }

  /** With unit weights, S and Q are both the number of items. */
  lemma ValueOfUnitWeights(m: seq<seq<real>>)
    requires IsSquare(m) && |m| >= 3
    requires forall i :: 0 <= i < |m| ==> Weights(m, Pivot(m))[i] == One
    ensures FeldtGilmerValue(m)
            == Coefficient(Finite(|m| as real), Finite(|m| as real), TotalVariance(m), DiagonalSum(m))
  {
    SumOfOnes(Weights(m, Pivot(m)));
    SumOfSquaresOfOnes(Weights(m, Pivot(m)));
  }

  /** Two quotients are equal when their cross products are. */
  lemma QuotientsEqual(a: real, b: real, x: real, y: real)
    requires b != 0.0 && y != 0.0 && a * y == x * b
    ensures a / b == x / y
  {
    assert a / b == (a * y) / (b * y);
    assert x / y == (x * b) / (y * b);
  }

  lemma ProductOfQuotients(x: real, y: real, w: real, z: real)
    requires y != 0.0 && z != 0.0
    ensures (x / y) * ((y * w) / z) == (x * w) / z
  {
    var a, b := x / y, (y * w) / z;
    assert a * y == x;
    assert b * z == y * w;
    assert (a * b) * z == (a * y) * w;
    assert a * b == ((a * b) * z) / z;
  }

  lemma RealOfPredecessor(k: int)
    ensures (k - 1) as real == k as real - 1.0
  {
  }

  /** `S^2 / (S^2 - Q)` for n unit weights. */
  lemma UnitWeightsFactor(n: real)
    requires n >= 3.0
    ensures Div(Square(Finite(n)), Sub(Square(Finite(n)), Finite(n))) == Finite(n / (n - 1.0))
  {
    var s2 := n * n;
    assert Sub(Finite(s2), Finite(n)) == Finite(s2 - n);
    assert s2 - n == n * (n - 1.0);
    assert s2 - n != 0.0;
    QuotientsEqual(s2, s2 - n, n, n - 1.0);
  }

  /** `(T - C) / T` for observed variance `n e` and component variance `n v`, with `e = v + (n - 1) c`. */
  lemma EqualCovarianceFactor(n: real, k: real, v: real, c: real, e: real)
    requires n >= 3.0 && k == n - 1.0 && e == v + k * c && e != 0.0
    ensures Div(Finite(n * e - n * v), Finite(n * e)) == Finite(k * c / e)
  {
    var t := n * e;
    assert t != 0.0;
    assert t - n * v == n * (k * c);
    QuotientsEqual(t - n * v, t, k * c, e);
  }

  /**
   * The formula with n unit weights, observed variance `n e` and component
   * variance `n v`, where `e = v + (n - 1) c` is the common row sum.
   */
  lemma EqualWeightsCoefficient(n: real, k: real, v: real, c: real, e: real, t: real, d: real)
    requires n >= 3.0 && k == n - 1.0 && e == v + k * c && e != 0.0
    requires t == n * e && d == n * v
    ensures Coefficient(Finite(n), Finite(n), t, d) == Finite(n * c / e)
  {
    UnitWeightsFactor(n);
    EqualCovarianceFactor(n, k, v, c, e);
    ProductOfQuotients(n, k, c, e);
  }

  /** The observed variance of n items whose rows all add up to `e = v + (n - 1) c`. */
  lemma CompoundSymmetricTotal(m: seq<seq<real>>, v: real, c: real, e: real)
    requires IsSquare(m) && CompoundSymmetric(m, v, c)
    requires e == v + (|m| - 1) as real * c
    ensures TotalVariance(m) == |m| as real * e
  {
    forall i | 0 <= i < |m|
      ensures Sum(m[i]) == e
    {
      RowSumOfCompoundSymmetric(m, v, c, i);
    }
    TotalOfEqualRows(m, e);
  }

  /** The component variance of n items with variance v each. */
  lemma CompoundSymmetricDiagonal(m: seq<seq<real>>, v: real, c: real)
    requires IsSquare(m) && CompoundSymmetric(m, v, c)
    ensures DiagonalSum(m) == |m| as real * v
  {
    SumOfPattern(Diagonal(m), -1, v, v);
  }

  /** Equal variances and equal nonzero covariances give unit weights around the first item. */
  lemma CompoundSymmetricUnitWeights(m: seq<seq<real>>, v: real, c: real)
    requires IsSquare(m) && |m| >= 3 && CompoundSymmetric(m, v, c) && c != 0.0
    ensures FeldtGilmerValue(m)
            == Coefficient(Finite(|m| as real), Finite(|m| as real), TotalVariance(m), DiagonalSum(m))
  {
    CompoundSymmetricPivot(m, v, c);
    CompoundSymmetricWeights(m, v, c);
    ValueOfUnitWeights(m);
  }

  /** The formula with unit weights, with T and C replaced by values equal to them. */
  lemma ValueWithVariances(m: seq<seq<real>>, t: real, d: real)
    requires IsSquare(m) && |m| >= 3
    requires FeldtGilmerValue(m)
             == Coefficient(Finite(|m| as real), Finite(|m| as real), TotalVariance(m), DiagonalSum(m))
    requires TotalVariance(m) == t && DiagonalSum(m) == d
    ensures FeldtGilmerValue(m) == Coefficient(Finite(|m| as real), Finite(|m| as real), t, d)
  {
  }

  /**
   * For n >= 3 items with equal variances v and equal nonzero covariances c,
   * `value()` is the formula with S = Q = n, T = n e and C = n v, where
   * `e = v + (n - 1) c` is the common row sum; by EqualItemsCoefficient that is
   * `n c / e`, coefficient alpha for such items.
   */
  lemma CompoundSymmetricValue(m: seq<seq<real>>, v: real, c: real, e: real)
    requires IsSquare(m) && |m| >= 3 && CompoundSymmetric(m, v, c) && c != 0.0
    requires e == v + (|m| - 1) as real * c
    ensures FeldtGilmerValue(m)
            == Coefficient(Finite(|m| as real), Finite(|m| as real), |m| as real * e, |m| as real * v)
  {
    CompoundSymmetricTotal(m, v, c, e);
    CompoundSymmetricDiagonal(m, v, c);
    CompoundSymmetricUnitWeights(m, v, c);
    ValueWithVariances(m, |m| as real * e, |m| as real * v);
  }

  /** The closed form: n unit weights, T = n e and C = n v give `n c / e`. */
  lemma EqualItemsCoefficient(N: nat, v: real, c: real, e: real, t: real, d: real)
    requires N >= 3 && e == v + (N - 1) as real * c && e != 0.0
    requires t == N as real * e && d == N as real * v
    ensures Coefficient(Finite(N as real), Finite(N as real), t, d) == Finite(N as real * c / e)
  {
    RealOfPredecessor(N);
    EqualWeightsCoefficient(N as real, (N - 1) as real, v, c, e, t, d);
  }

  /** The formula with S = Q = n, T = n e and C = n v for unit variances and covariances of one half. */
  lemma HalfCovarianceCoefficient(n: nat)
    requires 3 <= n <= 5
    ensures Coefficient(Finite(n as real), Finite(n as real), n as real * (1.0 + (n - 1) as real * 0.5), n as real * 1.0)
            == Finite(if n == 3 then 0.75 else if n == 4 then 0.8 else 5.0 / 6.0)
  {
    var e := 1.0 + (n - 1) as real * 0.5;
    EqualItemsCoefficient(n, 1.0, 0.5, e, n as real * e, n as real * 1.0);
    if n == 3 {
      assert e == 2.0;
      assert 3.0 * 0.5 / 2.0 == 0.75;
    } else if n == 4 {
      assert e == 2.5;
      assert 4.0 * 0.5 / 2.5 == 0.8;
    } else {
      assert e == 3.0;
      assert 5.0 * 0.5 / 3.0 == 5.0 / 6.0;
    }
  }

  // ---------------------------------------------------------------------------
  // The item-deleted adjustments
  // ---------------------------------------------------------------------------

  /**
   * For a symmetric matrix, `totalVarianceAdjusted` and `diagonalSumAdjusted`
   * of item i are the observed and the component variance of the test without
   * item i: the total and the diagonal sum of the matrix with row and column i
   * removed.
   */
  lemma AdjustedVariancesOfMinor(m: seq<seq<real>>, i: nat)
    requires IsSquare(m) && IsSymmetric(m) && i < |m|
    ensures AdjustedTotalVariance(m, i) == TotalVariance(Minor(m, i))
    ensures AdjustedDiagonalSum(m, i) == DiagonalSum(Minor(m, i))
  {
    MinorTotalVariance(m, i);
    MinorDiagonalSum(m, i);
  }

  // ---------------------------------------------------------------------------
  // A worked example
  // ---------------------------------------------------------------------------

  lemma SumOfThree(a: real, b: real, c: real)
    ensures Sum([a, b, c]) == a + b + c
  {
    assert [a, b, c][..2] == [a, b];
    assert [a, b][..1] == [a];
    assert [a][..0] == [];
    assert Sum([a]) == a;
    assert Sum([a, b]) == a + b;
  }

  lemma TotalOfThree(r0: seq<real>, r1: seq<real>, r2: seq<real>)
    ensures TotalVariance([r0, r1, r2]) == Sum(r0) + Sum(r1) + Sum(r2)
  {
    assert [r0, r1, r2][..2] == [r0, r1];
    assert [r0, r1][..1] == [r0];
    assert [r0][..0] == [];
    assert TotalVariance([r0]) == Sum(r0);
    assert TotalVariance([r0, r1]) == Sum(r0) + Sum(r1);
  }

  /** Three items with variances 4, 5 and 6 and every covariance 2. */
  const Example: seq<seq<real>> := [[4.0, 2.0, 2.0], [2.0, 5.0, 2.0], [2.0, 2.0, 6.0]]

  /**
   * The row sums are 8, 9 and 10 and every off-diagonal sum is 4, so the pivot
   * is the first item and both other weights are 2/2 = 1; T = 27 and C = 15.
   */
  lemma ExampleParts()
    ensures IsSquare(Example) && |Example| == 3 && Pivot(Example) == 0
    ensures Weights(Example, 0) == [One, One, One]
    ensures TotalVariance(Example) == 27.0 && DiagonalSum(Example) == 15.0
  {
    var m := Example;
    assert IsSquare(m);
    SumOfThree(4.0, 2.0, 2.0);
    SumOfThree(2.0, 5.0, 2.0);
    SumOfThree(2.0, 2.0, 6.0);
    assert RowSum(m, 0) == 8.0 && RowSum(m, 1) == 9.0 && RowSum(m, 2) == 10.0;
    assert OffDiagonals(m) == [4.0, 4.0, 4.0];
    assert Weight(m, 0, 1) == One && Weight(m, 0, 2) == One;
    TotalOfThree(m[0], m[1], m[2]);
    assert Diagonal(m) == [4.0, 5.0, 6.0];
    SumOfThree(4.0, 5.0, 6.0);
  }

  /** With S = Q = 3, T = 27 and C = 15 the formula gives (9/6)(12/27) = 2/3. */
  lemma ExampleCoefficient()
    ensures Coefficient(Finite(3.0), Finite(3.0), 27.0, 15.0) == Finite(2.0 / 3.0)
  {
    assert Div(Square(Finite(3.0)), Sub(Square(Finite(3.0)), Finite(3.0))) == Finite(1.5);
    assert Div(Finite(27.0 - 15.0), Finite(27.0)) == Finite(12.0 / 27.0);
  }

  /** `value()` of the example is 2/3. */
  lemma ExampleValue()
    ensures IsSquare(Example) && FeldtGilmerValue(Example) == Finite(2.0 / 3.0)
  {
    ExampleParts();
    ValueOfUnitWeights(Example);
    ValueWithVariances(Example, 27.0, 15.0);
    ExampleCoefficient();
  }
}
