/**
 * The order in which the items are listed. Reordering the rows and columns of
 * the covariance matrix by the same permutation reorders the off-diagonal
 * sums, the weights and the row sums with them and leaves the observed and
 * component variances unchanged; so the coefficient does not depend on the
 * order of the items, except through the first-maximum tie-break of the pivot.
 */
module ItemOrder {
  import opened Doubles
  import opened ScoreReliability
  import opened FeldtGilmer

  /** p lists the positions 0 .. |p| - 1 in a new order, and q puts them back. */
  predicate IsPermutation(p: seq<nat>, q: seq<nat>) {
    |p| == |q|
    && (forall i :: 0 <= i < |p| ==> p[i] < |q| && q[p[i]] == i)
    && (forall j :: 0 <= j < |q| ==> q[j] < |p| && p[q[j]] == j)
  }

  /** The elements of s in the order p lists them. */
  function Permute<T>(s: seq<T>, p: seq<nat>): (r: seq<T>)
    requires forall i :: 0 <= i < |p| ==> p[i] < |s|
    ensures |r| == |p|
  {
    seq(|p|, i requires 0 <= i < |p| => s[p[i]])
  }

  /** The covariance matrix of the same items listed in the order p: item i is item p[i]. */
  function Reorder(m: seq<seq<real>>, p: seq<nat>): (r: seq<seq<real>>)
    requires IsSquare(m) && |p| == |m|
    requires forall i :: 0 <= i < |p| ==> p[i] < |m|
    ensures IsSquare(r) && |r| == |m|
  {
    seq(|m|, i requires 0 <= i < |m| => Permute(m[p[i]], p))
  }

  // ---------------------------------------------------------------------------
  // Sums do not depend on the order of their terms
  // ---------------------------------------------------------------------------

  /** Taking one term out of a running sum of doubles and adding it last gives the same sum. */
  lemma {:induction false} SumOfDrop(t: seq<Double>, k: nat)
    requires k < |t|
    ensures SumOf(t) == Add(SumOf(Drop(t, k)), t[k])
    decreases |t|
  {
    var n := |t|;
    if k == n - 1 {
      assert Drop(t, k) == t[..n - 1];
    } else {
      var init := t[..n - 1];
      SumOfDrop(init, k);
      var rest := SumOf(Drop(init, k));
      assert Drop(t, k)[..n - 2] == Drop(init, k);
      assert Drop(t, k)[n - 2] == t[n - 1];
      AddAssociates(rest, t[k], t[n - 1]);
      AddCommutes(t[k], t[n - 1]);
      AddAssociates(rest, t[n - 1], t[k]);
    }
  }

  /** The permutation of the first n - 1 positions left when the position q[n - 1] is taken out. */
  lemma ShorterPermutation(p: seq<nat>, q: seq<nat>) returns (p': seq<nat>, q': seq<nat>)
    requires IsPermutation(p, q) && |p| > 0
    ensures IsPermutation(p', q') && |p'| == |p| - 1
    ensures forall i :: 0 <= i < |p'| ==> p'[i] == Drop(p, q[|p| - 1])[i]
  {
    var n := |p|;
    var k := q[n - 1];
    p' := seq(n - 1, i requires 0 <= i < n - 1 => if i < k then p[i] else p[i + 1]);
    q' := seq(n - 1, j requires 0 <= j < n - 1 => if q[j] <= k then q[j] else q[j] - 1);
    forall i | 0 <= i < n - 1
      ensures p'[i] < n - 1 && q'[p'[i]] == i
    {
      var o := if i < k then i else i + 1;
      assert p'[i] == p[o] && q[p[o]] == o && o != k;
    }
    forall j | 0 <= j < n - 1
      ensures q'[j] < n - 1 && p'[q'[j]] == j
    {
      assert p[q[j]] == j && q[j] != k;
    }
  }

  /** A running sum of doubles does not depend on the order of its terms. */
  lemma {:induction false} SumOfPermuted(d: seq<Double>, p: seq<nat>, q: seq<nat>)
    requires IsPermutation(p, q) && |p| == |d|
    ensures SumOf(Permute(d, p)) == SumOf(d)
    decreases |d|
  {
    var n := |d|;
    if n > 0 {
      var t := Permute(d, p);
      var k := q[n - 1];
      var p', q' := ShorterPermutation(p, q);
      assert Drop(t, k) == Permute(d[..n - 1], p') by {
        forall i | 0 <= i < n - 1
          ensures Drop(t, k)[i] == d[p'[i]]
        {
          if i < k {
            assert Drop(t, k)[i] == t[i];
          } else {
            assert Drop(t, k)[i] == t[i + 1];
          }
        }
      }
      SumOfPermuted(d[..n - 1], p', q');
      SumOfDrop(t, k);
    }
  }

  function SquaresOf(d: seq<Double>): (r: seq<Double>)
    ensures |r| == |d|
  {
    seq(|d|, i requires 0 <= i < |d| => Square(d[i]))
  }

  /** The running sum of squares is the running sum of the squared terms. */
  lemma {:induction false} SumOfSquaresOfTerms(d: seq<Double>)
    ensures SumOfSquares(d) == SumOf(SquaresOf(d))
    decreases |d|
  {
    if d != [] {
      assert SquaresOf(d)[..|d| - 1] == SquaresOf(d[..|d| - 1]);
      SumOfSquaresOfTerms(d[..|d| - 1]);
    }
  }

  /** A running sum of squares does not depend on the order of its terms. */
  lemma SumOfSquaresPermuted(d: seq<Double>, p: seq<nat>, q: seq<nat>)
    requires IsPermutation(p, q) && |p| == |d|
    ensures SumOfSquares(Permute(d, p)) == SumOfSquares(d)
  {
    assert SquaresOf(Permute(d, p)) == Permute(SquaresOf(d), p);
    SumOfSquaresOfTerms(Permute(d, p));
    SumOfSquaresOfTerms(d);
    SumOfPermuted(SquaresOf(d), p, q);
  }

  function Finites(s: seq<real>): (r: seq<Double>)
    ensures |r| == |s|
  {
    seq(|s|, i requires 0 <= i < |s| => Finite(s[i]))
  }

  /** On finite terms the running sum of doubles is the exact sum. */
  lemma {:induction false} SumOfFinites(s: seq<real>)
    ensures SumOf(Finites(s)) == Finite(Sum(s))
    decreases |s|
  {
    if s != [] {
      assert Finites(s)[..|s| - 1] == Finites(s[..|s| - 1]);
      SumOfFinites(s[..|s| - 1]);
    }
  }

  /** An exact sum does not depend on the order of its terms. */
  lemma SumPermuted(s: seq<real>, p: seq<nat>, q: seq<nat>)
    requires IsPermutation(p, q) && |p| == |s|
    ensures Sum(Permute(s, p)) == Sum(s)
  {
    assert Finites(Permute(s, p)) == Permute(Finites(s), p);
    SumOfFinites(Permute(s, p));
    SumOfFinites(s);
    SumOfPermuted(Finites(s), p, q);
  }

  // ---------------------------------------------------------------------------
  // The summaries of a reordered matrix
  // ---------------------------------------------------------------------------

  /** Item i of the reordered test has the row sum of item p[i]. */
  lemma RowSumOfReorder(m: seq<seq<real>>, p: seq<nat>, q: seq<nat>, i: nat)
    requires IsSquare(m) && IsPermutation(p, q) && |p| == |m| && i < |m|
    ensures RowSum(Reorder(m, p), i) == RowSum(m, p[i])
  {
    SumPermuted(m[p[i]], p, q);
  }

  /** Reordering the items leaves the observed variance unchanged. */
  lemma TotalOfReorder(m: seq<seq<real>>, p: seq<nat>, q: seq<nat>)
    requires IsSquare(m) && IsPermutation(p, q) && |p| == |m|
    ensures TotalVariance(Reorder(m, p)) == TotalVariance(m)
  {
    var r := Reorder(m, p);
    assert RowSums(r) == Permute(RowSums(m), p) by {
      forall i | 0 <= i < |m|
        ensures RowSums(r)[i] == RowSums(m)[p[i]]
      {
        RowSumOfReorder(m, p, q, i);
      }
    }
    TotalIsSumOfRowSums(r);
    TotalIsSumOfRowSums(m);
    SumPermuted(RowSums(m), p, q);
  }

  /** Reordering the items leaves the component variance unchanged. */
  lemma DiagonalSumOfReorder(m: seq<seq<real>>, p: seq<nat>, q: seq<nat>)
    requires IsSquare(m) && IsPermutation(p, q) && |p| == |m|
    ensures DiagonalSum(Reorder(m, p)) == DiagonalSum(m)
  {
    assert Diagonal(Reorder(m, p)) == Permute(Diagonal(m), p);
    SumPermuted(Diagonal(m), p, q);
  }

  /** The off-diagonal sums are reordered with the items. */
  lemma OffDiagonalsOfReorder(m: seq<seq<real>>, p: seq<nat>, q: seq<nat>)
    requires IsSquare(m) && IsPermutation(p, q) && |p| == |m|
    ensures OffDiagonals(Reorder(m, p)) == Permute(OffDiagonals(m), p)
  {
    forall i | 0 <= i < |m|
      ensures OffDiagonal(Reorder(m, p), i) == OffDiagonal(m, p[i])
    {
      RowSumOfReorder(m, p, q, i);
    }
  }

  // ---------------------------------------------------------------------------
  // The pivot and the weights of a reordered matrix
  // ---------------------------------------------------------------------------

  /** k holds a value larger than every other element of s. */
  predicate IsStrictMax(s: seq<real>, k: nat) {
    k < |s| && forall j :: 0 <= j < |s| && j != k ==> s[j] < s[k]
  }

  /** A strict maximum is the first maximum, whatever the order of the scan. */
  lemma FirstMaxOfStrictMax(s: seq<real>, k: nat)
    requires IsStrictMax(s, k)
    ensures FirstMax(s) == k
  {
  }

  /** A strict maximum moves with the permutation. */
  lemma StrictMaxPermuted(s: seq<real>, p: seq<nat>, q: seq<nat>, k: nat)
    requires IsPermutation(p, q) && |p| == |s| && IsStrictMax(s, k)
    ensures IsStrictMax(Permute(s, p), q[k])
  {
    forall j | 0 <= j < |s| && j != q[k]
      ensures Permute(s, p)[j] < Permute(s, p)[q[k]]
    {
      assert p[q[k]] == k && p[j] != k;
    }
  }

  /**
   * When one item has a strictly larger off-diagonal sum than every other,
   * `getEll()` of the reordered test is that item at its new position.
   */
  lemma PivotOfReorder(m: seq<seq<real>>, p: seq<nat>, q: seq<nat>)
    requires IsSquare(m) && IsPermutation(p, q) && |p| == |m| > 0
    requires IsStrictMax(OffDiagonals(m), Pivot(m))
    ensures Pivot(Reorder(m, p)) == q[Pivot(m)]
    ensures IsStrictMax(OffDiagonals(Reorder(m, p)), Pivot(Reorder(m, p)))
  {
    OffDiagonalsOfReorder(m, p, q);
    StrictMaxPermuted(OffDiagonals(m), p, q, Pivot(m));
    FirstMaxOfStrictMax(OffDiagonals(Reorder(m, p)), q[Pivot(m)]);
  }

  /** The weights `D(ell)` are reordered with the items, the pivot moving with them. */
  lemma WeightsOfReorder(m: seq<seq<real>>, p: seq<nat>, q: seq<nat>, ell: nat)
    requires IsSquare(m) && IsPermutation(p, q) && |p| == |m| && ell < |m|
    ensures Weights(Reorder(m, p), q[ell]) == Permute(Weights(m, ell), p)
  {
    var r := Reorder(m, p);
    forall i | 0 <= i < |m|
      ensures Weight(r, q[ell], i) == Weight(m, ell, p[i])
    {
      RowSumOfReorder(m, p, q, i);
      RowSumOfReorder(m, p, q, q[ell]);
      assert p[q[ell]] == ell;
      assert (i == q[ell]) == (p[i] == ell);
    }
  }

  /**
   * Reordering the items leaves the four quantities of the formula unchanged:
   * the sum S and the sum of squares Q of the weights around the pivot, the
   * observed variance T and the component variance C.
   */
  lemma SummariesOfReorder(m: seq<seq<real>>, p: seq<nat>, q: seq<nat>)
    requires IsSquare(m) && IsPermutation(p, q) && |p| == |m| > 0
    requires IsStrictMax(OffDiagonals(m), Pivot(m))
    ensures SumOf(Weights(Reorder(m, p), Pivot(Reorder(m, p)))) == SumOf(Weights(m, Pivot(m)))
    ensures SumOfSquares(Weights(Reorder(m, p), Pivot(Reorder(m, p)))) == SumOfSquares(Weights(m, Pivot(m)))
    ensures TotalVariance(Reorder(m, p)) == TotalVariance(m)
    ensures DiagonalSum(Reorder(m, p)) == DiagonalSum(m)
  {
    PivotOfReorder(m, p, q);
    WeightsOfReorder(m, p, q, Pivot(m));
    SumOfPermuted(Weights(m, Pivot(m)), p, q);
    SumOfSquaresPermuted(Weights(m, Pivot(m)), p, q);
    TotalOfReorder(m, p, q);
    DiagonalSumOfReorder(m, p, q);
  }

  /**
   * `value()` depends on the matrix only through S, Q, T and C: two matrices
   * of the same size that agree on them have the same coefficient.
   */
  lemma ValueFromSummaries(m: seq<seq<real>>, m': seq<seq<real>>)
    requires IsSquare(m) && IsSquare(m') && |m| == |m'|
    requires |m| > 0 ==> SumOf(Weights(m, Pivot(m))) == SumOf(Weights(m', Pivot(m')))
    requires |m| > 0 ==> SumOfSquares(Weights(m, Pivot(m))) == SumOfSquares(Weights(m', Pivot(m')))
    requires TotalVariance(m) == TotalVariance(m') && DiagonalSum(m) == DiagonalSum(m')
    ensures FeldtGilmerValue(m) == FeldtGilmerValue(m')
  {
  }

  /**
   * Listing the items in another order does not change `value()`, provided the
   * pivot is a strict maximum, so that the first-maximum tie-break plays no part.
   */
  lemma ValueOfReorder(m: seq<seq<real>>, p: seq<nat>, q: seq<nat>)
    requires IsSquare(m) && IsPermutation(p, q) && |p| == |m|
    requires |m| > 0 ==> IsStrictMax(OffDiagonals(m), Pivot(m))
    ensures FeldtGilmerValue(Reorder(m, p)) == FeldtGilmerValue(m)
  {
    if |m| > 0 {
      SummariesOfReorder(m, p, q);
    } else {
      TotalOfReorder(m, p, q);
      DiagonalSumOfReorder(m, p, q);
    }
    ValueFromSummaries(Reorder(m, p), m);
  }
}
