/**
 * The summaries of an item covariance matrix that every score-reliability
 * estimate of the library shares: row sums, the total variance (the variance
 * of the summed score) and the diagonal sum (the sum of the item variances).
 *
 * Matrix entries are finite reals and sums are exact.
 */
module ScoreReliability {

  /** An n-by-n matrix, stored as n rows of n entries. */
  predicate IsSquare(m: seq<seq<real>>) {
    forall i :: 0 <= i < |m| ==> |m[i]| == |m|
  }

  predicate IsSymmetric(m: seq<seq<real>>)
    requires IsSquare(m)
  {
    forall i, j :: 0 <= i < |m| && 0 <= j < |m| ==> m[i][j] == m[j][i]
  }

  /** The sum of a sequence, added from left to right. */
  function Sum(s: seq<real>): real {
    if s == [] then 0.0 else Sum(s[..|s| - 1]) + s[|s| - 1]
  }

  /** `rowSum(i)`: the whole row i, its diagonal entry included. */
  function RowSum(m: seq<seq<real>>, i: nat): real
    requires i < |m|
  {
    Sum(m[i])
  }

  /** `totalVariance()`: the sum of every entry of the matrix. */
  function TotalVariance(m: seq<seq<real>>): real {
    if m == [] then 0.0 else TotalVariance(m[..|m| - 1]) + Sum(m[|m| - 1])
  }

  function Diagonal(m: seq<seq<real>>): (d: seq<real>)
    requires IsSquare(m)
    ensures |d| == |m|
  {
    seq(|m|, i requires 0 <= i < |m| => m[i][i])
  }

  /** `diagonalSum()`: the sum of the item variances. */
  function DiagonalSum(m: seq<seq<real>>): real
    requires IsSquare(m)
  {
    Sum(Diagonal(m))
  }

  /** The sequence with the element at k taken out. */
  function Drop<T>(s: seq<T>, k: nat): (r: seq<T>)
    requires k < |s|
    ensures |r| == |s| - 1
  {
    s[..k] + s[k + 1..]
  }

  lemma TakeAll<T>(s: seq<T>)
    ensures s[..|s|] == s
  {
  }

  /** Column k of a list of rows, each of which has an entry at k. */
  function Column(rows: seq<seq<real>>, k: nat): (c: seq<real>)
    requires forall i :: 0 <= i < |rows| ==> k < |rows[i]|
    ensures |c| == |rows|
  {
    seq(|rows|, i requires 0 <= i < |rows| => rows[i][k])
  }

  /** Every row with its entry at column k taken out. */
  function DropColumn(rows: seq<seq<real>>, k: nat): (r: seq<seq<real>>)
    requires forall i :: 0 <= i < |rows| ==> k < |rows[i]|
    ensures |r| == |rows|
  {
    seq(|rows|, i requires 0 <= i < |rows| => Drop(rows[i], k))
  }

  /** The covariance matrix of the test without item k: row and column k removed. */
  function Minor(m: seq<seq<real>>, k: nat): (r: seq<seq<real>>)
    requires IsSquare(m) && k < |m|
    ensures |r| == |m| - 1 && IsSquare(r)
    ensures forall i, j :: 0 <= i < |r| && 0 <= j < |r| ==>
              r[i][j] == m[if i < k then i else i + 1][if j < k then j else j + 1]
  {
    DropColumn(Drop(m, k), k)
  }

  lemma {:induction false} SumConcat(a: seq<real>, b: seq<real>)
    ensures Sum(a + b) == Sum(a) + Sum(b)
    decreases |b|
  {
    if b != [] {
      var b' := b[..|b| - 1];
      assert (a + b)[..|a + b| - 1] == a + b';
      SumConcat(a, b');
    } else {
      assert a + b == a;
    }
  }

  /** Taking one element out of a sequence takes it out of the sum. */
  lemma SumDrop(s: seq<real>, k: nat)
    requires k < |s|
    ensures Sum(Drop(s, k)) == Sum(s) - s[k]
  {
    var before, after := s[..k], s[k + 1..];
    assert s[..k + 1] == before + [s[k]];
    assert s == s[..k + 1] + after;
    SumConcat(before + [s[k]], after);
    SumConcat(before, [s[k]]);
    assert Sum([s[k]]) == s[k] by {
      assert [s[k]][..0] == [];
    }
    SumConcat(before, after);
  }

  /** The row sums of a list of rows. */
  function RowSums(m: seq<seq<real>>): (r: seq<real>)
    ensures |r| == |m|
  {
    seq(|m|, i requires 0 <= i < |m| => Sum(m[i]))
  }

  /** The covariances of each item with every other item, added up per item. */
  function Covariances(m: seq<seq<real>>): (r: seq<real>)
    requires IsSquare(m)
    ensures |r| == |m|
  {
    seq(|m|, i requires 0 <= i < |m| => Sum(Drop(m[i], i)))
  }

  /** `rowSum(i)` holds the variance of item i as well as its covariances with every other item. */
  lemma RowSumWithDiagonal(m: seq<seq<real>>, i: nat)
    requires IsSquare(m) && i < |m|
    ensures RowSum(m, i) == Covariances(m)[i] + m[i][i]
  {
    SumDrop(m[i], i);
  }

  /** `totalVariance()` adds up every entry: it is the sum of the row sums. */
  lemma {:induction false} TotalIsSumOfRowSums(m: seq<seq<real>>)
    ensures TotalVariance(m) == Sum(RowSums(m))
    decreases |m|
  {
    if m != [] {
      assert RowSums(m)[..|m| - 1] == RowSums(m[..|m| - 1]);
      TotalIsSumOfRowSums(m[..|m| - 1]);
    }
  }

  /** Sums add up position by position. */
  lemma {:induction false} SumOfPointwise(a: seq<real>, b: seq<real>, c: seq<real>)
    requires |a| == |b| == |c|
    requires forall i :: 0 <= i < |c| ==> c[i] == a[i] + b[i]
    ensures Sum(c) == Sum(a) + Sum(b)
    decreases |c|
  {
    if c != [] {
      var k := |c| - 1;
      SumOfPointwise(a[..k], b[..k], c[..k]);
    }
  }

  /**
   * The observed variance is the component variance `diagonalSum()` plus every
   * covariance: `totalVariance() - diagonalSum()` is the sum of the
   * off-diagonal entries.
   */
  lemma TotalSplits(m: seq<seq<real>>)
    requires IsSquare(m)
    ensures TotalVariance(m) == DiagonalSum(m) + Sum(Covariances(m))
  {
    TotalIsSumOfRowSums(m);
    forall i | 0 <= i < |m|
      ensures RowSums(m)[i] == Diagonal(m)[i] + Covariances(m)[i]
    {
      RowSumWithDiagonal(m, i);
    }
    SumOfPointwise(Diagonal(m), Covariances(m), RowSums(m));
  }

  lemma {:induction false} TotalConcat(a: seq<seq<real>>, b: seq<seq<real>>)
    ensures TotalVariance(a + b) == TotalVariance(a) + TotalVariance(b)
    decreases |b|
  {
    if b != [] {
      var b' := b[..|b| - 1];
      assert (a + b)[..|a + b| - 1] == a + b';
      TotalConcat(a, b');
    } else {
      assert a + b == a;
    }
  }

  /** Taking one row out of the matrix takes its row sum out of the total. */
  lemma TotalDropRow(rows: seq<seq<real>>, k: nat)
    requires k < |rows|
    ensures TotalVariance(Drop(rows, k)) == TotalVariance(rows) - Sum(rows[k])
  {
    var before, after := rows[..k], rows[k + 1..];
    assert rows[..k + 1] == before + [rows[k]];
    assert rows == rows[..k + 1] + after;
    TotalConcat(before + [rows[k]], after);
    TotalConcat(before, [rows[k]]);
    assert TotalVariance([rows[k]]) == Sum(rows[k]) by {
      assert [rows[k]][..0] == [];
    }
    TotalConcat(before, after);
  }

  /** Taking one column out of the matrix takes its column sum out of the total. */
  lemma {:induction false} TotalDropColumn(rows: seq<seq<real>>, k: nat)
    requires forall i :: 0 <= i < |rows| ==> k < |rows[i]|
    ensures TotalVariance(DropColumn(rows, k)) == TotalVariance(rows) - Sum(Column(rows, k))
    decreases |rows|
  {
    if rows != [] {
      var n := |rows|;
      var rows' := rows[..n - 1];
      assert DropColumn(rows, k)[..n - 1] == DropColumn(rows', k);
      assert Column(rows, k)[..n - 1] == Column(rows', k);
      TotalDropColumn(rows', k);
      SumDrop(rows[n - 1], k);
    }
  }

  lemma ColumnOfDrop(rows: seq<seq<real>>, j: nat, k: nat)
    requires j < |rows|
    requires forall i :: 0 <= i < |rows| ==> k < |rows[i]|
    ensures Column(Drop(rows, j), k) == Drop(Column(rows, k), j)
  {
    var l, r := Column(Drop(rows, j), k), Drop(Column(rows, k), j);
    forall i | 0 <= i < |l| ensures l[i] == r[i] {
      if i < j {
        assert r[i] == Column(rows, k)[i];
      } else {
        assert r[i] == Column(rows, k)[i + 1];
      }
    }
  }

  lemma DropOfSquare(m: seq<seq<real>>, k: nat)
    requires IsSquare(m) && k < |m|
    ensures forall i :: 0 <= i < |Drop(m, k)| ==> |Drop(m, k)[i]| == |m|
    ensures Minor(m, k) == DropColumn(Drop(m, k), k)
  {
  }

  /** In a symmetric matrix, column k holds the same covariances as row k. */
  lemma ColumnOfSymmetric(m: seq<seq<real>>, k: nat)
    requires IsSquare(m) && IsSymmetric(m) && k < |m|
    ensures Column(m, k) == m[k]
  {
  }

  /**
   * The total variance of the test without item k: the total loses row k,
   * then column k without its diagonal entry, which for a symmetric matrix is
   * twice the covariances of item k with the others plus its variance.
   */
  lemma MinorTotalVariance(m: seq<seq<real>>, k: nat)
    requires IsSquare(m) && IsSymmetric(m) && k < |m|
    ensures TotalVariance(Minor(m, k)) == TotalVariance(m) - 2.0 * (RowSum(m, k) - m[k][k]) - m[k][k]
  {
    var rows := Drop(m, k);
    var col := Column(m, k);
    DropOfSquare(m, k);
    var total := TotalVariance(m);
    var rowK := RowSum(m, k);
    TotalDropRow(m, k);
    assert TotalVariance(rows) == total - rowK;
    TotalDropColumn(rows, k);
    ColumnOfDrop(m, k, k);
    SumDrop(col, k);
    ColumnOfSymmetric(m, k);
    assert Sum(Column(rows, k)) == rowK - m[k][k];
  }

  /** The diagonal sum of the test without item k loses exactly the variance of item k. */
  lemma MinorDiagonalSum(m: seq<seq<real>>, k: nat)
    requires IsSquare(m) && k < |m|
    ensures DiagonalSum(Minor(m, k)) == DiagonalSum(m) - m[k][k]
  {
    assert Diagonal(Minor(m, k)) == Drop(Diagonal(m), k);
    SumDrop(Diagonal(m), k);
  }
}
