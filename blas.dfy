/**
 * The Cholesky factorisation `choleskyDecompose` of src/vmcmc/blas.hpp.
 *
 * Matrices are `array2<real>` where the source mutates them and
 * `Matrix` values (rows of cells) in specifications. The square root of
 * <cmath> is a parameter `sqrt` that is only assumed to be a positive square
 * root on positive arguments (`IsSqrt`).
 */
module Blas {

  type Matrix = seq<seq<real>>

  ghost predicate IsSquare(M: Matrix, n: nat)
  {
    |M| == n && forall i :: 0 <= i < n ==> |M[i]| == n
  }

  /** What the factorisation needs of `sqrt`: a positive root of every positive number. */
  ghost predicate IsSqrt(sqrt: real -> real)
  {
    forall x :: x > 0.0 ==> sqrt(x) > 0.0 && sqrt(x) * sqrt(x) == x
  }

  lemma SqrtPositive(sqrt: real -> real, x: real)
    requires IsSqrt(sqrt) && x > 0.0
    ensures sqrt(x) > 0.0
  {
  }

  /** The cells of an array, row by row. */
  ghost function Cells(a: array2<real>): (m: Matrix)
    reads a
    ensures |m| == a.Length0
    ensures forall i :: 0 <= i < a.Length0 ==> |m[i]| == a.Length1
    ensures forall i, j :: 0 <= i < a.Length0 && 0 <= j < a.Length1 ==> m[i][j] == a[i, j]
  {
    seq(a.Length0, i requires 0 <= i < a.Length0 reads a =>
      seq(a.Length1, j requires 0 <= j < a.Length1 reads a => a[i, j]))
  }

  /** Two square matrices are equal when all their cells are. */
  lemma {:induction false} MatrixExt(M1: Matrix, M2: Matrix, n: nat)
    requires IsSquare(M1, n) && IsSquare(M2, n)
    requires forall i, j :: 0 <= i < n && 0 <= j < n ==> M1[i][j] == M2[i][j]
    ensures M1 == M2
  {
    forall i | 0 <= i < n
      ensures M1[i] == M2[i]
    {
      assert forall j :: 0 <= j < n ==> M1[i][j] == M2[i][j];
    }
  }

  /** The inner product of the first `len` cells of rows i and j. */
  ghost function Dot(M: Matrix, i: nat, j: nat, len: nat): (d: real)
    requires i < |M| && j < |M| && len <= |M[i]| && len <= |M[j]|
  {
    if len == 0 then 0.0 else Dot(M, i, j, len - 1) + M[i][len - 1] * M[j][len - 1]
  }

  /** `Dot` reads only the first `len` cells of the two rows. */
  lemma {:induction false} DotFrame(M1: Matrix, M2: Matrix, i: nat, j: nat, len: nat)
    requires i < |M1| && j < |M1| && len <= |M1[i]| && len <= |M1[j]|
    requires i < |M2| && j < |M2| && len <= |M2[i]| && len <= |M2[j]|
    requires forall m :: 0 <= m < len ==> M1[i][m] == M2[i][m] && M1[j][m] == M2[j][m]
    ensures Dot(M1, i, j, len) == Dot(M2, i, j, len)
  {
    if len > 0 {
      DotFrame(M1, M2, i, j, len - 1);
    }
  }

  /** The pivot candidate qL_kk = A(k,k) - sum of L(k,m)^2 over m < k. */
  ghost function Pivot(A: Matrix, L: Matrix, n: nat, k: nat): (q: real)
    requires IsSquare(A, n) && IsSquare(L, n) && k < n
  {
    A[k][k] - Dot(L, k, k, k)
  }

  /** The value the factorisation writes into cell (i, k), i >= k, given L(k,k) = lkk. */
  ghost function ColumnCell(A: Matrix, L: Matrix, n: nat, k: nat, i: nat, lkk: real): (c: real)
    requires IsSquare(A, n) && IsSquare(L, n) && k <= i < n && lkk != 0.0
  {
    if i == k then lkk else (A[i][k] - Dot(L, i, k, k)) / lkk
  }

  /** L with column k, from the diagonal down, written as step k of the factorisation writes it. */
  ghost function WriteColumn(A: Matrix, L: Matrix, n: nat, k: nat, lkk: real): (r: Matrix)
    requires IsSquare(A, n) && IsSquare(L, n) && k < n && lkk != 0.0
    ensures IsSquare(r, n)
    ensures forall i, j :: 0 <= i < n && 0 <= j < n ==>
      r[i][j] == if j == k && k <= i then ColumnCell(A, L, n, k, i, lkk) else L[i][j]
  {
    seq(n, i requires 0 <= i < n =>
      if i < k then L[i] else L[i][k := ColumnCell(A, L, n, k, i, lkk)])
  }

  /**
   * The factorisation as a specification: columns k, k+1, ... are processed
   * in turn; the first column whose pivot is not positive stops it with
   * status 1 + k, and status 0 means every column was written.
   */
  ghost function CholeskyRun(A: Matrix, L: Matrix, n: nat, k: nat, sqrt: real -> real): (r: (nat, Matrix))
    requires IsSquare(A, n) && IsSquare(L, n) && k <= n && IsSqrt(sqrt)
    ensures IsSquare(r.1, n)
    ensures r.0 == 0 || k < r.0 <= n
    decreases n - k
  {
    if k == n then (0, L)
    else
      var q := Pivot(A, L, n, k);
      if q <= 0.0 then (1 + k, L)
      else CholeskyRun(A, WriteColumn(A, L, n, k, sqrt(q)), n, k + 1, sqrt)
  }

  /** Column k of L holds what the factorisation computes for it from A. */
  ghost predicate ColumnDone(A: Matrix, L: Matrix, n: nat, k: nat, sqrt: real -> real)
    requires IsSquare(A, n) && IsSquare(L, n) && k < n && IsSqrt(sqrt)
  {
    && Pivot(A, L, n, k) > 0.0
    && L[k][k] == sqrt(Pivot(A, L, n, k))
    && L[k][k] > 0.0
    && forall i :: k < i < n ==> L[i][k] == (A[i][k] - Dot(L, i, k, k)) / L[k][k]
  }

  /** Columns 0..m-1 of L are done. */
  ghost predicate ColumnsDone(A: Matrix, L: Matrix, n: nat, m: nat, sqrt: real -> real)
    requires IsSquare(A, n) && IsSquare(L, n) && m <= n && IsSqrt(sqrt)
  {
    forall j :: 0 <= j < m ==> ColumnDone(A, L, n, j, sqrt)
  }

  /** The diagonal cell of a done column is the positive root of its pivot. */
  lemma {:induction false} ColumnDoneDiagonal(A: Matrix, L: Matrix, n: nat, k: nat, sqrt: real -> real)
    requires IsSquare(A, n) && IsSquare(L, n) && k < n && IsSqrt(sqrt)
    requires ColumnDone(A, L, n, k, sqrt)
    ensures L[k][k] > 0.0 && L[k][k] * L[k][k] == A[k][k] - Dot(L, k, k, k)
  {
    var p := Pivot(A, L, n, k);
    assert sqrt(p) * sqrt(p) == p;
  }

  /** A cell below the diagonal of a done column is the source's column formula. */
  lemma {:induction false} ColumnDoneBelow(A: Matrix, L: Matrix, n: nat, k: nat, i: nat, sqrt: real -> real)
    requires IsSquare(A, n) && IsSquare(L, n) && k < i < n && IsSqrt(sqrt)
    requires ColumnDone(A, L, n, k, sqrt)
    ensures L[k][k] > 0.0 && L[i][k] == (A[i][k] - Dot(L, i, k, k)) / L[k][k]
  {
  }

  /** `ColumnDone(.., k)` reads only columns 0..k of L. */
  lemma {:induction false} ColumnDoneFrame(A: Matrix, L1: Matrix, L2: Matrix, n: nat, k: nat, sqrt: real -> real)
    requires IsSquare(A, n) && IsSquare(L1, n) && IsSquare(L2, n) && k < n && IsSqrt(sqrt)
    requires forall r, c :: 0 <= r < n && 0 <= c <= k ==> L1[r][c] == L2[r][c]
    requires ColumnDone(A, L1, n, k, sqrt)
    ensures ColumnDone(A, L2, n, k, sqrt)
  {
    DotFrame(L1, L2, k, k, k);
    forall i | k < i < n
      ensures L2[i][k] == (A[i][k] - Dot(L2, i, k, k)) / L2[k][k]
    {
      DotFrame(L1, L2, i, k, k);
    }
  }

  /** Writing column k after a positive pivot makes column k done and keeps the earlier ones. */
  lemma {:induction false} WriteColumnDone(A: Matrix, L: Matrix, n: nat, k: nat, sqrt: real -> real)
    requires IsSquare(A, n) && IsSquare(L, n) && k < n && IsSqrt(sqrt)
    requires Pivot(A, L, n, k) > 0.0
    requires ColumnsDone(A, L, n, k, sqrt)
    ensures ColumnsDone(A, WriteColumn(A, L, n, k, sqrt(Pivot(A, L, n, k))), n, k + 1, sqrt)
  {
    var L1 := WriteColumn(A, L, n, k, sqrt(Pivot(A, L, n, k)));
    forall j | 0 <= j < k
      ensures ColumnDone(A, L1, n, j, sqrt)
    {
      ColumnDoneFrame(A, L, L1, n, j, sqrt);
    }
    DotFrame(L, L1, k, k, k);
    forall i | k < i < n
      ensures L1[i][k] == (A[i][k] - Dot(L1, i, k, k)) / L1[k][k]
    {
      DotFrame(L, L1, i, k, k);
    }
  }

  /** A run from column k writes no cell left of column k, above the diagonal, or from the failing column on. */
  lemma {:induction false} RunUnchanged(A: Matrix, L: Matrix, n: nat, k: nat, sqrt: real -> real, s: nat, R: Matrix)
    requires IsSquare(A, n) && IsSquare(L, n) && k <= n && IsSqrt(sqrt)
    requires CholeskyRun(A, L, n, k, sqrt) == (s, R)
    ensures forall r, c :: 0 <= r < n && 0 <= c < n && (c < k || r < c) ==> R[r][c] == L[r][c]
    ensures s != 0 ==> forall r, c :: 0 <= r < n && s - 1 <= c < n ==> R[r][c] == L[r][c]
    decreases n - k
  {
    if k < n && Pivot(A, L, n, k) > 0.0 {
      var L1 := WriteColumn(A, L, n, k, sqrt(Pivot(A, L, n, k)));
      RunStep(A, L, n, k, sqrt);
      RunUnchanged(A, L1, n, k + 1, sqrt, s, R);
      forall r, c | 0 <= r < n && 0 <= c < n && (c < k || r < c)
        ensures R[r][c] == L[r][c]
      {
        assert R[r][c] == L1[r][c];
      }
      if s != 0 {
        forall r, c | 0 <= r < n && s - 1 <= c < n
          ensures R[r][c] == L[r][c]
        {
          assert R[r][c] == L1[r][c];
        }
      }
    } else if k < n {
      assert (s, R) == (1 + k, L);
    }
  }

  /** A run from column k, with columns 0..k-1 done, finishes every column before the failing one. */
  lemma {:induction false} RunDone(A: Matrix, L: Matrix, n: nat, k: nat, sqrt: real -> real, s: nat, R: Matrix)
    requires IsSquare(A, n) && IsSquare(L, n) && k <= n && IsSqrt(sqrt)
    requires ColumnsDone(A, L, n, k, sqrt)
    requires CholeskyRun(A, L, n, k, sqrt) == (s, R)
    ensures IsSquare(R, n) && s <= n
    ensures ColumnsDone(A, R, n, Finished(s, n), sqrt)
    ensures s != 0 ==> Pivot(A, R, n, s - 1) <= 0.0
    decreases n - k, 1
  {
    if k < n && Pivot(A, L, n, k) > 0.0 {
      RunDoneStep(A, L, n, k, sqrt, s, R);
    } else if k < n {
      assert (s, R) == (1 + k, L);
    }
  }

  /** The step case of RunDone: write column k, then continue from column k + 1. */
  lemma {:induction false} RunDoneStep(A: Matrix, L: Matrix, n: nat, k: nat, sqrt: real -> real, s: nat, R: Matrix)
    requires IsSquare(A, n) && IsSquare(L, n) && k < n && IsSqrt(sqrt)
    requires Pivot(A, L, n, k) > 0.0
    requires ColumnsDone(A, L, n, k, sqrt)
    requires CholeskyRun(A, L, n, k, sqrt) == (s, R)
    ensures IsSquare(R, n) && s <= n
    ensures ColumnsDone(A, R, n, Finished(s, n), sqrt)
    ensures s != 0 ==> Pivot(A, R, n, s - 1) <= 0.0
    decreases n - k, 0
  {
    var L1 := WriteColumn(A, L, n, k, sqrt(Pivot(A, L, n, k)));
    RunStep(A, L, n, k, sqrt);
    WriteColumnDone(A, L, n, k, sqrt);
    RunDone(A, L1, n, k + 1, sqrt, s, R);
  }

  /** One step of the run after a positive pivot. */
  lemma {:induction false} RunStep(A: Matrix, L: Matrix, n: nat, k: nat, sqrt: real -> real)
    requires IsSquare(A, n) && IsSquare(L, n) && k < n && IsSqrt(sqrt)
    requires Pivot(A, L, n, k) > 0.0
    ensures CholeskyRun(A, L, n, k, sqrt) == CholeskyRun(A, WriteColumn(A, L, n, k, sqrt(Pivot(A, L, n, k))), n, k + 1, sqrt)
  {
  }

  /** The number of columns a run with status s has finished: all n on success, k on failure at row k. */
  function Finished(s: nat, n: nat): (m: nat)
  {
    if s == 0 then n else s - 1
  }

  /**
   * The status is 0 or 1 + k for a row k < n, hence in [0, n]; it is 0 for
   * n == 0. A status 1 + k names the first row whose pivot is not positive.
   */
  lemma {:induction false} CholeskyStatus(A: Matrix, L0: Matrix, n: nat, sqrt: real -> real, s: nat, R: Matrix)
    requires IsSquare(A, n) && IsSquare(L0, n) && IsSqrt(sqrt)
    requires CholeskyRun(A, L0, n, 0, sqrt) == (s, R)
    ensures IsSquare(R, n) && s <= n
    ensures n == 0 ==> s == 0
    ensures s != 0 ==> Pivot(A, R, n, s - 1) <= 0.0
    ensures forall j :: 0 <= j < Finished(s, n) ==> Pivot(A, R, n, j) > 0.0
  {
    RunDone(A, L0, n, 0, sqrt, s, R);
    forall j | 0 <= j < Finished(s, n)
      ensures Pivot(A, R, n, j) > 0.0
    {
      assert ColumnDone(A, R, n, j, sqrt);
    }
  }

  /**
   * Every finished column (all of them on success, those before the failing
   * row otherwise) has as diagonal cell the positive root of its pivot, and
   * below it the source's column formula.
   */
  lemma {:induction false} CholeskyColumns(A: Matrix, L0: Matrix, n: nat, sqrt: real -> real, s: nat, R: Matrix)
    requires IsSquare(A, n) && IsSquare(L0, n) && IsSqrt(sqrt)
    requires CholeskyRun(A, L0, n, 0, sqrt) == (s, R)
    ensures IsSquare(R, n)
    ensures forall k :: 0 <= k < Finished(s, n) ==>
      R[k][k] > 0.0 && R[k][k] * R[k][k] == A[k][k] - Dot(R, k, k, k)
    ensures forall i, k :: 0 <= k < Finished(s, n) && k < i < n ==>
      R[k][k] > 0.0 && R[i][k] == (A[i][k] - Dot(R, i, k, k)) / R[k][k]
  {
    RunDone(A, L0, n, 0, sqrt, s, R);
    DoneColumnsCells(A, R, n, Finished(s, n), sqrt);
  }

  /** The cells of done columns 0..m-1. */
  lemma {:induction false} DoneColumnsCells(A: Matrix, R: Matrix, n: nat, m: nat, sqrt: real -> real)
    requires IsSquare(A, n) && IsSquare(R, n) && m <= n && IsSqrt(sqrt)
    requires ColumnsDone(A, R, n, m, sqrt)
    ensures forall k :: 0 <= k < m ==>
      R[k][k] > 0.0 && R[k][k] * R[k][k] == A[k][k] - Dot(R, k, k, k)
    ensures forall i, k :: 0 <= k < m && k < i < n ==>
      R[k][k] > 0.0 && R[i][k] == (A[i][k] - Dot(R, i, k, k)) / R[k][k]
  {
    forall k | 0 <= k < m
      ensures R[k][k] > 0.0 && R[k][k] * R[k][k] == A[k][k] - Dot(R, k, k, k)
    {
      ColumnDoneDiagonal(A, R, n, k, sqrt);
    }
    forall i, k | 0 <= k < m && k < i < n
      ensures R[k][k] > 0.0 && R[i][k] == (A[i][k] - Dot(R, i, k, k)) / R[k][k]
    {
      ColumnDoneBelow(A, R, n, k, i, sqrt);
    }
  }

  /**
   * On failure at row k, column k and every later column are left as they
   * were on entry. Cells above the diagonal are never written.
   */
  lemma {:induction false} CholeskyFailureLeavesColumns(A: Matrix, L0: Matrix, n: nat, sqrt: real -> real, s: nat, R: Matrix)
    requires IsSquare(A, n) && IsSquare(L0, n) && IsSqrt(sqrt)
    requires CholeskyRun(A, L0, n, 0, sqrt) == (s, R)
    ensures IsSquare(R, n)
    ensures forall r, c :: 0 <= r < c < n ==> R[r][c] == L0[r][c]
    ensures s != 0 ==> forall r, c :: 0 <= r < n && s - 1 <= c < n ==> R[r][c] == L0[r][c]
  {
    RunUnchanged(A, L0, n, 0, sqrt, s, R);
  }

  /** The first pivot is A(0,0): a positive A(0,0) lets the factorisation past row 0. */
  lemma {:induction false} CholeskyPassesFirstRow(A: Matrix, L0: Matrix, n: nat, sqrt: real -> real, s: nat, R: Matrix)
    requires IsSquare(A, n) && IsSquare(L0, n) && IsSqrt(sqrt) && n > 0
    requires CholeskyRun(A, L0, n, 0, sqrt) == (s, R)
    ensures s == 1 <==> A[0][0] <= 0.0
  {
    assert Pivot(A, L0, n, 0) == A[0][0];
  }

  /** x = b / r with r^2 = a gives x^2 a = b^2. */
  lemma {:induction false} QuotientSquare(b: real, r: real, a: real)
    requires r != 0.0 && r * r == a
    ensures (b / r) * (b / r) * a == b * b
  {
    var x := b / r;
    assert x * r == b;
    calc {
      x * x * a;
      x * x * (r * r);
      (x * r) * (x * r);
    }
  }

  /** The Schur complement d - x^2 is positive when a > 0, x^2 a = b^2 and a d - b^2 > 0. */
  lemma {:induction false} SchurPositive(a: real, b: real, d: real, x: real)
    requires a > 0.0 && a * d - b * b > 0.0 && x * x * a == b * b
    ensures d - x * x > 0.0
  {
    assert a * (d - x * x) == a * d - b * b;
  }

  /**
   * A 2 x 2 matrix with a positive leading cell and a positive determinant
   * (a positive definite one) is factorised without failure.
   */
  lemma {:induction false} CholeskyTwoByTwo(A: Matrix, L0: Matrix, sqrt: real -> real, s: nat, R: Matrix)
    requires IsSquare(A, 2) && IsSquare(L0, 2) && IsSqrt(sqrt)
    requires A[0][0] > 0.0 && A[0][0] * A[1][1] - A[1][0] * A[1][0] > 0.0
    requires CholeskyRun(A, L0, 2, 0, sqrt) == (s, R)
    ensures s == 0
  {
    var r := sqrt(A[0][0]);
    assert Pivot(A, L0, 2, 0) == A[0][0];
    var L1 := WriteColumn(A, L0, 2, 0, r);
    assert CholeskyRun(A, L0, 2, 0, sqrt) == CholeskyRun(A, L1, 2, 1, sqrt);
    assert L1[1][0] == A[1][0] / r;
    QuotientSquare(A[1][0], r, A[0][0]);
    assert Dot(L1, 1, 1, 1) == L1[1][0] * L1[1][0];
    SchurPositive(A[0][0], A[1][0], A[1][1], L1[1][0]);
    assert Pivot(A, L1, 2, 1) > 0.0;
  }

  /** The cells of the factor of such a 2 x 2 matrix. */
  lemma {:induction false} CholeskyTwoByTwoCells(A: Matrix, L0: Matrix, sqrt: real -> real, s: nat, R: Matrix)
    requires IsSquare(A, 2) && IsSquare(L0, 2) && IsSqrt(sqrt)
    requires A[0][0] > 0.0 && A[0][0] * A[1][1] - A[1][0] * A[1][0] > 0.0
    requires CholeskyRun(A, L0, 2, 0, sqrt) == (s, R)
    ensures s == 0 && IsSquare(R, 2)
    ensures R[0][0] > 0.0 && R[0][0] * R[0][0] == A[0][0]
    ensures R[1][0] * R[0][0] == A[1][0]
    ensures R[1][1] > 0.0 && R[1][1] * R[1][1] == A[1][1] - R[1][0] * R[1][0]
  {
    CholeskyTwoByTwo(A, L0, sqrt, s, R);
    CholeskyColumns(A, L0, 2, sqrt, s, R);
    DivMul(A[1][0], R[0][0]);
    assert Dot(R, 0, 0, 0) == 0.0 && Dot(R, 1, 0, 0) == 0.0;
    assert Dot(R, 1, 1, 1) == R[1][0] * R[1][0];
  }

  /** Cell (i, m) of L read as a lower-triangular matrix. */
  ghost function LowerAt(L: Matrix, n: nat, i: nat, m: nat): (c: real)
    requires IsSquare(L, n) && i < n && m < n
  {
    if m <= i then L[i][m] else 0.0
  }

  /** The first `len` terms of entry (i, j) of L·Lᵀ, L lower-triangular. */
  ghost function ProductEntry(L: Matrix, n: nat, i: nat, j: nat, len: nat): (e: real)
    requires IsSquare(L, n) && i < n && j < n && len <= n
  {
    if len == 0 then 0.0
    else ProductEntry(L, n, i, j, len - 1) + LowerAt(L, n, i, len - 1) * LowerAt(L, n, j, len - 1)
  }

  lemma {:induction false} ProductPrefix(L: Matrix, n: nat, i: nat, j: nat, len: nat)
    requires IsSquare(L, n) && j <= i < n && len <= j + 1
    ensures ProductEntry(L, n, i, j, len) == Dot(L, i, j, len)
  {
    if len > 0 {
      ProductPrefix(L, n, i, j, len - 1);
    }
  }

  lemma {:induction false} ProductTail(L: Matrix, n: nat, i: nat, j: nat, len: nat)
    requires IsSquare(L, n) && j <= i < n && j + 1 <= len <= n
    ensures ProductEntry(L, n, i, j, len) == Dot(L, i, j, j + 1)
  {
    if len == j + 1 {
      ProductPrefix(L, n, i, j, len);
    } else {
      ProductTail(L, n, i, j, len - 1);
    }
  }

  /** On success L·Lᵀ equals A on the lower triangle (exact real arithmetic). */
  lemma {:induction false} CholeskyReconstructs(A: Matrix, L0: Matrix, n: nat, sqrt: real -> real, R: Matrix)
    requires IsSquare(A, n) && IsSquare(L0, n) && IsSqrt(sqrt)
    requires CholeskyRun(A, L0, n, 0, sqrt) == (0, R)
    ensures IsSquare(R, n)
    ensures forall i, j :: 0 <= j <= i < n ==> ProductEntry(R, n, i, j, n) == A[i][j]
  {
    RunDone(A, L0, n, 0, sqrt, 0, R);
    forall i, j | 0 <= j <= i < n
      ensures ProductEntry(R, n, i, j, n) == A[i][j]
    {
      ReconstructsEntry(A, R, n, sqrt, i, j);
    }
  }

  /** Entry (i, j), j <= i, of L·Lᵀ equals A(i, j) once column j of L is done. */
  lemma {:induction false} ReconstructsEntry(A: Matrix, R: Matrix, n: nat, sqrt: real -> real, i: nat, j: nat)
    requires IsSquare(A, n) && IsSquare(R, n) && IsSqrt(sqrt) && j <= i < n
    requires ColumnDone(A, R, n, j, sqrt)
    ensures ProductEntry(R, n, i, j, n) == A[i][j]
  {
    ProductTail(R, n, i, j, n);
    ColumnDoneDiagonal(A, R, n, j, sqrt);
    if i > j {
      ColumnDoneBelow(A, R, n, j, i, sqrt);
      DivMul(A[i][j] - Dot(R, i, j, j), R[j][j]);
    }
  }

  lemma {:induction false} DivMul(x: real, y: real)
    requires y != 0.0
    ensures x / y * y == x
  {
  }

  /** A and B agree on the lower triangle. */
  ghost predicate SameLower(A: Matrix, B: Matrix, n: nat)
    requires IsSquare(A, n) && IsSquare(B, n)
  {
    forall i, j :: 0 <= j <= i < n ==> A[i][j] == B[i][j]
  }

  /** Only the lower triangle of A is read: inputs equal on it give the same status and factor. */
  lemma {:induction false} CholeskyReadsLowerTriangle(A: Matrix, B: Matrix, L: Matrix, n: nat, k: nat, sqrt: real -> real)
    requires IsSquare(A, n) && IsSquare(B, n) && IsSquare(L, n) && k <= n && IsSqrt(sqrt)
    requires SameLower(A, B, n)
    ensures CholeskyRun(A, L, n, k, sqrt) == CholeskyRun(B, L, n, k, sqrt)
    decreases n - k
  {
    if k < n && Pivot(A, L, n, k) > 0.0 {
      var lkk := sqrt(Pivot(A, L, n, k));
      MatrixExt(WriteColumn(A, L, n, k, lkk), WriteColumn(B, L, n, k, lkk), n);
      CholeskyReadsLowerTriangle(A, B, WriteColumn(A, L, n, k, lkk), n, k + 1, sqrt);
    }
  }

  /** inner_prod of the first `len` cells of rows i and j of L. */
  method InnerProd(L: array2<real>, i: nat, j: nat, len: nat) returns (s: real)
    requires i < L.Length0 && j < L.Length0 && len <= L.Length1
    ensures s == Dot(Cells(L), i, j, len)
  {
    s := 0.0;
    var m := 0;
    while m < len
      invariant 0 <= m <= len
      invariant s == Dot(Cells(L), i, j, m)
    {
      s := s + L[i, m] * L[j, m];
      m := m + 1;
    }
  }

  /**
   * Step k of choleskyDecompose once its pivot is positive: L(k,k) := lkk,
   * then rows k+1..n-1 of column k from A, the earlier columns of L and lkk.
   */
  method StoreColumn(A: array2<real>, L: array2<real>, k: nat, lkk: real)
    requires A.Length0 == A.Length1 && L.Length0 == L.Length1 && A.Length0 == L.Length0
    requires A != L && k < A.Length0 && lkk != 0.0
    modifies L
    ensures Cells(L) == WriteColumn(Cells(A), old(Cells(L)), A.Length0, k, lkk)
  {
    var n := A.Length0;
    ghost var a := Cells(A);
    ghost var before := Cells(L);
    L[k, k] := lkk;
    var i := k + 1;
    while i < n
      invariant k + 1 <= i <= n
      invariant Cells(A) == a
      invariant forall r, c :: 0 <= r < n && 0 <= c < n ==>
        L[r, c] == if c == k && k <= r < i then ColumnCell(a, before, n, k, r, lkk) else before[r][c]
    {
      var s := InnerProd(L, i, k, k);
      DotFrame(Cells(L), before, i, k, k);
      L[i, k] := (A[i, k] - s) / lkk;
      i := i + 1;
    }
    MatrixExt(Cells(L), WriteColumn(a, before, n, k, lkk), n);
  }

  /**
   * choleskyDecompose(A, L): factorises A column by column into L, in place;
   * returns 0 on success or 1 + k when the pivot of row k is not positive.
   */
  method CholeskyDecompose(A: array2<real>, L: array2<real>, sqrt: real -> real) returns (status: nat)
    requires A.Length0 == A.Length1 && L.Length0 == L.Length1 && A.Length0 == L.Length0
    requires A != L
    requires IsSqrt(sqrt)
    modifies L
    ensures (status, Cells(L)) == CholeskyRun(Cells(A), old(Cells(L)), A.Length0, 0, sqrt)
  {
    var n := A.Length0;
    ghost var a := Cells(A);
    ghost var l0 := Cells(L);
    var k := 0;
    while k < n
      invariant 0 <= k <= n
      invariant Cells(A) == a
      invariant CholeskyRun(a, Cells(L), n, k, sqrt) == CholeskyRun(a, l0, n, 0, sqrt)
    {
      ghost var cur := Cells(L);
      var sq := InnerProd(L, k, k, k);
      var qLkk := A[k, k] - sq;
      assert qLkk == Pivot(a, cur, n, k);
      if qLkk <= 0.0 {
        assert CholeskyRun(a, cur, n, k, sqrt) == (1 + k, cur);
        return 1 + k;
      }
      var lkk := sqrt(qLkk);
      SqrtPositive(sqrt, qLkk);
      StoreColumn(A, L, k, lkk);
      assert CholeskyRun(a, cur, n, k, sqrt) == CholeskyRun(a, Cells(L), n, k + 1, sqrt);
      k := k + 1;
    }
    return 0;
  }
}
