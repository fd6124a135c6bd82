/** Small dense tensors over exact reals: the shapes and closed-form helpers
    (determinant, inverse, symmetric and deviatoric parts) that the element
    and face kernels use. */
module Numerics {

  /** A dense matrix stored by rows: m[i][j] is row i, column j. */
  type Mat = seq<seq<real>>

  ghost predicate IsMat(m: Mat, rows: nat, cols: nat)
  {
    |m| == rows && forall i :: 0 <= i < rows ==> |m[i]| == cols
  }

  function Delta(i: nat, j: nat): real
  {
    if i == j then 1.0 else 0.0
  }

  function Zeros(rows: nat, cols: nat): (m: Mat)
    ensures IsMat(m, rows, cols)
    ensures forall i, j :: 0 <= i < rows && 0 <= j < cols ==> m[i][j] == 0.0
  {
    seq(rows, i => seq(cols, j => 0.0))
  }

  function Identity(n: nat): (m: Mat)
    ensures IsMat(m, n, n)
    ensures forall i, j :: 0 <= i < n && 0 <= j < n ==> m[i][j] == Delta(i, j)
  {
    seq(n, i requires 0 <= i < n => seq(n, j requires 0 <= j < n => Delta(i, j)))
  }

  ghost predicate IsSymmetric(m: Mat, n: nat)
    requires IsMat(m, n, n)
  {
    forall i, j :: 0 <= i < n && 0 <= j < n ==> m[i][j] == m[j][i]
  }

  function Transpose3(m: Mat): (t: Mat)
    requires IsMat(m, 3, 3)
    ensures IsMat(t, 3, 3)
    ensures forall i, j :: 0 <= i < 3 && 0 <= j < 3 ==> t[i][j] == m[j][i]
  {
    seq(3, i requires 0 <= i < 3 => seq(3, j requires 0 <= j < 3 => m[j][i]))
  }

  function Add3(a: Mat, b: Mat): (m: Mat)
    requires IsMat(a, 3, 3) && IsMat(b, 3, 3)
    ensures IsMat(m, 3, 3)
    ensures forall i, j :: 0 <= i < 3 && 0 <= j < 3 ==> m[i][j] == a[i][j] + b[i][j]
  {
    seq(3, i requires 0 <= i < 3 => seq(3, j requires 0 <= j < 3 => a[i][j] + b[i][j]))
  }

  function Scale3(c: real, a: Mat): (m: Mat)
    requires IsMat(a, 3, 3)
    ensures IsMat(m, 3, 3)
    ensures forall i, j :: 0 <= i < 3 && 0 <= j < 3 ==> m[i][j] == c * a[i][j]
  {
    seq(3, i requires 0 <= i < 3 => seq(3, j requires 0 <= j < 3 => c * a[i][j]))
  }

  /** Row i of a times column j of b, for 3 x 3 matrices. */
  function Dot3(a: Mat, b: Mat, i: nat, j: nat): real
    requires IsMat(a, 3, 3) && IsMat(b, 3, 3) && i < 3 && j < 3
  {
    a[i][0] * b[0][j] + a[i][1] * b[1][j] + a[i][2] * b[2][j]
  }

  function Mul3(a: Mat, b: Mat): (m: Mat)
    requires IsMat(a, 3, 3) && IsMat(b, 3, 3)
    ensures IsMat(m, 3, 3)
    ensures forall i, j :: 0 <= i < 3 && 0 <= j < 3 ==> m[i][j] == Dot3(a, b, i, j)
  {
    seq(3, i requires 0 <= i < 3 => seq(3, j requires 0 <= j < 3 => Dot3(a, b, i, j)))
  }

  function Trace3(a: Mat): real
    requires IsMat(a, 3, 3)
  {
    a[0][0] + a[1][1] + a[2][2]
  }

  /** mat_det for a 2 x 2 matrix. */
  function Det2(m: Mat): real
    requires IsMat(m, 2, 2)
  {
    m[0][0] * m[1][1] - m[0][1] * m[1][0]
  }

  /** mat_det for a 3 x 3 matrix, by cofactor expansion along the first row. */
  function Det3(m: Mat): real
    requires IsMat(m, 3, 3)
  {
    m[0][0] * (m[1][1] * m[2][2] - m[1][2] * m[2][1])
    - m[0][1] * (m[1][0] * m[2][2] - m[1][2] * m[2][0])
    + m[0][2] * (m[1][0] * m[2][1] - m[1][1] * m[2][0])
  }

  /** mat_inv for a 2 x 2 matrix: the adjugate divided by the determinant. */
  function Inv2(m: Mat): (r: Mat)
    requires IsMat(m, 2, 2) && Det2(m) != 0.0
    ensures IsMat(r, 2, 2)
    ensures forall i, j :: 0 <= i < 2 && 0 <= j < 2 ==>
      m[i][0] * r[0][j] + m[i][1] * r[1][j] == Delta(i, j)
  {
    var d := Det2(m);
    [[m[1][1] / d, -m[0][1] / d], [-m[1][0] / d, m[0][0] / d]]
  }

  /** The cyclic successor of an index in 0..2. */
  function Next3(i: nat): (k: nat)
    requires i < 3
    ensures k < 3
  {
    if i == 2 then 0 else i + 1
  }

  /** Cofactor (i, j) of a 3 x 3 matrix. */
  function Cof3(m: Mat, i: nat, j: nat): real
    requires IsMat(m, 3, 3) && i < 3 && j < 3
  {
    var i1, i2 := Next3(i), Next3(Next3(i));
    var j1, j2 := Next3(j), Next3(Next3(j));
    m[i1][j1] * m[i2][j2] - m[i1][j2] * m[i2][j1]
  }

  /** mat_inv for a 3 x 3 matrix: the transposed cofactor matrix divided by
      the determinant. */
  function Inv3(m: Mat): (r: Mat)
    requires IsMat(m, 3, 3) && Det3(m) != 0.0
    ensures IsMat(r, 3, 3)
  {
    seq(3, i requires 0 <= i < 3 => seq(3, j requires 0 <= j < 3 => Cof3(m, j, i) / Det3(m)))
  }

  /** Row i of m against the cofactors of row j: the determinant when
      i = j (cofactor expansion), zero otherwise (the expansion of a matrix
      with two equal rows). */
  lemma CofactorRow(m: Mat, i: nat, j: nat)
    requires IsMat(m, 3, 3) && i < 3 && j < 3
    ensures m[i][0] * Cof3(m, j, 0) + m[i][1] * Cof3(m, j, 1) + m[i][2] * Cof3(m, j, 2)
            == Delta(i, j) * Det3(m)
  {
  }

  /** Inv3 inverts: m times Inv3(m) is the identity. */
  lemma Inv3Inverse(m: Mat)
    requires IsMat(m, 3, 3) && Det3(m) != 0.0
    ensures Mul3(m, Inv3(m)) == Identity(3)
  {
    var r := Inv3(m);
    forall i, j | 0 <= i < 3 && 0 <= j < 3
      ensures Mul3(m, r)[i][j] == Identity(3)[i][j]
    {
      Inv3Entry(m, i, j);
    }
    forall i | 0 <= i < 3
      ensures Mul3(m, r)[i] == Identity(3)[i]
    {
    }
  }

  /** Entry (i, j) of m times Inv3(m). */
  lemma Inv3Entry(m: Mat, i: nat, j: nat)
    requires IsMat(m, 3, 3) && Det3(m) != 0.0 && i < 3 && j < 3
    ensures Dot3(m, Inv3(m), i, j) == Delta(i, j)
  {
    var d, r := Det3(m), Inv3(m);
    var c0, c1, c2 := Cof3(m, j, 0), Cof3(m, j, 1), Cof3(m, j, 2);
    assert r[0][j] == c0 / d && r[1][j] == c1 / d && r[2][j] == c2 / d;
    CofactorRow(m, i, j);
    QuotientSum(m[i][0], m[i][1], m[i][2], c0, c1, c2, d, Delta(i, j));
  }

  /** Terms whose numerators sum to t d sum to t once divided by d. */
  lemma QuotientSum(a0: real, a1: real, a2: real, x0: real, x1: real, x2: real, d: real, t: real)
    requires d != 0.0 && a0 * x0 + a1 * x1 + a2 * x2 == t * d
    ensures a0 * (x0 / d) + a1 * (x1 / d) + a2 * (x2 / d) == t
  {
    var q0, q1, q2 := x0 / d, x1 / d, x2 / d;
    assert x0 == q0 * d && x1 == q1 * d && x2 == q2 * d;
    assert (a0 * q0 + a1 * q1 + a2 * q2) * d == t * d;
  }

  /** mat_symm: the symmetric part (A + A^T) / 2. */
  function Symm3(a: Mat): (m: Mat)
    requires IsMat(a, 3, 3)
    ensures IsMat(m, 3, 3) && IsSymmetric(m, 3)
  {
    seq(3, i requires 0 <= i < 3 => seq(3, j requires 0 <= j < 3 => 0.5 * (a[i][j] + a[j][i])))
  }

  /** mat_dev: the deviatoric part A - (tr A / 3) I. */
  function Dev3(a: Mat): (m: Mat)
    requires IsMat(a, 3, 3)
    ensures IsMat(m, 3, 3)
    ensures Trace3(m) == 0.0
  {
    seq(3, i requires 0 <= i < 3 => seq(3, j requires 0 <= j < 3 => a[i][j] - Delta(i, j) * Trace3(a) / 3.0))
  }

  /** Sum of a finite sequence of reals, accumulated front to back. */
  function SeqSum(s: seq<real>): real
  {
    if |s| == 0 then 0.0 else SeqSum(s[..|s| - 1]) + s[|s| - 1]
  }

  lemma Det3Identity()
    ensures Det3(Identity(3)) == 1.0
  {
  }

  /** Row k of a 6 x 6 matrix against a 6-vector. */
  function Row6(D: Mat, k: nat, y: seq<real>): real
    requires IsMat(D, 6, 6) && k < 6 && |y| == 6
  {
    D[k][0] * y[0] + D[k][1] * y[1] + D[k][2] * y[2] + D[k][3] * y[3] + D[k][4] * y[4] + D[k][5] * y[5]
  }

  /** The bilinear form x^T D y of a 6 x 6 matrix. */
  function Bilinear6(x: seq<real>, D: Mat, y: seq<real>): real
    requires IsMat(D, 6, 6) && |x| == 6 && |y| == 6
  {
    x[0] * Row6(D, 0, y) + x[1] * Row6(D, 1, y) + x[2] * Row6(D, 2, y)
    + x[3] * Row6(D, 3, y) + x[4] * Row6(D, 4, y) + x[5] * Row6(D, 5, y)
  }

  /** The bilinear form as the plain sum of its 36 terms x(k) D(k, l) y(l). */
  lemma BilinearExpanded(x: seq<real>, D: Mat, y: seq<real>)
    requires IsMat(D, 6, 6) && |x| == 6 && |y| == 6
    ensures Bilinear6(x, D, y)
            == x[0] * D[0][0] * y[0] + x[0] * D[0][1] * y[1] + x[0] * D[0][2] * y[2] + x[0] * D[0][3] * y[3] + x[0] * D[0][4] * y[4] + x[0] * D[0][5] * y[5]
            + x[1] * D[1][0] * y[0] + x[1] * D[1][1] * y[1] + x[1] * D[1][2] * y[2] + x[1] * D[1][3] * y[3] + x[1] * D[1][4] * y[4] + x[1] * D[1][5] * y[5]
            + x[2] * D[2][0] * y[0] + x[2] * D[2][1] * y[1] + x[2] * D[2][2] * y[2] + x[2] * D[2][3] * y[3] + x[2] * D[2][4] * y[4] + x[2] * D[2][5] * y[5]
            + x[3] * D[3][0] * y[0] + x[3] * D[3][1] * y[1] + x[3] * D[3][2] * y[2] + x[3] * D[3][3] * y[3] + x[3] * D[3][4] * y[4] + x[3] * D[3][5] * y[5]
            + x[4] * D[4][0] * y[0] + x[4] * D[4][1] * y[1] + x[4] * D[4][2] * y[2] + x[4] * D[4][3] * y[3] + x[4] * D[4][4] * y[4] + x[4] * D[4][5] * y[5]
            + x[5] * D[5][0] * y[0] + x[5] * D[5][1] * y[1] + x[5] * D[5][2] * y[2] + x[5] * D[5][3] * y[3] + x[5] * D[5][4] * y[4] + x[5] * D[5][5] * y[5]
  {
  }

  /** x^T D y == y^T D x for a symmetric D. */
  lemma BilinearSymmetric(x: seq<real>, D: Mat, y: seq<real>)
    requires IsMat(D, 6, 6) && |x| == 6 && |y| == 6 && IsSymmetric(D, 6)
    ensures Bilinear6(x, D, y) == Bilinear6(y, D, x)
  {
    BilinearExpanded(x, D, y);
    BilinearExpanded(y, D, x);
    assert D[1][0] == D[0][1] && D[2][0] == D[0][2] && D[3][0] == D[0][3] && D[4][0] == D[0][4] && D[5][0] == D[0][5];
    assert D[2][1] == D[1][2] && D[3][1] == D[1][3] && D[4][1] == D[1][4] && D[5][1] == D[1][5];
    assert D[3][2] == D[2][3] && D[4][2] == D[2][4] && D[5][2] == D[2][5];
    assert D[4][3] == D[3][4] && D[5][3] == D[3][5] && D[5][4] == D[4][5];
  }

  /** The deviatoric part of a symmetric tensor is symmetric. */
  lemma DevOfSymmetric(a: Mat)
    requires IsMat(a, 3, 3) && IsSymmetric(a, 3)
    ensures IsSymmetric(Dev3(a), 3)
  {
  }

  /** Entry (i, j) of A D A^T written out: the sum over a, b of
      A[i][a] D[a][b] A[j][b]. */
  function CongruenceSum(A: Mat, D: Mat, i: nat, j: nat): real
    requires IsMat(A, 3, 3) && IsMat(D, 3, 3) && i < 3 && j < 3
  {
    A[i][0] * (D[0][0] * A[j][0] + D[0][1] * A[j][1] + D[0][2] * A[j][2])
    + A[i][1] * (D[1][0] * A[j][0] + D[1][1] * A[j][1] + D[1][2] * A[j][2])
    + A[i][2] * (D[2][0] * A[j][0] + D[2][1] * A[j][1] + D[2][2] * A[j][2])
  }

  lemma CongruenceEntry(A: Mat, D: Mat, i: nat, j: nat)
    requires IsMat(A, 3, 3) && IsMat(D, 3, 3) && i < 3 && j < 3
    ensures Congruence(A, D)[i][j] == CongruenceSum(A, D, i, j)
  {
    var T := Transpose3(A);
    var M := Mul3(D, T);
    assert M[0][j] == D[0][0] * A[j][0] + D[0][1] * A[j][1] + D[0][2] * A[j][2];
    assert M[1][j] == D[1][0] * A[j][0] + D[1][1] * A[j][1] + D[1][2] * A[j][2];
    assert M[2][j] == D[2][0] * A[j][0] + D[2][1] * A[j][1] + D[2][2] * A[j][2];
  }

  /** Swapping i and j in the written-out entry gives the same sum when D is
      symmetric. */
  lemma CongruenceSumSwap(A: Mat, D: Mat, i: nat, j: nat)
    requires IsMat(A, 3, 3) && IsMat(D, 3, 3) && i < 3 && j < 3 && IsSymmetric(D, 3)
    ensures CongruenceSum(A, D, i, j) == CongruenceSum(A, D, j, i)
  {
    assert D[1][0] == D[0][1] && D[2][0] == D[0][2] && D[2][1] == D[1][2];
  }

  /** A D A^T is symmetric when D is. */
  lemma CongruenceSymmetric(A: Mat, D: Mat)
    requires IsMat(A, 3, 3) && IsMat(D, 3, 3) && IsSymmetric(D, 3)
    ensures IsSymmetric(Congruence(A, D), 3)
  {
    var C := Congruence(A, D);
    forall i, j | 0 <= i < 3 && 0 <= j < 3
      ensures C[i][j] == C[j][i]
    {
      CongruenceEntry(A, D, i, j);
      CongruenceEntry(A, D, j, i);
      CongruenceSumSwap(A, D, i, j);
    }
  }

  /** A D A^T, the push-forward the viscous stress uses. */
  function Congruence(A: Mat, D: Mat): (m: Mat)
    requires IsMat(A, 3, 3) && IsMat(D, 3, 3)
    ensures IsMat(m, 3, 3)
  {
    Mul3(A, Mul3(D, Transpose3(A)))
  }

  lemma AddSymmetric(a: Mat, b: Mat)
    requires IsMat(a, 3, 3) && IsMat(b, 3, 3) && IsSymmetric(a, 3) && IsSymmetric(b, 3)
    ensures IsSymmetric(Add3(a, b), 3)
  {
  }

  lemma ScaleSymmetric(c: real, a: Mat)
    requires IsMat(a, 3, 3) && IsSymmetric(a, 3)
    ensures IsSymmetric(Scale3(c, a), 3)
  {
  }

  lemma MulZeroLeft(a: Mat)
    requires IsMat(a, 3, 3)
    ensures Mul3(Zeros(3, 3), a) == Zeros(3, 3)
  {
    var m := Mul3(Zeros(3, 3), a);
    assert m[0] == Zeros(3, 3)[0] && m[1] == Zeros(3, 3)[1] && m[2] == Zeros(3, 3)[2];
  }

  lemma MulZeroRight(a: Mat)
    requires IsMat(a, 3, 3)
    ensures Mul3(a, Zeros(3, 3)) == Zeros(3, 3)
  {
    var m := Mul3(a, Zeros(3, 3));
    assert m[0] == Zeros(3, 3)[0] && m[1] == Zeros(3, 3)[1] && m[2] == Zeros(3, 3)[2];
  }

  lemma ScaleZero(c: real)
    ensures Scale3(c, Zeros(3, 3)) == Zeros(3, 3)
  {
    var m := Scale3(c, Zeros(3, 3));
    assert m[0] == Zeros(3, 3)[0] && m[1] == Zeros(3, 3)[1] && m[2] == Zeros(3, 3)[2];
  }

  lemma SymmZero()
    ensures Symm3(Zeros(3, 3)) == Zeros(3, 3)
  {
    var m := Symm3(Zeros(3, 3));
    assert m[0] == Zeros(3, 3)[0] && m[1] == Zeros(3, 3)[1] && m[2] == Zeros(3, 3)[2];
  }

  lemma DevZero()
    ensures Dev3(Zeros(3, 3)) == Zeros(3, 3)
  {
    var m := Dev3(Zeros(3, 3));
    assert m[0] == Zeros(3, 3)[0] && m[1] == Zeros(3, 3)[1] && m[2] == Zeros(3, 3)[2];
  }

  lemma CongruenceZero(a: Mat)
    requires IsMat(a, 3, 3)
    ensures Congruence(a, Zeros(3, 3)) == Zeros(3, 3)
  {
    MulZeroLeft(Transpose3(a));
    MulZeroRight(a);
  }

  /** Taking none or all of a sequence. */
  lemma TakeEnds<T>(s: seq<T>)
    ensures s[..0] == [] && s[..|s|] == s
  {
  }

  /** Taking one more element of a sequence appends it. */
  lemma TakeOneMore<T>(s: seq<T>, k: nat)
    requires k < |s|
    ensures s[..k + 1] == s[..k] + [s[k]]
  {
  }

  /** A sequence is its front and its last element. */
  lemma SplitLast<T>(s: seq<T>)
    requires |s| > 0
    ensures s == s[..|s| - 1] + [s[|s| - 1]]
  {
  }

  /** The two parts of a concatenation. */
  lemma AppendParts<T>(a: seq<T>, b: seq<T>)
    ensures |a + b| == |a| + |b| && (a + b)[..|a|] == a
    ensures forall k :: 0 <= k < |b| ==> (a + b)[|a| + k] == b[k]
  {
  }

  /** The entries of a sequence with one element appended. */
  lemma SnocEntries<T>(s: seq<T>, x: T)
    ensures |s + [x]| == |s| + 1 && (s + [x])[|s|] == x
    ensures forall k :: 0 <= k < |s| ==> (s + [x])[k] == s[k]
  {
  }

  /** A sequence that agrees with s on its first |s| entries and ends in x
      is s with x appended. */
  lemma SnocFrom<T>(t: seq<T>, s: seq<T>, x: T)
    requires |t| == |s| + 1 && t[|s|] == x
    requires forall k :: 0 <= k < |s| ==> t[k] == s[k]
    ensures t == s + [x]
  {
  }

  /** Concatenation is associative. */
  lemma AppendAssoc<T>(a: seq<T>, b: seq<T>, c: seq<T>)
    ensures (a + b) + c == a + (b + c)
  {
  }

  /** The entries of a concatenation, position by position. */
  lemma ConcatIndex<T>(a: seq<T>, b: seq<T>)
    ensures |a + b| == |a| + |b|
    ensures forall k :: 0 <= k < |a| ==> (a + b)[k] == a[k]
    ensures forall k :: |a| <= k < |a| + |b| ==> (a + b)[k] == b[k - |a|]
  {
  }
}
