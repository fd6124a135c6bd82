/** Interpolated point quantities shared by the volume and face kernels. */
module Kinematics {
  import opened Numerics

  /** Element nodal array with `rows` rows, each holding one value per node. */
  ghost predicate IsNodal(m: Mat, rows: nat, eNoN: nat)
  {
    |m| >= rows && forall i :: 0 <= i < |m| ==> |m[i]| == eNoN
  }

  /** One node's contribution to a nodal gradient: G + v(s + r, a) Nx(q, a). */
  function GradStep(nd: nat, eNoN: nat, Nx: Mat, v: Mat, s: nat, a: nat, G: Mat): (G': Mat)
    requires IsMat(Nx, nd, eNoN) && IsNodal(v, s + nd, eNoN) && a < eNoN && IsMat(G, nd, nd)
    ensures IsMat(G', nd, nd)
  {
    seq(nd, r requires 0 <= r < nd => seq(nd, q requires 0 <= q < nd => G[r][q] + Nx[q][a] * v[s + r][a]))
  }

  /** A nodal gradient accumulated over the first n element nodes onto
      G0: G0 + sum_a v(s + r, a) Nx(q, a), in dimension nd. */
  function NodalGrad(nd: nat, eNoN: nat, Nx: Mat, v: Mat, s: nat, n: nat, G0: Mat): (G: Mat)
    requires IsMat(Nx, nd, eNoN) && IsNodal(v, s + nd, eNoN) && n <= eNoN && IsMat(G0, nd, nd)
    ensures IsMat(G, nd, nd)
    decreases n
  {
    if n == 0 then G0
    else GradStep(nd, eNoN, Nx, v, s, n - 1, NodalGrad(nd, eNoN, Nx, v, s, n - 1, G0))
  }

  /** Deformation gradient F = I + sum_a dl(s + r, a) Nx(q, a). */
  function DefGrad(nd: nat, eNoN: nat, Nx: Mat, dl: Mat, s: nat, n: nat): (F: Mat)
    requires IsMat(Nx, nd, eNoN) && IsNodal(dl, s + nd, eNoN) && n <= eNoN
    ensures IsMat(F, nd, nd)
  {
    NodalGrad(nd, eNoN, Nx, dl, s, n, Identity(nd))
  }

  /** Velocity gradient vx = sum_a yl(s + r, a) Nx(q, a). */
  function VelGrad(nd: nat, eNoN: nat, Nx: Mat, yl: Mat, s: nat, n: nat): (vx: Mat)
    requires IsMat(Nx, nd, eNoN) && IsNodal(yl, s + nd, eNoN) && n <= eNoN
    ensures IsMat(vx, nd, nd)
  {
    NodalGrad(nd, eNoN, Nx, yl, s, n, Zeros(nd, nd))
  }

  /** Interpolated scalar sum_{a < n} N(a) v(a). */
  function Interp(N: seq<real>, v: seq<real>, n: nat): real
    requires n <= |N| && n <= |v|
  {
    if n == 0 then 0.0 else Interp(N, v, n - 1) + N[n - 1] * v[n - 1]
  }

  /** A vanishing nodal field adds nothing to the starting matrix. */
  lemma {:induction false} NodalGradOfZero(nd: nat, eNoN: nat, Nx: Mat, v: Mat, s: nat, n: nat, G0: Mat)
    requires IsMat(Nx, nd, eNoN) && IsNodal(v, s + nd, eNoN) && n <= eNoN && IsMat(G0, nd, nd)
    requires forall i, a :: s <= i < s + nd && 0 <= a < n ==> v[i][a] == 0.0
    ensures NodalGrad(nd, eNoN, Nx, v, s, n, G0) == G0
  {
    if n > 0 {
      NodalGradOfZero(nd, eNoN, Nx, v, s, n - 1, G0);
      var G := NodalGrad(nd, eNoN, Nx, v, s, n, G0);
      assert G == GradStep(nd, eNoN, Nx, v, s, n - 1, G0);
      forall r | 0 <= r < nd
        ensures G[r] == G0[r]
      {
        assert v[s + r][n - 1] == 0.0;
      }
    }
  }

  /** With zero nodal displacements the deformation gradient is the identity. */
  lemma DefGradUndeformed(nd: nat, eNoN: nat, Nx: Mat, dl: Mat, s: nat)
    requires IsMat(Nx, nd, eNoN) && IsNodal(dl, s + nd, eNoN)
    requires forall i, a :: s <= i < s + nd && 0 <= a < eNoN ==> dl[i][a] == 0.0
    ensures DefGrad(nd, eNoN, Nx, dl, s, eNoN) == Identity(nd)
  {
    NodalGradOfZero(nd, eNoN, Nx, dl, s, eNoN, Identity(nd));
  }

  /** With zero nodal velocities the velocity gradient vanishes. */
  lemma VelGradAtRest(nd: nat, eNoN: nat, Nx: Mat, yl: Mat, s: nat)
    requires IsMat(Nx, nd, eNoN) && IsNodal(yl, s + nd, eNoN)
    requires forall i, a :: s <= i < s + nd && 0 <= a < eNoN ==> yl[i][a] == 0.0
    ensures VelGrad(nd, eNoN, Nx, yl, s, eNoN) == Zeros(nd, nd)
  {
    NodalGradOfZero(nd, eNoN, Nx, yl, s, eNoN, Zeros(nd, nd));
  }

  /** A vanishing nodal field interpolates to zero. */
  lemma {:induction false} InterpZero(N: seq<real>, v: seq<real>, n: nat)
    requires n <= |N| && n <= |v|
    requires forall a :: 0 <= a < n ==> v[a] == 0.0
    ensures Interp(N, v, n) == 0.0
  {
    if n > 0 {
      InterpZero(N, v, n - 1);
    }
  }

  /** The first `rows` rows of a nodal array, each interpolated over the
      first n nodes. */
  function InterpRows(N: seq<real>, M: Mat, rows: nat, n: nat): (v: seq<real>)
    requires IsNodal(M, rows, |N|) && n <= |N|
    ensures |v| == rows
  {
    seq(rows, i requires 0 <= i < rows => Interp(N, M[i], n))
  }

  /** One node's contribution to every interpolated row: v(i) + N(a) M(i, a). */
  function InterpRowsStep(N: seq<real>, M: Mat, rows: nat, a: nat, v: seq<real>): (v': seq<real>)
    requires IsNodal(M, rows, |N|) && a < |N| && |v| == rows
    ensures |v'| == rows
  {
    seq(rows, i requires 0 <= i < rows => v[i] + N[a] * M[i][a])
  }

  lemma InterpRowsNext(N: seq<real>, M: Mat, rows: nat, a: nat)
    requires IsNodal(M, rows, |N|) && a < |N|
    ensures InterpRows(N, M, rows, a + 1) == InterpRowsStep(N, M, rows, a, InterpRows(N, M, rows, a))
  {
  }
}
