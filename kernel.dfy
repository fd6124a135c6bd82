/** The three-dimensional structural point kernel (struct_3d): gathers the
    point quantities of one Gauss point, calls the constitutive law, and
    adds the residual and tangent contributions of the point to the local
    element arrays. */
module SolidKernel {
  import opened Numerics
  import opened Params
  import opened Kinematics

  /** Material properties of the current domain: density, viscosity,
      damping and the body force per unit mass (f_x, f_y, f_z). */
  datatype Material = Material(rho: real, mu: real, dmp: real, fb: seq<real>)

  ghost predicate MaterialShaped(m: Material)
  {
    |m.fb| == 3
  }

  /** What the constitutive law (get_pk2cc) receives: F, the fiber count
      and directions, the coupling activation ya, the internal G&R
      variables (read and updated) and the interpolated G&R properties. */
  datatype LawIn = LawIn(F: Mat, nFn: nat, fN: Mat, ya: real, grInt: seq<real>, grProps: seq<real>)

  /** What it returns: the elastic 2nd Piola-Kirchhoff stress S, the
      material stiffness Dm in Voigt notation, and the updated internal
      variables. */
  datatype LawOut = LawOut(S: Mat, Dm: Mat, grInt: seq<real>)

  /** The constitutive law is foreign code; the model takes it as a
      parameter. */
  type Law = LawIn -> LawOut

  ghost predicate LawShaped(law: Law)
  {
    forall m :: IsMat(law(m).S, 3, 3) && IsMat(law(m).Dm, 6, 6) && |law(m).grInt| == |m.grInt|
  }

  /** The local element arrays one Gauss point sees: weight, shape values
      N(a), spatial shape gradients Nx(i, a), nodal accelerations,
      velocities and displacements (rows s .. s+2 are the unknowns),
      nodal body forces, fiber directions, nodal initial stresses in
      Voigt order, coupling values and G&R properties. */
  datatype PointIn = PointIn(eNoN: nat, nFn: nat, w: real, N: seq<real>, Nx: Mat,
                             al: Mat, yl: Mat, dl: Mat, bfl: Mat, fN: Mat,
                             pS0l: Mat, yaL: seq<real>, grPropsL: Mat)

  ghost predicate PointShaped(p: PointIn, s: nat)
  {
    |p.N| == p.eNoN && IsMat(p.Nx, 3, p.eNoN)
    && IsNodal(p.al, s + 3, p.eNoN) && IsNodal(p.yl, s + 3, p.eNoN) && IsNodal(p.dl, s + 3, p.eNoN)
    && IsNodal(p.bfl, 3, p.eNoN) && IsNodal(p.pS0l, 6, p.eNoN) && |p.yaL| == p.eNoN
    && IsNodal(p.grPropsL, |p.grPropsL|, p.eNoN)
  }

  // ---------------------------------------------------------------------
  // Point quantities

  function PointF(p: PointIn, s: nat): (F: Mat)
    requires PointShaped(p, s)
    ensures IsMat(F, 3, 3)
  {
    DefGrad(3, p.eNoN, p.Nx, p.dl, s, p.eNoN)
  }

  function PointVx(p: PointIn, s: nat): (vx: Mat)
    requires PointShaped(p, s)
    ensures IsMat(vx, 3, 3)
  {
    VelGrad(3, p.eNoN, p.Nx, p.yl, s, p.eNoN)
  }

  /** One node's contribution to the inertia and body-force vector:
      ud(r) + N(a) (rho (al(s+r, a) - bfl(r, a)) + dmp yl(s+r, a)). */
  function InertiaStep(p: PointIn, m: Material, s: nat, a: nat, ud: seq<real>): (ud': seq<real>)
    requires PointShaped(p, s) && a < p.eNoN && |ud| == 3
    ensures |ud'| == 3
  {
    seq(3, r requires 0 <= r < 3 => ud[r] + p.N[a] * (m.rho * (p.al[s + r][a] - p.bfl[r][a]) + m.dmp * p.yl[s + r][a]))
  }

  /** The inertia and body-force vector over the first n nodes, starting
      from -rho fb. */
  function InertiaUpTo(p: PointIn, m: Material, s: nat, n: nat): (ud: seq<real>)
    requires PointShaped(p, s) && MaterialShaped(m) && n <= p.eNoN
    ensures |ud| == 3
  {
    if n == 0 then seq(3, r requires 0 <= r < 3 => -m.rho * m.fb[r])
    else InertiaStep(p, m, s, n - 1, InertiaUpTo(p, m, s, n - 1))
  }

  function PointUd(p: PointIn, m: Material, s: nat): (ud: seq<real>)
    requires PointShaped(p, s) && MaterialShaped(m)
    ensures |ud| == 3
  {
    InertiaUpTo(p, m, s, p.eNoN)
  }

  /** The interpolated initial stress, in Voigt order (00, 11, 22, 01, 12, 20). */
  function PointS0Voigt(p: PointIn): (v: seq<real>)
    requires |p.N| == p.eNoN && IsNodal(p.pS0l, 6, p.eNoN)
    ensures |v| == 6
  {
    InterpRows(p.N, p.pS0l, 6, p.eNoN)
  }

  function PointYa(p: PointIn): real
    requires |p.N| == p.eNoN && |p.yaL| == p.eNoN
  {
    Interp(p.N, p.yaL, p.eNoN)
  }

  function PointGrProps(p: PointIn): (g: seq<real>)
    requires |p.N| == p.eNoN && IsNodal(p.grPropsL, |p.grPropsL|, p.eNoN)
    ensures |g| == |p.grPropsL|
  {
    InterpRows(p.N, p.grPropsL, |p.grPropsL|, p.eNoN)
  }

  function PointLawIn(p: PointIn, s: nat, grIn: seq<real>): LawIn
    requires PointShaped(p, s)
  {
    LawIn(PointF(p, s), p.nFn, p.fN, PointYa(p), grIn, PointGrProps(p))
  }

  // ---------------------------------------------------------------------
  // Voigt notation

  /** The symmetric tensor with the given Voigt entries; the kernel fills
      S0 this way, mirroring (0,1), (1,2) and (2,0) across the diagonal. */
  function FromVoigt(v: seq<real>): (S: Mat)
    requires |v| == 6
    ensures IsMat(S, 3, 3) && IsSymmetric(S, 3)
  {
    [[v[0], v[3], v[5]], [v[3], v[1], v[4]], [v[5], v[4], v[2]]]
  }

  /** The Voigt entries (00, 11, 22, 01, 12, 20) of a tensor: the order in
      which pSl is written. */
  function ToVoigt(S: Mat): (v: seq<real>)
    requires IsMat(S, 3, 3)
    ensures |v| == 6
  {
    [S[0][0], S[1][1], S[2][2], S[0][1], S[1][2], S[2][0]]
  }

  lemma VoigtRoundTrip(v: seq<real>)
    requires |v| == 6
    ensures ToVoigt(FromVoigt(v)) == v
  {
  }

  /** A tensor is recovered from its Voigt entries exactly when it is
      symmetric. */
  lemma VoigtRecoversSymmetric(S: Mat)
    requires IsMat(S, 3, 3)
    ensures FromVoigt(ToVoigt(S)) == S <==> IsSymmetric(S, 3)
  {
    var T := FromVoigt(ToVoigt(S));
    if IsSymmetric(S, 3) {
      assert T[0] == S[0] && T[1] == S[1] && T[2] == S[2];
    }
  }

  // ---------------------------------------------------------------------
  // Stresses

  /** The viscous 2nd Piola-Kirchhoff stress 2 mu J F^-1 ddev F^-T, where
      ddev is the deviatoric part of the symmetric part of vx F^-1. */
  function ViscousStress(F: Mat, vx: Mat, mu: real): (Svis: Mat)
    requires IsMat(F, 3, 3) && IsMat(vx, 3, 3) && Det3(F) != 0.0
    ensures IsMat(Svis, 3, 3)
  {
    ViscousPart(Inv3(F), Det3(F), vx, mu)
  }

  function ViscousPart(Fi: Mat, Jac: real, vx: Mat, mu: real): (Svis: Mat)
    requires IsMat(Fi, 3, 3) && IsMat(vx, 3, 3)
    ensures IsMat(Svis, 3, 3)
  {
    Scale3(2.0 * mu * Jac, Congruence(Fi, Dev3(Symm3(Mul3(vx, Fi)))))
  }

  lemma ViscousStressSymmetric(F: Mat, vx: Mat, mu: real)
    requires IsMat(F, 3, 3) && IsMat(vx, 3, 3) && Det3(F) != 0.0
    ensures IsSymmetric(ViscousStress(F, vx, mu), 3)
  {
    ViscousPartSymmetric(Inv3(F), Det3(F), vx, mu);
  }

  lemma ViscousPartSymmetric(Fi: Mat, Jac: real, vx: Mat, mu: real)
    requires IsMat(Fi, 3, 3) && IsMat(vx, 3, 3)
    ensures IsSymmetric(ViscousPart(Fi, Jac, vx, mu), 3)
  {
    var sy := Symm3(Mul3(vx, Fi));
    DevOfSymmetric(sy);
    CongruenceSymmetric(Fi, Dev3(sy));
    ScaleSymmetric(2.0 * mu * Jac, Congruence(Fi, Dev3(sy)));
  }

  /** With zero nodal velocities there is no viscous stress. */
  lemma ViscousStressAtRest(p: PointIn, s: nat, mu: real)
    requires PointShaped(p, s) && Det3(PointF(p, s)) != 0.0
    requires forall i, a :: s <= i < s + 3 && 0 <= a < p.eNoN ==> p.yl[i][a] == 0.0
    ensures ViscousStress(PointF(p, s), PointVx(p, s), mu) == Zeros(3, 3)
  {
    VelGradAtRest(3, p.eNoN, p.Nx, p.yl, s);
    ViscousPartAtRest(Inv3(PointF(p, s)), Det3(PointF(p, s)), mu);
  }

  lemma ViscousPartAtRest(Fi: Mat, Jac: real, mu: real)
    requires IsMat(Fi, 3, 3)
    ensures ViscousPart(Fi, Jac, Zeros(3, 3), mu) == Zeros(3, 3)
  {
    MulZeroLeft(Fi);
    SymmZero();
    DevZero();
    CongruenceZero(Fi);
    ScaleZero(2.0 * mu * Jac);
  }

  /** An undeformed point has J = det F = 1, so the kernel never fails on it. */
  lemma UndeformedUnitJacobian(p: PointIn, s: nat)
    requires PointShaped(p, s)
    requires forall i, a :: s <= i < s + 3 && 0 <= a < p.eNoN ==> p.dl[i][a] == 0.0
    ensures Det3(PointF(p, s)) == 1.0
  {
    DefGradUndeformed(3, p.eNoN, p.Nx, p.dl, s);
    Det3Identity();
  }

  // ---------------------------------------------------------------------
  // Tangent quantities of one point

  /** Everything the residual and tangent loops read: F, F^-1, J, vx F^-1,
      ddev, the total stress S (elastic + viscous + initial), Dm and ud. */
  datatype Tangent = Tangent(F: Mat, Fi: Mat, Jac: real, VxFi: Mat, ddev: Mat, S: Mat, Dm: Mat, ud: seq<real>)

  ghost predicate TangentShaped(t: Tangent)
  {
    IsMat(t.F, 3, 3) && IsMat(t.Fi, 3, 3) && IsMat(t.VxFi, 3, 3) && IsMat(t.ddev, 3, 3)
    && IsMat(t.S, 3, 3) && IsMat(t.Dm, 6, 6) && |t.ud| == 3
  }

  function PointTangent(p: PointIn, m: Material, law: Law, s: nat, grIn: seq<real>): (t: Tangent)
    requires PointShaped(p, s) && MaterialShaped(m) && LawShaped(law) && Det3(PointF(p, s)) != 0.0
    ensures TangentShaped(t)
  {
    var F := PointF(p, s);
    var Fi := Inv3(F);
    var VxFi := Mul3(PointVx(p, s), Fi);
    var out := law(PointLawIn(p, s, grIn));
    var S := Add3(Add3(out.S, ViscousStress(F, PointVx(p, s), m.mu)), FromVoigt(PointS0Voigt(p)));
    Tangent(F, Fi, Det3(F), VxFi, Dev3(Symm3(VxFi)), S, out.Dm, PointUd(p, m, s))
  }

  ghost predicate NodeShaped(t: Tangent, p: PointIn)
  {
    TangentShaped(t) && |p.N| == p.eNoN && IsMat(p.Nx, 3, p.eNoN)
  }

  /** Shape gradients in the current configuration: sum_j Nx(j, a) Fi(j, i). */
  function NxFi(t: Tangent, p: PointIn, i: nat, a: nat): real
    requires NodeShaped(t, p) && i < 3 && a < p.eNoN
  {
    p.Nx[0][a] * t.Fi[0][i] + p.Nx[1][a] * t.Fi[1][i] + p.Nx[2][a] * t.Fi[2][i]
  }

  function DdNx(t: Tangent, p: PointIn, i: nat, a: nat): real
    requires NodeShaped(t, p) && i < 3 && a < p.eNoN
  {
    t.ddev[i][0] * NxFi(t, p, 0, a) + t.ddev[i][1] * NxFi(t, p, 1, a) + t.ddev[i][2] * NxFi(t, p, 2, a)
  }

  function VxNx(t: Tangent, p: PointIn, i: nat, a: nat): real
    requires NodeShaped(t, p) && i < 3 && a < p.eNoN
  {
    t.VxFi[0][i] * NxFi(t, p, 0, a) + t.VxFi[1][i] * NxFi(t, p, 1, a) + t.VxFi[2][i] * NxFi(t, p, 2, a)
  }

  /** Row l of the strain-displacement matrix Bm(l, c, a) in Voigt order. */
  function Bm(t: Tangent, p: PointIn, l: nat, c: nat, a: nat): real
    requires NodeShaped(t, p) && l < 6 && c < 3 && a < p.eNoN
  {
    if l < 3 then p.Nx[l][a] * t.F[c][l]
    else if l == 3 then p.Nx[0][a] * t.F[c][1] + t.F[c][0] * p.Nx[1][a]
    else if l == 4 then p.Nx[1][a] * t.F[c][2] + t.F[c][1] * p.Nx[2][a]
    else p.Nx[2][a] * t.F[c][0] + t.F[c][2] * p.Nx[0][a]
  }

  /** (Dm Bm(., ., b))(k, c). */
  function DBm(t: Tangent, p: PointIn, k: nat, c: nat, b: nat): real
    requires NodeShaped(t, p) && k < 6 && c < 3 && b < p.eNoN
  {
    t.Dm[k][0] * Bm(t, p, 0, c, b) + t.Dm[k][1] * Bm(t, p, 1, c, b) + t.Dm[k][2] * Bm(t, p, 2, c, b)
    + t.Dm[k][3] * Bm(t, p, 3, c, b) + t.Dm[k][4] * Bm(t, p, 4, c, b) + t.Dm[k][5] * Bm(t, p, 5, c, b)
  }

  /** The material stiffness Bm(a)^T Dm Bm(b), entry (r, c). */
  function BmDBm(t: Tangent, p: PointIn, r: nat, c: nat, a: nat, b: nat): real
    requires NodeShaped(t, p) && r < 3 && c < 3 && a < p.eNoN && b < p.eNoN
  {
    Bm(t, p, 0, r, a) * DBm(t, p, 0, c, b) + Bm(t, p, 1, r, a) * DBm(t, p, 1, c, b)
    + Bm(t, p, 2, r, a) * DBm(t, p, 2, c, b) + Bm(t, p, 3, r, a) * DBm(t, p, 3, c, b)
    + Bm(t, p, 4, r, a) * DBm(t, p, 4, c, b) + Bm(t, p, 5, r, a) * DBm(t, p, 5, c, b)
  }

  /** The geometric stiffness contraction Nx(a)^T S Nx(b). */
  function NxSNx(t: Tangent, p: PointIn, a: nat, b: nat): real
    requires NodeShaped(t, p) && a < p.eNoN && b < p.eNoN
  {
    p.Nx[0][a] * t.S[0][0] * p.Nx[0][b] + p.Nx[1][a] * t.S[1][0] * p.Nx[0][b]
    + p.Nx[2][a] * t.S[2][0] * p.Nx[0][b] + p.Nx[0][a] * t.S[0][1] * p.Nx[1][b]
    + p.Nx[1][a] * t.S[1][1] * p.Nx[1][b] + p.Nx[2][a] * t.S[2][1] * p.Nx[1][b]
    + p.Nx[0][a] * t.S[0][2] * p.Nx[2][b] + p.Nx[1][a] * t.S[1][2] * p.Nx[2][b]
    + p.Nx[2][a] * t.S[2][2] * p.Nx[2][b]
  }

  function NxNx(t: Tangent, p: PointIn, a: nat, b: nat): real
    requires NodeShaped(t, p) && a < p.eNoN && b < p.eNoN
  {
    NxFi(t, p, 0, a) * NxFi(t, p, 0, b) + NxFi(t, p, 1, a) * NxFi(t, p, 1, b) + NxFi(t, p, 2, a) * NxFi(t, p, 2, b)
  }

  /** The viscous tangent of equation r with respect to unknown c, with
      the weights rmu = afu mu J and rmv = afv mu J. */
  function Tv(t: Tangent, p: PointIn, tp: TimeParams, mu: real, r: nat, c: nat, a: nat, b: nat): real
    requires NodeShaped(t, p) && r < 3 && c < 3 && a < p.eNoN && b < p.eNoN
  {
    var r13 := 1.0 / 3.0;
    var r23 := 2.0 / 3.0;
    var rmu := Afu(tp) * mu * t.Jac;
    var rmv := Afv(tp) * mu * t.Jac;
    var v := if r == c then r13 * NxFi(t, p, r, a) * NxFi(t, p, r, b) + NxNx(t, p, a, b)
             else NxFi(t, p, c, a) * NxFi(t, p, r, b) - r23 * NxFi(t, p, r, a) * NxFi(t, p, c, b);
    (2.0 * (DdNx(t, p, r, a) * NxFi(t, p, c, b) - DdNx(t, p, r, b) * NxFi(t, p, c, a))
     - (NxNx(t, p, a, b) * t.VxFi[r][c] + NxFi(t, p, r, b) * VxNx(t, p, c, a)
        - r23 * NxFi(t, p, r, a) * VxNx(t, p, c, b))) * rmu
    + v * rmv
  }

  /** The mass and geometric term amd N(a) N(b) + afu Nx(a)^T S Nx(b),
      with amd = am rho + af gam dt dmp. */
  function T1(t: Tangent, p: PointIn, tp: TimeParams, m: Material, a: nat, b: nat): real
    requires NodeShaped(t, p) && a < p.eNoN && b < p.eNoN
  {
    var amd := tp.am * m.rho + tp.af * tp.gam * tp.dt * m.dmp;
    amd * p.N[a] * p.N[b] + Afu(tp) * NxSNx(t, p, a, b)
  }

  /** What the point adds to the tangent entry of equation r, unknown c:
      T1 enters the diagonal blocks r == c only. */
  function Entry(t: Tangent, p: PointIn, tp: TimeParams, m: Material, r: nat, c: nat, a: nat, b: nat): real
    requires NodeShaped(t, p) && r < 3 && c < 3 && a < p.eNoN && b < p.eNoN
  {
    p.w * ((if r == c then T1(t, p, tp, m, a, b) else 0.0) + Afu(tp) * BmDBm(t, p, r, c, a, b) + Tv(t, p, tp, m.mu, r, c, a, b))
  }

  /** What the point adds to lK(k, a, b): Entry(r, c) at row r*dof + c for
      r, c < 3, and nothing in the other rows. */
  function KernelStiffness(t: Tangent, p: PointIn, tp: TimeParams, m: Material, dof: nat, k: nat, a: nat, b: nat): real
    requires NodeShaped(t, p) && 3 <= dof && a < p.eNoN && b < p.eNoN
  {
    if k < 3 then Entry(t, p, tp, m, 0, k, a, b)
    else if dof <= k < dof + 3 then Entry(t, p, tp, m, 1, k - dof, a, b)
    else if dof + dof <= k < dof + dof + 3 then Entry(t, p, tp, m, 2, k - dof - dof, a, b)
    else 0.0
  }

  /** What the point adds to lR(r, a): w (N(a) ud(r) + sum_q Nx(q, a) P(r, q))
      with the 1st Piola-Kirchhoff stress P = F S. */
  function KernelResidual(t: Tangent, p: PointIn, r: nat, a: nat): real
    requires NodeShaped(t, p) && r < 3 && a < p.eNoN
  {
    p.w * (p.N[a] * t.ud[r] + p.Nx[0][a] * Dot3(t.F, t.S, r, 0) + p.Nx[1][a] * Dot3(t.F, t.S, r, 1)
           + p.Nx[2][a] * Dot3(t.F, t.S, r, 2))
  }

  // ---------------------------------------------------------------------
  // Symmetry of the elastic tangent

  /** With a symmetric stress the geometric contraction is symmetric in the
      node pair. */
  lemma GeometricStiffnessSymmetric(t: Tangent, p: PointIn, a: nat, b: nat)
    requires NodeShaped(t, p) && a < p.eNoN && b < p.eNoN && IsSymmetric(t.S, 3)
    ensures NxSNx(t, p, a, b) == NxSNx(t, p, b, a)
  {
    assert t.S[1][0] == t.S[0][1] && t.S[2][0] == t.S[0][2] && t.S[2][1] == t.S[1][2];
  }

  /** With a symmetric Dm, Bm^T Dm Bm is symmetric under swapping both the
      node pair and the dof pair. */
  lemma MaterialStiffnessSymmetric(t: Tangent, p: PointIn, r: nat, c: nat, a: nat, b: nat)
    requires NodeShaped(t, p) && r < 3 && c < 3 && a < p.eNoN && b < p.eNoN && IsSymmetric(t.Dm, 6)
    ensures BmDBm(t, p, r, c, a, b) == BmDBm(t, p, c, r, b, a)
  {
    BmDBmBilinear(t, p, r, c, a, b);
    BmDBmBilinear(t, p, c, r, b, a);
    BilinearSymmetric(BmColumn(t, p, r, a), t.Dm, BmColumn(t, p, c, b));
  }

  /** Column r of node a's strain-displacement matrix Bm. */
  function BmColumn(t: Tangent, p: PointIn, r: nat, a: nat): (x: seq<real>)
    requires NodeShaped(t, p) && r < 3 && a < p.eNoN
    ensures |x| == 6 && forall l :: 0 <= l < 6 ==> x[l] == Bm(t, p, l, r, a)
  {
    seq(6, l requires 0 <= l < 6 => Bm(t, p, l, r, a))
  }

  /** Entry (r, c) of the material stiffness is the Dm-bilinear form of the
      two Bm columns. */
  lemma BmDBmBilinear(t: Tangent, p: PointIn, r: nat, c: nat, a: nat, b: nat)
    requires NodeShaped(t, p) && r < 3 && c < 3 && a < p.eNoN && b < p.eNoN
    ensures BmDBm(t, p, r, c, a, b) == Bilinear6(BmColumn(t, p, r, a), t.Dm, BmColumn(t, p, c, b))
  {
  }

  /** Row r*dof + c of the block holds Entry(r, c). */
  lemma KernelStiffnessAt(t: Tangent, p: PointIn, tp: TimeParams, m: Material, dof: nat, r: nat, c: nat, a: nat, b: nat)
    requires NodeShaped(t, p) && 3 <= dof && r < 3 && c < 3 && a < p.eNoN && b < p.eNoN
    ensures KernelStiffness(t, p, tp, m, dof, KRow(r, c, dof), a, b) == Entry(t, p, tp, m, r, c, a, b)
  {
  }

  /** The total stress of a point is symmetric when the law's elastic
      stress is: the viscous and initial parts always are. */
  lemma PointStressSymmetric(p: PointIn, m: Material, law: Law, s: nat, grIn: seq<real>)
    requires PointShaped(p, s) && MaterialShaped(m) && LawShaped(law) && Det3(PointF(p, s)) != 0.0
    requires IsSymmetric(law(PointLawIn(p, s, grIn)).S, 3)
    ensures IsSymmetric(PointTangent(p, m, law, s, grIn).S, 3)
  {
    var F := PointF(p, s);
    var out := law(PointLawIn(p, s, grIn));
    var Svis := ViscousStress(F, PointVx(p, s), m.mu);
    ViscousStressSymmetric(F, PointVx(p, s), m.mu);
    AddSymmetric(out.S, Svis);
    AddSymmetric(Add3(out.S, Svis), FromVoigt(PointS0Voigt(p)));
  }

  /** Without viscosity, a symmetric stress and a symmetric Dm make the
      point tangent symmetric: the entry of (equation r, unknown c, nodes
      a, b) equals that of (c, r, b, a). */
  lemma TangentSymmetric(t: Tangent, p: PointIn, tp: TimeParams, m: Material, dof: nat, r: nat, c: nat, a: nat, b: nat)
    requires NodeShaped(t, p) && 3 <= dof && r < 3 && c < 3 && a < p.eNoN && b < p.eNoN
    requires m.mu == 0.0 && IsSymmetric(t.S, 3) && IsSymmetric(t.Dm, 6)
    ensures KernelStiffness(t, p, tp, m, dof, KRow(r, c, dof), a, b) == KernelStiffness(t, p, tp, m, dof, KRow(c, r, dof), b, a)
  {
    GeometricStiffnessSymmetric(t, p, a, b);
    assert T1(t, p, tp, m, a, b) == T1(t, p, tp, m, b, a);
    MaterialStiffnessSymmetric(t, p, r, c, a, b);
    assert Tv(t, p, tp, m.mu, r, c, a, b) == 0.0;
    assert Tv(t, p, tp, m.mu, c, r, b, a) == 0.0;
    assert Entry(t, p, tp, m, r, c, a, b) == Entry(t, p, tp, m, c, r, b, a);
    KernelStiffnessAt(t, p, tp, m, dof, r, c, a, b);
    KernelStiffnessAt(t, p, tp, m, dof, c, r, b, a);
  }

  /** The same for the tangent struct_3d forms, given a law with symmetric
      S and Dm. */
  lemma ElasticTangentSymmetric(p: PointIn, m: Material, law: Law, s: nat, grIn: seq<real>, tp: TimeParams,
                                dof: nat, r: nat, c: nat, a: nat, b: nat)
    requires PointShaped(p, s) && MaterialShaped(m) && LawShaped(law) && Det3(PointF(p, s)) != 0.0
    requires 3 <= dof && r < 3 && c < 3 && a < p.eNoN && b < p.eNoN
    requires m.mu == 0.0
    requires IsSymmetric(law(PointLawIn(p, s, grIn)).S, 3) && IsSymmetric(law(PointLawIn(p, s, grIn)).Dm, 6)
    ensures KernelStiffness(PointTangent(p, m, law, s, grIn), p, tp, m, dof, KRow(r, c, dof), a, b)
            == KernelStiffness(PointTangent(p, m, law, s, grIn), p, tp, m, dof, KRow(c, r, dof), b, a)
  {
    PointStressSymmetric(p, m, law, s, grIn);
    TangentSymmetric(PointTangent(p, m, law, s, grIn), p, tp, m, dof, r, c, a, b);
  }

  // ---------------------------------------------------------------------
  // The kernel

  /** The point quantities of the first node loop of struct_3d. */
  datatype Gathered = Gathered(F: Mat, vx: Mat, ud: seq<real>, s0: seq<real>, ya: real, grProps: seq<real>)

  /** The point quantities accumulated over the first n element nodes. */
  function GatheredUpTo(p: PointIn, m: Material, s: nat, n: nat): (g: Gathered)
    requires PointShaped(p, s) && MaterialShaped(m) && n <= p.eNoN
    ensures |g.grProps| == |p.grPropsL| && |g.s0| == 6 && |g.ud| == 3
  {
    Gathered(NodalGrad(3, p.eNoN, p.Nx, p.dl, s, n, Identity(3)), NodalGrad(3, p.eNoN, p.Nx, p.yl, s, n, Zeros(3, 3)),
             InertiaUpTo(p, m, s, n), InterpRows(p.N, p.pS0l, 6, n), Interp(p.N, p.yaL, n),
             InterpRows(p.N, p.grPropsL, |p.grPropsL|, n))
  }

  /** The first node loop: accumulates F, vx, ud, the initial stress in
      Voigt order, ya and the G&R properties over the element nodes. */
  method GatherPoint(p: PointIn, m: Material, s: nat) returns (gat: Gathered)
    requires PointShaped(p, s) && MaterialShaped(m)
    ensures gat == Gathered(PointF(p, s), PointVx(p, s), PointUd(p, m, s), PointS0Voigt(p), PointYa(p), PointGrProps(p))
  {
    var ud := seq(3, r requires 0 <= r < 3 => -m.rho * m.fb[r]);
    assert InterpRows(p.N, p.pS0l, 6, 0) == seq(6, i => 0.0);
    assert InterpRows(p.N, p.grPropsL, |p.grPropsL|, 0) == seq(|p.grPropsL|, i => 0.0);
    gat := Gathered(Identity(3), Zeros(3, 3), ud, seq(6, i => 0.0), 0.0, seq(|p.grPropsL|, i => 0.0));
    for a := 0 to p.eNoN
      invariant gat == GatheredUpTo(p, m, s, a)
    {
      gat := GatherNode(p, m, s, a, gat);
    }
  }

  /** One pass of the first node loop: node a's contribution to every
      gathered quantity. */
  method GatherNode(p: PointIn, m: Material, s: nat, a: nat, g: Gathered) returns (g': Gathered)
    requires PointShaped(p, s) && MaterialShaped(m) && a < p.eNoN
    requires g == GatheredUpTo(p, m, s, a)
    ensures g' == GatheredUpTo(p, m, s, a + 1)
  {
    var ud := InertiaStep(p, m, s, a, g.ud);
    var vx := GradStep(3, p.eNoN, p.Nx, p.yl, s, a, g.vx);
    var F := GradStep(3, p.eNoN, p.Nx, p.dl, s, a, g.F);
    InterpRowsNext(p.N, p.pS0l, 6, a);
    var s0 := InterpRowsStep(p.N, p.pS0l, 6, a, g.s0);
    var ya := g.ya + p.N[a] * p.yaL[a];
    InterpRowsNext(p.N, p.grPropsL, |p.grPropsL|, a);
    var grProps := AddNodeProps(p, a, g.grProps);
    g' := Gathered(F, vx, ud, s0, ya, grProps);
  }

  /** The inner loop over the G&R properties of node a. */
  method AddNodeProps(p: PointIn, a: nat, g: seq<real>) returns (g': seq<real>)
    requires |p.N| == p.eNoN && IsNodal(p.grPropsL, |p.grPropsL|, p.eNoN) && a < p.eNoN && |g| == |p.grPropsL|
    ensures g' == InterpRowsStep(p.N, p.grPropsL, |p.grPropsL|, a, g)
  {
    g' := g;
    var igr := 0;
    while igr < |p.grPropsL|
      invariant 0 <= igr <= |p.grPropsL| && |g'| == |p.grPropsL|
      invariant forall i :: 0 <= i < |g'| ==> g'[i] == if i < igr then g[i] + p.N[a] * p.grPropsL[i][a] else g[i]
    {
      g' := g'[igr := g'[igr] + p.grPropsL[igr][a] * p.N[a]];
      igr := igr + 1;
    }
    ghost var want := InterpRowsStep(p.N, p.grPropsL, |p.grPropsL|, a, g);
    assert forall i :: 0 <= i < |g'| ==> g'[i] == want[i];
  }

  /** The residual rows of node a. */
  method AddKernelResidual(t: Tangent, p: PointIn, a: nat, lR: array2<real>)
    requires NodeShaped(t, p) && a < p.eNoN && lR.Length0 >= 3 && lR.Length1 == p.eNoN
    modifies lR
    ensures forall r, a' :: 0 <= r < lR.Length0 && 0 <= a' < lR.Length1 ==>
      lR[r, a'] == old(lR[r, a']) + (if r < 3 && a' == a then KernelResidual(t, p, r, a) else 0.0)
  {
    lR[0, a] := lR[0, a] + KernelResidual(t, p, 0, a);
    lR[1, a] := lR[1, a] + KernelResidual(t, p, 1, a);
    lR[2, a] := lR[2, a] + KernelResidual(t, p, 2, a);
  }

  /** The nine tangent entries of the node pair (a, b). */
  method AddKernelBlock(t: Tangent, p: PointIn, tp: TimeParams, m: Material, dof: nat, a: nat, b: nat, lK: array3<real>)
    requires NodeShaped(t, p) && 3 <= dof && a < p.eNoN && b < p.eNoN
    requires lK.Length0 == dof * dof && lK.Length1 == p.eNoN && lK.Length2 == p.eNoN
    modifies lK
    ensures forall k :: 0 <= k < lK.Length0 ==> lK[k, a, b] == old(lK[k, a, b]) + KernelStiffness(t, p, tp, m, dof, k, a, b)
    ensures forall k, a', b' :: 0 <= k < lK.Length0 && 0 <= a' < lK.Length1 && 0 <= b' < lK.Length2 && (a' != a || b' != b) ==>
              lK[k, a', b'] == old(lK[k, a', b'])
  {
    assert dof * dof == dof * (dof - 3) + 3 * dof;
    AddKernelRow(t, p, tp, m, dof, 0, 0, a, b, lK);
    AddKernelRow(t, p, tp, m, dof, 1, dof, a, b, lK);
    AddKernelRow(t, p, tp, m, dof, 2, dof + dof, a, b, lK);
  }

  /** The three entries of row i of the node pair (a, b), at lK(base + j, a, b). */
  method AddKernelRow(t: Tangent, p: PointIn, tp: TimeParams, m: Material, dof: nat, i: nat, base: nat,
                      a: nat, b: nat, lK: array3<real>)
    requires NodeShaped(t, p) && i < 3 && a < p.eNoN && b < p.eNoN
    requires base + 3 <= lK.Length0 && lK.Length1 == p.eNoN && lK.Length2 == p.eNoN
    modifies lK
    ensures forall k :: 0 <= k < lK.Length0 ==>
              lK[k, a, b] == old(lK[k, a, b]) + (if base <= k < base + 3 then Entry(t, p, tp, m, i, k - base, a, b) else 0.0)
    ensures forall k, a', b' :: 0 <= k < lK.Length0 && 0 <= a' < lK.Length1 && 0 <= b' < lK.Length2 && (a' != a || b' != b) ==>
              lK[k, a', b'] == old(lK[k, a', b'])
  {
    lK[base, a, b] := lK[base, a, b] + Entry(t, p, tp, m, i, 0, a, b);
    lK[base + 1, a, b] := lK[base + 1, a, b] + Entry(t, p, tp, m, i, 1, a, b);
    lK[base + 2, a, b] := lK[base + 2, a, b] + Entry(t, p, tp, m, i, 2, a, b);
  }

  /** struct_3d: one Gauss point of a solid element. The constitutive law
      is called (and updates the internal G&R variables) before the eval
      flag is looked at; with eval false the kernel returns right after it,
      leaving pSl, lR and lK as they were. Otherwise pSl receives the
      elastic + viscous stress in Voigt order (before the initial stress
      S0 is added), and lR and lK receive the point's residual and tangent.
      Inverting a singular F fails and changes nothing. */
  method Struct3D(tp: TimeParams, m: Material, law: Law, s: nat, dof: nat, eval: bool, p: PointIn,
                  grIn: seq<real>, pSl: array<real>, lR: array2<real>, lK: array3<real>)
    returns (outcome: Outcome, grOut: seq<real>)
    requires PointShaped(p, s) && MaterialShaped(m) && LawShaped(law) && 3 <= dof
    requires pSl.Length == 6 && lR.Length0 >= 3 && lR.Length1 == p.eNoN
    requires lK.Length0 == dof * dof && lK.Length1 == p.eNoN && lK.Length2 == p.eNoN
    modifies pSl, lR, lK
    ensures outcome == Pass <==> Det3(PointF(p, s)) != 0.0
    ensures outcome != Pass ==> outcome == Fail(SingularDefGrad)
    ensures outcome != Pass ==> grOut == grIn && unchanged(pSl) && unchanged(lR) && unchanged(lK)
    ensures outcome == Pass ==> grOut == law(PointLawIn(p, s, grIn)).grInt
    ensures outcome == Pass && !eval ==> unchanged(pSl) && unchanged(lR) && unchanged(lK)
    ensures outcome == Pass && eval ==>
      pSl[..] == ToVoigt(Add3(law(PointLawIn(p, s, grIn)).S, ViscousStress(PointF(p, s), PointVx(p, s), m.mu)))
    ensures outcome == Pass && eval ==>
      forall r, a :: 0 <= r < lR.Length0 && 0 <= a < lR.Length1 ==>
        lR[r, a] == old(lR[r, a]) + (if r < 3 then KernelResidual(PointTangent(p, m, law, s, grIn), p, r, a) else 0.0)
    ensures outcome == Pass && eval ==>
      forall k, a, b :: 0 <= k < lK.Length0 && 0 <= a < lK.Length1 && 0 <= b < lK.Length2 ==>
        lK[k, a, b] == old(lK[k, a, b]) + KernelStiffness(PointTangent(p, m, law, s, grIn), p, tp, m, dof, k, a, b)
  {
    var gat := GatherPoint(p, m, s);
    var S0 := FromVoigt(gat.s0);
    var Jac := Det3(gat.F);
    if Jac == 0.0 {
      return Fail(SingularDefGrad), grIn;
    }
    var Fi := Inv3(gat.F);
    var VxFi := Mul3(gat.vx, Fi);
    var ddev := Dev3(Symm3(VxFi));
    var Svis := ViscousPart(Fi, Jac, gat.vx, m.mu);
    var out := law(LawIn(gat.F, p.nFn, p.fN, gat.ya, grIn, gat.grProps));
    outcome, grOut := Pass, out.grInt;
    if !eval {
      return;
    }
    var S := Add3(out.S, Svis);
    WriteVoigt(pSl, S);
    S := Add3(S, S0);
    var t := Tangent(gat.F, Fi, Jac, VxFi, ddev, S, out.Dm, gat.ud);
    assert t == PointTangent(p, m, law, s, grIn);
    AssembleKernel(t, p, tp, m, dof, lR, lK);
  }

  /** Stores a stress in Voigt order. */
  method WriteVoigt(pSl: array<real>, S: Mat)
    requires pSl.Length == 6 && IsMat(S, 3, 3)
    modifies pSl
    ensures pSl[..] == ToVoigt(S)
  {
    pSl[0], pSl[1], pSl[2], pSl[3], pSl[4], pSl[5] := S[0][0], S[1][1], S[2][2], S[0][1], S[1][2], S[2][0];
  }

  /** The residual loop over a, then the tangent loops over b and a. */
  method AssembleKernel(t: Tangent, p: PointIn, tp: TimeParams, m: Material, dof: nat, lR: array2<real>, lK: array3<real>)
    requires NodeShaped(t, p) && 3 <= dof && lR.Length0 >= 3 && lR.Length1 == p.eNoN
    requires lK.Length0 == dof * dof && lK.Length1 == p.eNoN && lK.Length2 == p.eNoN
    modifies lR, lK
    ensures forall r, a :: 0 <= r < lR.Length0 && 0 <= a < lR.Length1 ==>
      lR[r, a] == old(lR[r, a]) + (if r < 3 then KernelResidual(t, p, r, a) else 0.0)
    ensures forall k, a, b :: 0 <= k < lK.Length0 && 0 <= a < lK.Length1 && 0 <= b < lK.Length2 ==>
      lK[k, a, b] == old(lK[k, a, b]) + KernelStiffness(t, p, tp, m, dof, k, a, b)
  {
    var eNoN := p.eNoN;
    var a := 0;
    while a < eNoN
      invariant 0 <= a <= eNoN
      invariant forall r, a' :: 0 <= r < lR.Length0 && 0 <= a' < eNoN ==>
        lR[r, a'] == old(lR[r, a']) + (if r < 3 && a' < a then KernelResidual(t, p, r, a') else 0.0)
      invariant unchanged(lK)
    {
      AddKernelResidual(t, p, a, lR);
      a := a + 1;
    }
    var b := 0;
    while b < eNoN
      invariant 0 <= b <= eNoN
      invariant forall r, a' :: 0 <= r < lR.Length0 && 0 <= a' < eNoN ==>
        lR[r, a'] == old(lR[r, a']) + (if r < 3 then KernelResidual(t, p, r, a') else 0.0)
      invariant forall k, a', b' :: 0 <= k < lK.Length0 && 0 <= a' < eNoN && 0 <= b' < eNoN ==>
        lK[k, a', b'] == old(lK[k, a', b']) + (if b' < b then KernelStiffness(t, p, tp, m, dof, k, a', b') else 0.0)
    {
      a := 0;
      while a < eNoN
        modifies lK
        invariant 0 <= a <= eNoN
        invariant forall k, a', b' :: 0 <= k < lK.Length0 && 0 <= a' < eNoN && 0 <= b' < eNoN ==>
          lK[k, a', b'] == old(lK[k, a', b'])
            + (if b' < b || (b' == b && a' < a) then KernelStiffness(t, p, tp, m, dof, k, a', b') else 0.0)
      {
        AddKernelBlock(t, p, tp, m, dof, a, b, lK);
        a := a + 1;
      }
      b := b + 1;
    }
  }
}
