/** Follower-pressure face kernels (b_struct_2d, b_struct_3d): the residual
    of a pressure that stays normal to the deformed face, and the load
    stiffness that comes from the rotation of that normal. */
module FollowerPressure {
  import opened Numerics
  import opened Params
  import opened Kinematics

  /** One face Gauss point: weight, shape values N(a), reference gradients
      Nx(i, a), nodal displacements dl(i, a), nodal pressures hl(a) and the
      reference normal nV. */
  datatype FacePoint = FacePoint(eNoN: nat, w: real, N: seq<real>, Nx: Mat, dl: Mat, hl: seq<real>, nV: seq<real>)

  ghost predicate FaceShaped(fp: FacePoint, nd: nat, s: nat)
  {
    |fp.N| == fp.eNoN && IsMat(fp.Nx, nd, fp.eNoN) && IsNodal(fp.dl, s + nd, fp.eNoN)
    && |fp.hl| == fp.eNoN && |fp.nV| == nd
  }

  /** The deformation gradient of the face point. */
  function FaceDefGrad(fp: FacePoint, nd: nat, s: nat): (F: Mat)
    requires FaceShaped(fp, nd, s)
    ensures IsMat(F, nd, nd)
  {
    DefGrad(nd, fp.eNoN, fp.Nx, fp.dl, s, fp.eNoN)
  }

  /** The interpolated pressure magnitude h = sum_a N(a) hl(a). */
  function FacePressure(fp: FacePoint): real
    requires |fp.N| == fp.eNoN && |fp.hl| == fp.eNoN
  {
    Interp(fp.N, fp.hl, fp.eNoN)
  }

  /** Quantities of a face point with an invertible F: J = det F, F^-1,
      the pushed-forward shape gradients NxFi(i, b) = sum_j Nx(j, b) Fi(j, i),
      the Nanson normal nFi(i) = sum_j nV(j) Fi(j, i), and wl = w J h. */
  datatype FaceGeom = FaceGeom(Jac: real, Fi: Mat, NxFi: Mat, nFi: seq<real>, wl: real)

  ghost predicate GeomShaped(g: FaceGeom, nd: nat, eNoN: nat)
  {
    IsMat(g.Fi, nd, nd) && IsMat(g.NxFi, nd, eNoN) && |g.nFi| == nd
  }

  function FaceGeom3(fp: FacePoint, s: nat): (g: FaceGeom)
    requires FaceShaped(fp, 3, s) && Det3(FaceDefGrad(fp, 3, s)) != 0.0
    ensures GeomShaped(g, 3, fp.eNoN)
    ensures g.wl == fp.w * Det3(FaceDefGrad(fp, 3, s)) * FacePressure(fp)
  {
    var F := FaceDefGrad(fp, 3, s);
    var Jac := Det3(F);
    var Fi := Inv3(F);
    var NxFi := seq(3, i requires 0 <= i < 3 => seq(fp.eNoN, b requires 0 <= b < fp.eNoN =>
                  fp.Nx[0][b] * Fi[0][i] + fp.Nx[1][b] * Fi[1][i] + fp.Nx[2][b] * Fi[2][i]));
    var nFi := seq(3, i requires 0 <= i < 3 => fp.nV[0] * Fi[0][i] + fp.nV[1] * Fi[1][i] + fp.nV[2] * Fi[2][i]);
    FaceGeom(Jac, Fi, NxFi, nFi, fp.w * Jac * FacePressure(fp))
  }

  function FaceGeom2(fp: FacePoint, s: nat): (g: FaceGeom)
    requires FaceShaped(fp, 2, s) && Det2(FaceDefGrad(fp, 2, s)) != 0.0
    ensures GeomShaped(g, 2, fp.eNoN)
    ensures g.wl == fp.w * Det2(FaceDefGrad(fp, 2, s)) * FacePressure(fp)
  {
    var F := FaceDefGrad(fp, 2, s);
    var Jac := Det2(F);
    var Fi := Inv2(F);
    var NxFi := seq(2, i requires 0 <= i < 2 => seq(fp.eNoN, b requires 0 <= b < fp.eNoN =>
                  fp.Nx[0][b] * Fi[0][i] + fp.Nx[1][b] * Fi[1][i]));
    var nFi := seq(2, i requires 0 <= i < 2 => fp.nV[0] * Fi[0][i] + fp.nV[1] * Fi[1][i]);
    FaceGeom(Jac, Fi, NxFi, nFi, fp.w * Jac * FacePressure(fp))
  }

  /** What the face point adds to lR(r, a): -wl N(a) nFi(r). */
  function FaceResidual(g: FaceGeom, fp: FacePoint, nd: nat, r: nat, a: nat): real
    requires GeomShaped(g, nd, fp.eNoN) && |fp.N| == fp.eNoN && r < nd && a < fp.eNoN
  {
    -(g.wl * fp.N[a] * g.nFi[r])
  }

  /** The load stiffness of the unknown pair (p, q), p < q:
      wl af N(a) (nFi(q) NxFi(p, b) - nFi(p) NxFi(q, b)). */
  function Ku(g: FaceGeom, fp: FacePoint, nd: nat, af: real, p: nat, q: nat, a: nat, b: nat): real
    requires GeomShaped(g, nd, fp.eNoN) && |fp.N| == fp.eNoN && p < nd && q < nd && a < fp.eNoN && b < fp.eNoN
  {
    g.wl * af * fp.N[a] * (g.nFi[q] * g.NxFi[p][b] - g.nFi[p] * g.NxFi[q][b])
  }

  /** What the face point adds to lK(k, a, b): +Ku of a pair (p, q), p < q,
      at row p*dof + q and -Ku at the transposed row q*dof + p; every other
      row (the diagonal rows among them) is left alone. */
  function FaceStiffness(g: FaceGeom, fp: FacePoint, nd: nat, af: real, dof: nat, k: nat, a: nat, b: nat): real
    requires nd == 2 || nd == 3
    requires GeomShaped(g, nd, fp.eNoN) && |fp.N| == fp.eNoN && nd <= dof && a < fp.eNoN && b < fp.eNoN
  {
    if k == KRow(0, 1, dof) then Ku(g, fp, nd, af, 0, 1, a, b)
    else if k == KRow(1, 0, dof) then -Ku(g, fp, nd, af, 0, 1, a, b)
    else if nd == 3 && k == KRow(0, 2, dof) then Ku(g, fp, nd, af, 0, 2, a, b)
    else if nd == 3 && k == KRow(2, 0, dof) then -Ku(g, fp, nd, af, 0, 2, a, b)
    else if nd == 3 && k == KRow(1, 2, dof) then Ku(g, fp, nd, af, 1, 2, a, b)
    else if nd == 3 && k == KRow(2, 1, dof) then -Ku(g, fp, nd, af, 1, 2, a, b)
    else 0.0
  }

  /** Every load-stiffness update is a skew pair: what row p*dof + q gains,
      row q*dof + p loses. */
  lemma SkewPaired(g: FaceGeom, fp: FacePoint, nd: nat, af: real, dof: nat, p: nat, q: nat, a: nat, b: nat)
    requires nd == 2 || nd == 3
    requires GeomShaped(g, nd, fp.eNoN) && |fp.N| == fp.eNoN && nd <= dof && a < fp.eNoN && b < fp.eNoN
    requires p < q < nd
    ensures FaceStiffness(g, fp, nd, af, dof, KRow(p, q, dof), a, b)
            == -FaceStiffness(g, fp, nd, af, dof, KRow(q, p, dof), a, b)
    ensures FaceStiffness(g, fp, nd, af, dof, KRow(p, q, dof), a, b) == Ku(g, fp, nd, af, p, q, a, b)
  {
  }

  /** The diagonal dof blocks 0, dof+1 and 2*dof+2 are never touched. */
  lemma DiagonalUntouched(g: FaceGeom, fp: FacePoint, nd: nat, af: real, dof: nat, r: nat, a: nat, b: nat)
    requires nd == 2 || nd == 3
    requires GeomShaped(g, nd, fp.eNoN) && |fp.N| == fp.eNoN && nd <= dof && a < fp.eNoN && b < fp.eNoN
    requires r < nd
    ensures FaceStiffness(g, fp, nd, af, dof, KRow(r, r, dof), a, b) == 0.0
  {
  }

  /** A face point with zero weight wl adds nothing to a pair. */
  lemma KuZero(g: FaceGeom, fp: FacePoint, nd: nat, af: real, p: nat, q: nat, a: nat, b: nat)
    requires GeomShaped(g, nd, fp.eNoN) && |fp.N| == fp.eNoN && p < nd && q < nd && a < fp.eNoN && b < fp.eNoN
    requires g.wl == 0.0
    ensures Ku(g, fp, nd, af, p, q, a, b) == 0.0
  {
    var x := af * fp.N[a] * (g.nFi[q] * g.NxFi[p][b] - g.nFi[p] * g.NxFi[q][b]);
    assert Ku(g, fp, nd, af, p, q, a, b) == 0.0 * x;
  }

  /** A face point with zero weight wl changes neither lR nor lK. */
  lemma ZeroWeightNoLoad(g: FaceGeom, fp: FacePoint, nd: nat, af: real, dof: nat)
    requires nd == 2 || nd == 3
    requires GeomShaped(g, nd, fp.eNoN) && |fp.N| == fp.eNoN && nd <= dof && g.wl == 0.0
    ensures forall r, a :: 0 <= r < nd && 0 <= a < fp.eNoN ==> FaceResidual(g, fp, nd, r, a) == 0.0
    ensures forall k, a, b :: 0 <= a < fp.eNoN && 0 <= b < fp.eNoN ==> FaceStiffness(g, fp, nd, af, dof, k, a, b) == 0.0
  {
    forall k, a, b | 0 <= a < fp.eNoN && 0 <= b < fp.eNoN
      ensures FaceStiffness(g, fp, nd, af, dof, k, a, b) == 0.0
    {
      KuZero(g, fp, nd, af, 0, 1, a, b);
      if nd == 3 {
        KuZero(g, fp, nd, af, 0, 2, a, b);
        KuZero(g, fp, nd, af, 1, 2, a, b);
      }
    }
  }

  /** Zero nodal pressures give zero h, hence wl = 0: neither lR nor lK changes. */
  lemma ZeroPressureNoLoad3(fp: FacePoint, s: nat, af: real, dof: nat)
    requires FaceShaped(fp, 3, s) && Det3(FaceDefGrad(fp, 3, s)) != 0.0 && 3 <= dof
    requires forall a :: 0 <= a < fp.eNoN ==> fp.hl[a] == 0.0
    ensures forall r, a :: 0 <= r < 3 && 0 <= a < fp.eNoN ==> FaceResidual(FaceGeom3(fp, s), fp, 3, r, a) == 0.0
    ensures forall k, a, b :: 0 <= a < fp.eNoN && 0 <= b < fp.eNoN ==>
              FaceStiffness(FaceGeom3(fp, s), fp, 3, af, dof, k, a, b) == 0.0
  {
    InterpZero(fp.N, fp.hl, fp.eNoN);
    ZeroWeightNoLoad(FaceGeom3(fp, s), fp, 3, af, dof);
  }

  lemma ZeroPressureNoLoad2(fp: FacePoint, s: nat, af: real, dof: nat)
    requires FaceShaped(fp, 2, s) && Det2(FaceDefGrad(fp, 2, s)) != 0.0 && 2 <= dof
    requires forall a :: 0 <= a < fp.eNoN ==> fp.hl[a] == 0.0
    ensures forall r, a :: 0 <= r < 2 && 0 <= a < fp.eNoN ==> FaceResidual(FaceGeom2(fp, s), fp, 2, r, a) == 0.0
    ensures forall k, a, b :: 0 <= a < fp.eNoN && 0 <= b < fp.eNoN ==>
              FaceStiffness(FaceGeom2(fp, s), fp, 2, af, dof, k, a, b) == 0.0
  {
    InterpZero(fp.N, fp.hl, fp.eNoN);
    ZeroWeightNoLoad(FaceGeom2(fp, s), fp, 2, af, dof);
  }

  /** The first node loop of both face kernels: h = sum_a N(a) hl(a) and
      F = I + sum_a dl(s + r, a) Nx(q, a). */
  method GatherFace(fp: FacePoint, nd: nat, s: nat) returns (h: real, F: Mat)
    requires FaceShaped(fp, nd, s)
    ensures h == FacePressure(fp)
    ensures F == FaceDefGrad(fp, nd, s)
  {
    h := 0.0;
    F := Identity(nd);
    var a := 0;
    while a < fp.eNoN
      invariant 0 <= a <= fp.eNoN
      invariant h == Interp(fp.N, fp.hl, a)
      invariant F == DefGrad(nd, fp.eNoN, fp.Nx, fp.dl, s, a)
    {
      h := h + fp.N[a] * fp.hl[a];
      F := GradStep(nd, fp.eNoN, fp.Nx, fp.dl, s, a, F);
      a := a + 1;
    }
  }

  /** The residual rows of one node a: lR(r, a) -= wl N(a) nFi(r), r < nd. */
  method AddFaceResidual(g: FaceGeom, fp: FacePoint, nd: nat, a: nat, lR: array2<real>)
    requires GeomShaped(g, nd, fp.eNoN) && |fp.N| == fp.eNoN && a < fp.eNoN
    requires lR.Length0 >= nd && lR.Length1 == fp.eNoN
    modifies lR
    ensures forall r, a' :: 0 <= r < lR.Length0 && 0 <= a' < lR.Length1 ==>
      lR[r, a'] == old(lR[r, a']) + (if r < nd && a' == a then FaceResidual(g, fp, nd, r, a) else 0.0)
  {
    var r := 0;
    while r < nd
      invariant 0 <= r <= nd
      invariant forall r', a' :: 0 <= r' < lR.Length0 && 0 <= a' < lR.Length1 ==>
        lR[r', a'] == old(lR[r', a']) + (if r' < r && a' == a then FaceResidual(g, fp, nd, r', a) else 0.0)
    {
      lR[r, a] := lR[r, a] - g.wl * fp.N[a] * g.nFi[r];
      r := r + 1;
    }
  }

  /** The three skew pairs of b_struct_3d for one node pair (a, b). */
  method AddSkewPairs3(g: FaceGeom, fp: FacePoint, af: real, dof: nat, a: nat, b: nat, lK: array3<real>)
    requires GeomShaped(g, 3, fp.eNoN) && |fp.N| == fp.eNoN && 3 <= dof && a < fp.eNoN && b < fp.eNoN
    requires lK.Length0 == dof * dof && lK.Length1 == fp.eNoN && lK.Length2 == fp.eNoN
    modifies lK
    ensures forall k :: 0 <= k < lK.Length0 ==> lK[k, a, b] == old(lK[k, a, b]) + FaceStiffness(g, fp, 3, af, dof, k, a, b)
    ensures forall k, a', b' :: 0 <= k < lK.Length0 && 0 <= a' < lK.Length1 && 0 <= b' < lK.Length2 && (a' != a || b' != b) ==>
              lK[k, a', b'] == old(lK[k, a', b'])
  {
    var wl := g.wl;
    var k01 := wl * af * fp.N[a] * (g.nFi[1] * g.NxFi[0][b] - g.nFi[0] * g.NxFi[1][b]);
    var k02 := wl * af * fp.N[a] * (g.nFi[2] * g.NxFi[0][b] - g.nFi[0] * g.NxFi[2][b]);
    var k12 := wl * af * fp.N[a] * (g.nFi[2] * g.NxFi[1][b] - g.nFi[1] * g.NxFi[2][b]);
    assert k01 == Ku(g, fp, 3, af, 0, 1, a, b) && k02 == Ku(g, fp, 3, af, 0, 2, a, b) && k12 == Ku(g, fp, 3, af, 1, 2, a, b);
    ghost var K0 := Column(lK, a, b);
    AddSkew(lK, 1, dof, k01, a, b);
    ghost var K1 := Column(lK, a, b);
    AddSkew(lK, 2, 2 * dof, k02, a, b);
    ghost var K2 := Column(lK, a, b);
    AddSkew(lK, dof + 2, 2 * dof + 1, k12, a, b);
    forall k | 0 <= k < lK.Length0
      ensures lK[k, a, b] == old(lK[k, a, b]) + FaceStiffness(g, fp, 3, af, dof, k, a, b)
    {
      assert lK[k, a, b] == K2[k] + SkewDelta(dof + 2, 2 * dof + 1, k12, k);
      assert K2[k] == K1[k] + SkewDelta(2, 2 * dof, k02, k);
      assert K1[k] == K0[k] + SkewDelta(1, dof, k01, k);
      SkewSum3(g, fp, af, dof, k, a, b);
    }
  }

  /** The column lK(:, a, b), as a sequence. */
  ghost function Column(lK: array3<real>, a: nat, b: nat): (c: seq<real>)
    requires a < lK.Length1 && b < lK.Length2
    reads lK
    ensures |c| == lK.Length0 && forall k :: 0 <= k < |c| ==> c[k] == lK[k, a, b]
  {
    seq(lK.Length0, k requires 0 <= k < lK.Length0 reads lK => lK[k, a, b])
  }

  /** What one skew pair adds to row k: v to row p, -v to row q. */
  function SkewDelta(p: nat, q: nat, v: real, k: nat): (d: real)
    requires p != q
    ensures k == p ==> d == v
    ensures k == q ==> d == -v
    ensures k != p && k != q ==> d == 0.0
  {
    if k == p then v else if k == q then -v else 0.0
  }

  /** The three skew pairs of a 3-D face point together make up its load
      stiffness. */
  lemma SkewSum3(g: FaceGeom, fp: FacePoint, af: real, dof: nat, k: nat, a: nat, b: nat)
    requires GeomShaped(g, 3, fp.eNoN) && |fp.N| == fp.eNoN && 3 <= dof && a < fp.eNoN && b < fp.eNoN
    ensures SkewDelta(1, dof, Ku(g, fp, 3, af, 0, 1, a, b), k) + SkewDelta(2, 2 * dof, Ku(g, fp, 3, af, 0, 2, a, b), k)
              + SkewDelta(dof + 2, 2 * dof + 1, Ku(g, fp, 3, af, 1, 2, a, b), k)
            == FaceStiffness(g, fp, 3, af, dof, k, a, b)
  {
    assert KRow(0, 1, dof) == 1 && KRow(1, 0, dof) == dof && KRow(0, 2, dof) == 2;
    assert KRow(2, 0, dof) == 2 * dof && KRow(1, 2, dof) == dof + 2 && KRow(2, 1, dof) == 2 * dof + 1;
  }

  /** Adds v to lK(p, a, b) and subtracts it from lK(q, a, b). */
  method AddSkew(lK: array3<real>, p: nat, q: nat, v: real, a: nat, b: nat)
    requires p != q && p < lK.Length0 && q < lK.Length0 && a < lK.Length1 && b < lK.Length2
    modifies lK
    ensures forall k :: 0 <= k < lK.Length0 ==> lK[k, a, b] == old(lK[k, a, b]) + SkewDelta(p, q, v, k)
    ensures forall k, a', b' :: 0 <= k < lK.Length0 && 0 <= a' < lK.Length1 && 0 <= b' < lK.Length2 && (a' != a || b' != b) ==>
              lK[k, a', b'] == old(lK[k, a', b'])
  {
    lK[p, a, b] := lK[p, a, b] + v;
    lK[q, a, b] := lK[q, a, b] - v;
  }

  /** b_struct_3d: adds one face Gauss point's follower-pressure residual
      and load stiffness into lR and lK. The tangent weight is
      af * beta * dt^2. Inverting a singular F fails and changes nothing. */
  method BStruct3D(tp: TimeParams, dof: nat, s: nat, fp: FacePoint, lR: array2<real>, lK: array3<real>)
    returns (outcome: Outcome)
    requires FaceShaped(fp, 3, s) && 3 <= dof
    requires lR.Length0 >= 3 && lR.Length1 == fp.eNoN
    requires lK.Length0 == dof * dof && lK.Length1 == fp.eNoN && lK.Length2 == fp.eNoN
    modifies lR, lK
    ensures outcome == Pass <==> Det3(FaceDefGrad(fp, 3, s)) != 0.0
    ensures outcome != Pass ==> unchanged(lR) && unchanged(lK)
    ensures outcome == Pass ==>
      forall r, a :: 0 <= r < lR.Length0 && 0 <= a < fp.eNoN ==>
        lR[r, a] == old(lR[r, a]) + (if r < 3 then FaceResidual(FaceGeom3(fp, s), fp, 3, r, a) else 0.0)
    ensures outcome == Pass ==>
      forall k, a, b :: 0 <= k < lK.Length0 && 0 <= a < fp.eNoN && 0 <= b < fp.eNoN ==>
        lK[k, a, b] == old(lK[k, a, b]) + FaceStiffness(FaceGeom3(fp, s), fp, 3, Afu(tp), dof, k, a, b)
  {
    var eNoN := fp.eNoN;
    var af := Afu(tp);
    var h, F := GatherFace(fp, 3, s);
    if Det3(F) == 0.0 {
      return Fail(SingularDefGrad);
    }
    outcome := Pass;
    var g := FaceGeom3(fp, s);
    var a := 0;
    while a < eNoN
      invariant 0 <= a <= eNoN
      invariant forall r, a' :: 0 <= r < lR.Length0 && 0 <= a' < eNoN ==>
        lR[r, a'] == old(lR[r, a']) + (if r < 3 && a' < a then FaceResidual(g, fp, 3, r, a') else 0.0)
      invariant forall k, a', b' :: 0 <= k < lK.Length0 && 0 <= a' < eNoN && 0 <= b' < eNoN ==>
        lK[k, a', b'] == old(lK[k, a', b']) + (if a' < a then FaceStiffness(g, fp, 3, af, dof, k, a', b') else 0.0)
    {
      AddFaceResidual(g, fp, 3, a, lR);
      var b := 0;
      while b < eNoN
        modifies lK
        invariant 0 <= b <= eNoN
        invariant forall k, a', b' :: 0 <= k < lK.Length0 && 0 <= a' < eNoN && 0 <= b' < eNoN ==>
          lK[k, a', b'] == old(lK[k, a', b'])
            + (if a' < a || (a' == a && b' < b) then FaceStiffness(g, fp, 3, af, dof, k, a', b') else 0.0)
      {
        AddSkewPairs3(g, fp, af, dof, a, b, lK);
        b := b + 1;
      }
      a := a + 1;
    }
  }

  /** The single skew pair of b_struct_2d for one node pair (a, b). */
  method AddSkewPair2(g: FaceGeom, fp: FacePoint, af: real, dof: nat, a: nat, b: nat, lK: array3<real>)
    requires GeomShaped(g, 2, fp.eNoN) && |fp.N| == fp.eNoN && 2 <= dof && a < fp.eNoN && b < fp.eNoN
    requires lK.Length0 == dof * dof && lK.Length1 == fp.eNoN && lK.Length2 == fp.eNoN
    modifies lK
    ensures forall k :: 0 <= k < lK.Length0 ==> lK[k, a, b] == old(lK[k, a, b]) + FaceStiffness(g, fp, 2, af, dof, k, a, b)
    ensures forall k, a', b' :: 0 <= k < lK.Length0 && 0 <= a' < lK.Length1 && 0 <= b' < lK.Length2 && (a' != a || b' != b) ==>
              lK[k, a', b'] == old(lK[k, a', b'])
  {
    var k01 := g.wl * af * fp.N[a] * (g.nFi[1] * g.NxFi[0][b] - g.nFi[0] * g.NxFi[1][b]);
    assert k01 == Ku(g, fp, 2, af, 0, 1, a, b);
    AddSkew(lK, 1, dof, k01, a, b);
    forall k | 0 <= k < lK.Length0
      ensures lK[k, a, b] == old(lK[k, a, b]) + FaceStiffness(g, fp, 2, af, dof, k, a, b)
    {
      assert KRow(0, 1, dof) == 1 && KRow(1, 0, dof) == dof;
    }
  }

  /** b_struct_2d: the plane version of BStruct3D. Its tangent weight is
      af * gam * dt (not af * beta * dt^2 as in three dimensions), and it
      touches lR rows 0 and 1 and lK rows 1 and dof only. */
  method BStruct2D(tp: TimeParams, dof: nat, s: nat, fp: FacePoint, lR: array2<real>, lK: array3<real>)
    returns (outcome: Outcome)
    requires FaceShaped(fp, 2, s) && 2 <= dof
    requires lR.Length0 >= 2 && lR.Length1 == fp.eNoN
    requires lK.Length0 == dof * dof && lK.Length1 == fp.eNoN && lK.Length2 == fp.eNoN
    modifies lR, lK
    ensures outcome == Pass <==> Det2(FaceDefGrad(fp, 2, s)) != 0.0
    ensures outcome != Pass ==> unchanged(lR) && unchanged(lK)
    ensures outcome == Pass ==>
      forall r, a :: 0 <= r < lR.Length0 && 0 <= a < fp.eNoN ==>
        lR[r, a] == old(lR[r, a]) + (if r < 2 then FaceResidual(FaceGeom2(fp, s), fp, 2, r, a) else 0.0)
    ensures outcome == Pass ==>
      forall k, a, b :: 0 <= k < lK.Length0 && 0 <= a < fp.eNoN && 0 <= b < fp.eNoN ==>
        lK[k, a, b] == old(lK[k, a, b]) + FaceStiffness(FaceGeom2(fp, s), fp, 2, Afv(tp), dof, k, a, b)
  {
    var eNoN := fp.eNoN;
    var af := Afv(tp);
    var h, F := GatherFace(fp, 2, s);
    if Det2(F) == 0.0 {
      return Fail(SingularDefGrad);
    }
    outcome := Pass;
    var g := FaceGeom2(fp, s);
    var a := 0;
    while a < eNoN
      invariant 0 <= a <= eNoN
      invariant forall r, a' :: 0 <= r < lR.Length0 && 0 <= a' < eNoN ==>
        lR[r, a'] == old(lR[r, a']) + (if r < 2 && a' < a then FaceResidual(g, fp, 2, r, a') else 0.0)
      invariant forall k, a', b' :: 0 <= k < lK.Length0 && 0 <= a' < eNoN && 0 <= b' < eNoN ==>
        lK[k, a', b'] == old(lK[k, a', b']) + (if a' < a then FaceStiffness(g, fp, 2, af, dof, k, a', b') else 0.0)
    {
      AddFaceResidual(g, fp, 2, a, lR);
      var b := 0;
      while b < eNoN
        modifies lK
        invariant 0 <= b <= eNoN
        invariant forall k, a', b' :: 0 <= k < lK.Length0 && 0 <= a' < eNoN && 0 <= b' < eNoN ==>
          lK[k, a', b'] == old(lK[k, a', b'])
            + (if a' < a || (a' == a && b' < b) then FaceStiffness(g, fp, 2, af, dof, k, a', b') else 0.0)
      {
        AddSkewPair2(g, fp, af, dof, a, b, lK);
        b := b + 1;
      }
      a := a + 1;
    }
  }
}
