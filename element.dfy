/** One solid element (eval_dsolid) and the element loop over a mesh
    (construct_dsolid): gather the element's nodal data, evaluate the point
    kernel at every Gauss point, thread the internal G&R variables and
    accumulate the prestress projection, then assemble. */
module SolidElement {
  import opened Numerics
  import opened Params
  import opened Kinematics
  import opened SolidKernel
  import opened State

  // ---------------------------------------------------------------------
  // Mesh and problem data

  /** What the shape-function routine (gnn) returns: the spatial shape
      gradients Nx(i, a) and the Jacobian of the isoparametric map. */
  datatype GnnOut = GnnOut(Nx: Mat, Jac: real)

  /** gnn is foreign code; the model takes it as a parameter of the
      parametric gradients at the Gauss point and the nodal coordinates. */
  type Gnn = (Mat, Mat) -> GnnOut

  ghost predicate GnnShaped(gnn: Gnn, eNoN: nat)
  {
    forall Nxg, xl :: IsMat(gnn(Nxg, xl).Nx, 3, eNoN)
  }

  /** A mesh: connectivity ien[e][a], Gauss weights w[g], shape values
      N[g][a], parametric gradients per Gauss point, whether the shape
      functions are the same at every Gauss point (lShpF), the fiber count
      and per-element fiber directions (empty when absent), the nodal G&R
      properties (empty when absent), whether each element belongs to a
      structural domain, and the two node-to-element adjacency maps
      (element-wise and element-node smoothing). */
  datatype Mesh = Mesh(nEl: nat, eNoN: nat, nG: nat, ien: seq<seq<nat>>, w: seq<real>,
                       N: seq<seq<real>>, NxRef: seq<Mat>, lShpF: bool,
                       nFn: nat, fN: seq<seq<real>>, nGrProps: nat, grProps: Mat,
                       structural: seq<bool>, mapNodeEle: seq<map<int, seq<nat>>>)

  /** The number of fiber directions eval_dsolid works with: at least one. */
  function FiberCount(m: Mesh): (n: nat)
    ensures n >= 1 && (m.nFn != 0 ==> n == m.nFn)
  {
    if m.nFn == 0 then 1 else m.nFn
  }

  ghost predicate MeshShaped(m: Mesh, tnNo: nat)
  {
    |m.ien| == m.nEl
    && (forall e :: 0 <= e < m.nEl ==> |m.ien[e]| == m.eNoN)
    && (forall e, a :: 0 <= e < m.nEl && 0 <= a < |m.ien[e]| ==> m.ien[e][a] < tnNo)
    && |m.w| == m.nG && |m.N| == m.nG && |m.NxRef| == m.nG
    && (forall g :: 0 <= g < m.nG ==> |m.N[g]| == m.eNoN)
    && (|m.fN| == 0 || (|m.fN| == m.nEl && forall e :: 0 <= e < m.nEl ==> |m.fN[e]| >= 3 * FiberCount(m)))
    && (|m.grProps| == 0 || IsMat(m.grProps, m.nGrProps, tnNo))
    && |m.structural| == m.nEl
    && |m.mapNodeEle| == 2
  }

  /** The global data the element routines read: mesh, time coefficients,
      the material of the current domain, the constitutive law and gnn,
      the dof layout (dof unknowns per node starting at row s of the tDof
      rows), the node count, whether G&R and prestress are active, the
      number of internal G&R variables, coordinates x, nodal body forces
      Bf, nodal initial stresses pS0 (empty when absent) and the
      electromechanics coupling values Ya (used when cpld). */
  datatype Problem = Problem(mesh: Mesh, tp: TimeParams, mat: Material, law: Law, gnn: Gnn,
                             dof: nat, tDof: nat, s: nat, tnNo: nat, grEq: bool, pstEq: bool,
                             nGrInt: nat, x: Mat, Bf: Mat, pS0: Mat, cpld: bool, Ya: seq<real>)

  ghost predicate ProblemShaped(pb: Problem)
  {
    MeshShaped(pb.mesh, pb.tnNo) && MaterialShaped(pb.mat) && LawShaped(pb.law)
    && GnnShaped(pb.gnn, pb.mesh.eNoN)
    && 3 <= pb.dof && pb.s + 3 <= pb.tDof
    && IsMat(pb.x, 3, pb.tnNo) && IsMat(pb.Bf, 3, pb.tnNo)
    && (|pb.pS0| == 0 || IsMat(pb.pS0, 6, pb.tnNo))
    && (pb.cpld ==> |pb.Ya| == pb.tnNo)
  }

  /** A global nodal field (Ag, Yg or Dg): tDof rows, one column per node. */
  ghost predicate FieldShaped(pb: Problem, G: Mat)
  {
    IsMat(G, pb.tDof, pb.tnNo)
  }

  // ---------------------------------------------------------------------
  // Local copies

  /** Columns nodes[a] of the first `rows` rows of a global nodal array. */
  function Gather(G: Mat, rows: nat, nodes: seq<nat>, tnNo: nat): (l: Mat)
    requires IsMat(G, rows, tnNo) && forall a :: 0 <= a < |nodes| ==> nodes[a] < tnNo
    ensures IsMat(l, rows, |nodes|)
    ensures forall i, a :: 0 <= i < rows && 0 <= a < |nodes| ==> l[i][a] == G[i][nodes[a]]
  {
    seq(rows, i requires 0 <= i < rows => seq(|nodes|, a requires 0 <= a < |nodes| => G[i][nodes[a]]))
  }

  /** The element's fiber directions fN(i, iFn), zero when the mesh has none. */
  function LocalFibers(m: Mesh, e: nat): (fN: Mat)
    requires |m.fN| != 0 ==> e < |m.fN| && |m.fN[e]| >= 3 * FiberCount(m)
    ensures IsMat(fN, 3, FiberCount(m))
  {
    seq(3, i requires 0 <= i < 3 => seq(FiberCount(m), iFn requires 0 <= iFn < FiberCount(m) =>
      if |m.fN| != 0 then m.fN[e][i + 3 * iFn] else 0.0))
  }

  /** The local element arrays of eval_dsolid. */
  datatype ElementLocal = ElementLocal(xl: Mat, al: Mat, yl: Mat, dl: Mat, bfl: Mat, fN: Mat,
                                       pS0l: Mat, yaL: seq<real>, grPropsL: Mat)

  ghost predicate LocalShaped(pb: Problem, el: ElementLocal)
  {
    var eNoN := pb.mesh.eNoN;
    IsMat(el.xl, 3, eNoN) && IsNodal(el.al, pb.s + 3, eNoN) && IsNodal(el.yl, pb.s + 3, eNoN)
    && IsNodal(el.dl, pb.s + 3, eNoN) && IsNodal(el.bfl, 3, eNoN) && IsNodal(el.pS0l, 6, eNoN)
    && |el.yaL| == eNoN && IsNodal(el.grPropsL, |el.grPropsL|, eNoN)
  }

  /** Local copies of element e: nodal coordinates, acceleration, velocity,
      displacement and body force; fiber directions; initial stresses,
      coupling values and G&R properties, each zero when absent. */
  function LocalElement(pb: Problem, Ag: Mat, Yg: Mat, Dg: Mat, e: nat): (el: ElementLocal)
    requires ProblemShaped(pb) && FieldShaped(pb, Ag) && FieldShaped(pb, Yg) && FieldShaped(pb, Dg)
    requires e < pb.mesh.nEl
    ensures LocalShaped(pb, el)
    ensures IsMat(el.grPropsL, pb.mesh.nGrProps, pb.mesh.eNoN)
  {
    var m := pb.mesh;
    var nodes := m.ien[e];
    ElementLocal(Gather(pb.x, 3, nodes, pb.tnNo),
                 Gather(Ag, pb.tDof, nodes, pb.tnNo), Gather(Yg, pb.tDof, nodes, pb.tnNo),
                 Gather(Dg, pb.tDof, nodes, pb.tnNo), Gather(pb.Bf, 3, nodes, pb.tnNo),
                 LocalFibers(m, e),
                 if |pb.pS0| != 0 then Gather(pb.pS0, 6, nodes, pb.tnNo) else Zeros(6, m.eNoN),
                 seq(m.eNoN, a requires 0 <= a < m.eNoN => if pb.cpld then pb.Ya[nodes[a]] else 0.0),
                 if |m.grProps| != 0 then Gather(m.grProps, m.nGrProps, nodes, pb.tnNo) else Zeros(m.nGrProps, m.eNoN))
  }

  // ---------------------------------------------------------------------
  // Gauss points

  /** The shape gradients and Jacobian in use at Gauss point g: gnn of
      the parametric gradients at g, or at the first point when the shape
      functions are the same everywhere. */
  function GaussGeom(pb: Problem, el: ElementLocal, g: nat): GnnOut
    requires ProblemShaped(pb) && g < pb.mesh.nG
  {
    pb.gnn(pb.mesh.NxRef[if pb.mesh.lShpF then 0 else g], el.xl)
  }

  /** Everything the point kernel receives at Gauss point g; the weight is
      w(g) times the Jacobian. */
  function PointAt(pb: Problem, el: ElementLocal, g: nat): (p: PointIn)
    requires ProblemShaped(pb) && LocalShaped(pb, el) && g < pb.mesh.nG
    ensures PointShaped(p, pb.s) && p.eNoN == pb.mesh.eNoN
  {
    var geo := GaussGeom(pb, el, g);
    PointIn(pb.mesh.eNoN, FiberCount(pb.mesh), pb.mesh.w[g] * geo.Jac, pb.mesh.N[g], geo.Nx,
            el.al, el.yl, el.dl, el.bfl, el.fN, el.pS0l, el.yaL, el.grPropsL)
  }

  /** What stops the evaluation at Gauss point g: a zero mapping Jacobian
      (reported with the element number), or a singular deformation
      gradient. */
  function FailureAt(pb: Problem, el: ElementLocal, e: nat, g: nat): Option<Failure>
    requires ProblemShaped(pb) && LocalShaped(pb, el) && g < pb.mesh.nG
  {
    if GaussGeom(pb, el, g).Jac == 0.0 then Some(ZeroMappingJacobian(e))
    else if Det3(PointF(PointAt(pb, el, g), pb.s)) == 0.0 then Some(SingularDefGrad)
    else None
  }

  /** The first failure among the first n Gauss points. */
  function FirstFailure(pb: Problem, el: ElementLocal, e: nat, n: nat): Option<Failure>
    requires ProblemShaped(pb) && LocalShaped(pb, el) && n <= pb.mesh.nG
  {
    if n == 0 then None
    else if FirstFailure(pb, el, e, n - 1).Some? then FirstFailure(pb, el, e, n - 1)
    else FailureAt(pb, el, e, n - 1)
  }

  function OutcomeOf(f: Option<Failure>): Outcome
  {
    if f.Some? then Fail(f.value) else Pass
  }

  ghost predicate GridShaped(pb: Problem, grid: Grid)
  {
    IsGrid(grid, pb.mesh.nEl, pb.mesh.nG, pb.nGrInt)
  }
  /** The G&R variables of one element: nG slices of nGrInt values. */
  ghost predicate SliceShaped(pb: Problem, ge: seq<seq<real>>)
  {
    IsMat(ge, pb.mesh.nG, pb.nGrInt)
  }


  /** The internal G&R variables the law receives at Gauss point g: the
      stored slice grInt(e, g, .) when G&R is active; otherwise the output
      of the previous point, starting from zeros. */
  function GrIn(pb: Problem, el: ElementLocal, e: nat, ge: seq<seq<real>>, g: nat): (v: seq<real>)
    requires ProblemShaped(pb) && LocalShaped(pb, el) && e < pb.mesh.nEl && g < pb.mesh.nG
    requires SliceShaped(pb, ge)
    ensures |v| == pb.nGrInt
  {
    if pb.grEq then ge[g]
    else if g == 0 then seq(pb.nGrInt, i => 0.0)
    else pb.law(PointLawIn(PointAt(pb, el, g - 1), pb.s, GrIn(pb, el, e, ge, g - 1))).grInt
  }

  function LawOutAt(pb: Problem, el: ElementLocal, e: nat, ge: seq<seq<real>>, g: nat): LawOut
    requires ProblemShaped(pb) && LocalShaped(pb, el) && e < pb.mesh.nEl && g < pb.mesh.nG
    requires SliceShaped(pb, ge)
  {
    pb.law(PointLawIn(PointAt(pb, el, g), pb.s, GrIn(pb, el, e, ge, g)))
  }

  function TangentAt(pb: Problem, el: ElementLocal, e: nat, ge: seq<seq<real>>, g: nat): (t: Tangent)
    requires ProblemShaped(pb) && LocalShaped(pb, el) && e < pb.mesh.nEl && g < pb.mesh.nG
    requires SliceShaped(pb, ge) && FirstFailure(pb, el, e, g + 1) == None
    ensures NodeShaped(t, PointAt(pb, el, g))
  {
    PointTangent(PointAt(pb, el, g), pb.mat, pb.law, pb.s, GrIn(pb, el, e, ge, g))
  }

  /** The point stress recorded for the prestress projection: the elastic
      plus viscous stress in Voigt order when evaluating, else zero. */
  function StressAt(pb: Problem, el: ElementLocal, e: nat, ge: seq<seq<real>>, eval: bool, g: nat): (v: seq<real>)
    requires ProblemShaped(pb) && LocalShaped(pb, el) && e < pb.mesh.nEl && g < pb.mesh.nG
    requires SliceShaped(pb, ge) && FirstFailure(pb, el, e, g + 1) == None
    ensures |v| == 6
  {
    if eval then
      var p := PointAt(pb, el, g);
      ToVoigt(Add3(LawOutAt(pb, el, e, ge, g).S, ViscousStress(PointF(p, pb.s), PointVx(p, pb.s), pb.mat.mu)))
    else seq(6, i => 0.0)
  }

  /** The element residual over the first n Gauss points. */
  function ResidualUpTo(pb: Problem, el: ElementLocal, e: nat, ge: seq<seq<real>>, n: nat, r: nat, a: nat): real
    requires ProblemShaped(pb) && LocalShaped(pb, el) && e < pb.mesh.nEl && n <= pb.mesh.nG
    requires SliceShaped(pb, ge) && FirstFailure(pb, el, e, n) == None && a < pb.mesh.eNoN
  {
    if n == 0 then 0.0
    else ResidualUpTo(pb, el, e, ge, n - 1, r, a)
         + (if r < 3 then KernelResidual(TangentAt(pb, el, e, ge, n - 1), PointAt(pb, el, n - 1), r, a) else 0.0)
  }

  /** The element tangent over the first n Gauss points. */
  function StiffnessUpTo(pb: Problem, el: ElementLocal, e: nat, ge: seq<seq<real>>, n: nat, k: nat, a: nat, b: nat): real
    requires ProblemShaped(pb) && LocalShaped(pb, el) && e < pb.mesh.nEl && n <= pb.mesh.nG
    requires SliceShaped(pb, ge) && FirstFailure(pb, el, e, n) == None
    requires a < pb.mesh.eNoN && b < pb.mesh.eNoN
  {
    if n == 0 then 0.0
    else StiffnessUpTo(pb, el, e, ge, n - 1, k, a, b)
         + KernelStiffness(TangentAt(pb, el, e, ge, n - 1), PointAt(pb, el, n - 1), pb.tp, pb.mat, pb.dof, k, a, b)
  }

  // ---------------------------------------------------------------------
  // Prestress projection

  /** Adds c[a] to v at position nodes[a], for the first n nodes. */
  function Scatter(v: seq<real>, nodes: seq<nat>, c: seq<real>, n: nat): (u: seq<real>)
    requires n <= |nodes| && n <= |c| && forall a :: 0 <= a < |nodes| ==> nodes[a] < |v|
    ensures |u| == |v|
  {
    if n == 0 then v
    else
      var u := Scatter(v, nodes, c, n - 1);
      u[nodes[n - 1] := u[nodes[n - 1]] + c[n - 1]]
  }

  /** w N(a): what node a of a Gauss point adds to the denominator pSa. */
  function MassWeights(w: real, N: seq<real>): (c: seq<real>)
    ensures |c| == |N| && forall a :: 0 <= a < |N| ==> c[a] == w * N[a]
  {
    seq(|N|, a requires 0 <= a < |N| => w * N[a])
  }

  /** w N(a) pSl(i): what it adds to numerator row i of pSn. */
  function StressWeights(w: real, N: seq<real>, f: real): (c: seq<real>)
    ensures |c| == |N| && forall a :: 0 <= a < |N| ==> c[a] == w * N[a] * f
  {
    seq(|N|, a requires 0 <= a < |N| => w * N[a] * f)
  }

  /** pSa after the first n Gauss points, from v0. */
  function MassUpTo(pb: Problem, el: ElementLocal, e: nat, v0: seq<real>, n: nat): (v: seq<real>)
    requires ProblemShaped(pb) && LocalShaped(pb, el) && e < pb.mesh.nEl && n <= pb.mesh.nG
    requires |v0| == pb.tnNo
    ensures |v| == pb.tnNo
  {
    if n == 0 then v0
    else
      var p := PointAt(pb, el, n - 1);
      Scatter(MassUpTo(pb, el, e, v0, n - 1), pb.mesh.ien[e], MassWeights(p.w, p.N), pb.mesh.eNoN)
  }

  /** Row i of pSn after the first n Gauss points, from v0. */
  function PrestressUpTo(pb: Problem, el: ElementLocal, e: nat, ge: seq<seq<real>>, eval: bool, i: nat, v0: seq<real>, n: nat): (v: seq<real>)
    requires ProblemShaped(pb) && LocalShaped(pb, el) && e < pb.mesh.nEl && n <= pb.mesh.nG
    requires SliceShaped(pb, ge) && FirstFailure(pb, el, e, n) == None && i < 6 && |v0| == pb.tnNo
    ensures |v| == pb.tnNo
  {
    if n == 0 then v0
    else
      var p := PointAt(pb, el, n - 1);
      Scatter(PrestressUpTo(pb, el, e, ge, eval, i, v0, n - 1), pb.mesh.ien[e],
              StressWeights(p.w, p.N, StressAt(pb, el, e, ge, eval, n - 1)[i]), pb.mesh.eNoN)
  }

  // ---------------------------------------------------------------------
  // Properties of the Gauss-point specification

  /** A failure-free run of n Gauss points is failure-free on every prefix. */
  lemma {:induction false} FailureFreePrefix(pb: Problem, el: ElementLocal, e: nat, n: nat, k: nat)
    requires ProblemShaped(pb) && LocalShaped(pb, el) && n <= pb.mesh.nG && k <= n
    requires FirstFailure(pb, el, e, n) == None
    ensures FirstFailure(pb, el, e, k) == None
    decreases n
  {
    if k < n {
      FailureFreePrefix(pb, el, e, n - 1, k);
    }
  }

  /** Once a Gauss point has failed, the evaluation reports that failure. */
  lemma {:induction false} FailurePersists(pb: Problem, el: ElementLocal, e: nat, k: nat, n: nat, f: Failure)
    requires ProblemShaped(pb) && LocalShaped(pb, el) && k <= n <= pb.mesh.nG
    requires FirstFailure(pb, el, e, k) == Some(f)
    ensures FirstFailure(pb, el, e, n) == Some(f)
    decreases n
  {
    if k < n {
      FailurePersists(pb, el, e, k, n - 1, f);
    }
  }

  /** The failure of the first failing Gauss point is the element's. */
  lemma FailureStops(pb: Problem, el: ElementLocal, e: nat, g: nat, f: Failure)
    requires ProblemShaped(pb) && LocalShaped(pb, el) && g < pb.mesh.nG
    requires FirstFailure(pb, el, e, g) == None && FirstFailure(pb, el, e, g + 1) == Some(f)
    ensures OutcomeOf(FirstFailure(pb, el, e, pb.mesh.nG)) == Fail(f)
  {
    FailurePersists(pb, el, e, g + 1, pb.mesh.nG, f);
  }

  /** After points that all pass, the next point's failure is the first. */
  lemma FirstFailureNext(pb: Problem, el: ElementLocal, e: nat, g: nat)
    requires ProblemShaped(pb) && LocalShaped(pb, el) && g < pb.mesh.nG && FirstFailure(pb, el, e, g) == None
    ensures FirstFailure(pb, el, e, g + 1) == FailureAt(pb, el, e, g)
  {
  }

  /** The element passes exactly when no Gauss point fails; a Jacobian of
      either sign other than zero is accepted. */
  lemma {:induction false} PassesIffNoPointFails(pb: Problem, el: ElementLocal, e: nat, n: nat)
    requires ProblemShaped(pb) && LocalShaped(pb, el) && n <= pb.mesh.nG
    ensures FirstFailure(pb, el, e, n) == None <==> forall g :: 0 <= g < n ==> FailureAt(pb, el, e, g) == None
    decreases n
  {
    if n > 0 {
      PassesIffNoPointFails(pb, el, e, n - 1);
    }
  }

  /** A zero mapping Jacobian is reported with the element's own number. */
  lemma {:induction false} JacobianFailureNamesElement(pb: Problem, el: ElementLocal, e: nat, n: nat)
    requires ProblemShaped(pb) && LocalShaped(pb, el) && n <= pb.mesh.nG
    requires FirstFailure(pb, el, e, n).Some?
    ensures FirstFailure(pb, el, e, n).value.ZeroMappingJacobian? ==> FirstFailure(pb, el, e, n).value.element == e
    ensures FirstFailure(pb, el, e, n).value.ZeroMappingJacobian? || FirstFailure(pb, el, e, n).value.SingularDefGrad?
    decreases n
  {
    if FirstFailure(pb, el, e, n - 1).Some? {
      JacobianFailureNamesElement(pb, el, e, n - 1);
    }
  }

  lemma {:induction false} SumUpdate(u: seq<real>, i: nat, d: real)
    requires i < |u|
    ensures SeqSum(u[i := u[i] + d]) == SeqSum(u) + d
    decreases |u|
  {
    var u' := u[i := u[i] + d];
    var n := |u|;
    if i == n - 1 {
      assert u'[..n - 1] == u[..n - 1];
    } else {
      SumUpdate(u[..n - 1], i, d);
      assert u'[..n - 1] == u[..n - 1][i := u[i] + d];
    }
  }

  /** Scattering adds exactly the scattered values to the total. */
  lemma {:induction false} ScatterTotal(v: seq<real>, nodes: seq<nat>, c: seq<real>, n: nat)
    requires n <= |nodes| && n <= |c| && forall a :: 0 <= a < |nodes| ==> nodes[a] < |v|
    ensures SeqSum(Scatter(v, nodes, c, n)) == SeqSum(v) + SeqSum(c[..n])
    decreases n
  {
    if n > 0 {
      var u := Scatter(v, nodes, c, n - 1);
      ScatterTotal(v, nodes, c, n - 1);
      SumUpdate(u, nodes[n - 1], c[n - 1]);
      assert c[..n][..n - 1] == c[..n - 1];
    }
  }

  /** Scattering zeros leaves the target as it was. */
  lemma {:induction false} ScatterZeros(v: seq<real>, nodes: seq<nat>, c: seq<real>, n: nat)
    requires n <= |nodes| && n <= |c| && forall a :: 0 <= a < |nodes| ==> nodes[a] < |v|
    requires forall a :: 0 <= a < n ==> c[a] == 0.0
    ensures Scatter(v, nodes, c, n) == v
    decreases n
  {
    if n > 0 {
      ScatterZeros(v, nodes, c, n - 1);
    }
  }

  lemma {:induction false} SumScaled(w: real, N: seq<real>)
    ensures SeqSum(MassWeights(w, N)) == w * SeqSum(N)
    decreases |N|
  {
    if |N| > 0 {
      var n := |N|;
      SumScaled(w, N[..n - 1]);
      var c, c' := MassWeights(w, N), MassWeights(w, N[..n - 1]);
      assert |c'| == n - 1;
      forall a | 0 <= a < n - 1
        ensures c[..n - 1][a] == c'[a]
      {
        assert N[..n - 1][a] == N[a];
      }
      assert c[..n - 1] == c';
    }
  }

  /** The quadrature measure of the first n Gauss points: sum of w(g) J(g). */
  function MeasureUpTo(pb: Problem, el: ElementLocal, n: nat): real
    requires ProblemShaped(pb) && LocalShaped(pb, el) && n <= pb.mesh.nG
  {
    if n == 0 then 0.0 else MeasureUpTo(pb, el, n - 1) + PointAt(pb, el, n - 1).w
  }

  /** With shape functions that sum to one at every Gauss point, the
      prestress denominator gains the element's quadrature measure. */
  lemma {:induction false} MassTotal(pb: Problem, el: ElementLocal, e: nat, v0: seq<real>, n: nat)
    requires ProblemShaped(pb) && LocalShaped(pb, el) && e < pb.mesh.nEl && n <= pb.mesh.nG
    requires |v0| == pb.tnNo
    requires forall g :: 0 <= g < pb.mesh.nG ==> SeqSum(pb.mesh.N[g]) == 1.0
    ensures SeqSum(MassUpTo(pb, el, e, v0, n)) == SeqSum(v0) + MeasureUpTo(pb, el, n)
    decreases n
  {
    if n > 0 {
      var p := PointAt(pb, el, n - 1);
      MassTotal(pb, el, e, v0, n - 1);
      var u, c := MassUpTo(pb, el, e, v0, n - 1), MassWeights(p.w, p.N);
      assert MassUpTo(pb, el, e, v0, n) == Scatter(u, pb.mesh.ien[e], c, pb.mesh.eNoN);
      ScatterTotal(u, pb.mesh.ien[e], c, pb.mesh.eNoN);
      assert c[..pb.mesh.eNoN] == c;
      PointMass(pb, el, n - 1);
    }
  }

  /** What one Gauss point adds to the pSa total is its weight w J, when
      its shape functions sum to one. */
  lemma PointMass(pb: Problem, el: ElementLocal, g: nat)
    requires ProblemShaped(pb) && LocalShaped(pb, el) && g < pb.mesh.nG && SeqSum(pb.mesh.N[g]) == 1.0
    ensures SeqSum(MassWeights(PointAt(pb, el, g).w, PointAt(pb, el, g).N)) == PointAt(pb, el, g).w
  {
    var p := PointAt(pb, el, g);
    SumScaled(p.w, p.N);
  }

  /** Without evaluation the point stresses are zero and the prestress
      numerator is left as it was. */
  lemma {:induction false} PrestressWithoutEval(pb: Problem, el: ElementLocal, e: nat, ge: seq<seq<real>>, i: nat, v0: seq<real>, n: nat)
    requires ProblemShaped(pb) && LocalShaped(pb, el) && e < pb.mesh.nEl && n <= pb.mesh.nG
    requires SliceShaped(pb, ge) && FirstFailure(pb, el, e, n) == None && i < 6 && |v0| == pb.tnNo
    ensures PrestressUpTo(pb, el, e, ge, false, i, v0, n) == v0
    decreases n
  {
    if n > 0 {
      var p := PointAt(pb, el, n - 1);
      PrestressWithoutEval(pb, el, e, ge, i, v0, n - 1);
      ScatterZeros(v0, pb.mesh.ien[e], StressWeights(p.w, p.N, StressAt(pb, el, e, ge, false, n - 1)[i]), pb.mesh.eNoN);
    }
  }

  // ---------------------------------------------------------------------
  // eval_dsolid

  /** ptr(a) = IEN(a, e). */
  method FillPtr(ptr: array<int>, nodes: seq<nat>)
    requires ptr.Length == |nodes|
    modifies ptr
    ensures forall a :: 0 <= a < ptr.Length ==> ptr[a] == nodes[a]
  {
    var a := 0;
    while a < ptr.Length
      invariant 0 <= a <= ptr.Length
      invariant forall a' :: 0 <= a' < a ==> ptr[a'] == nodes[a']
    {
      ptr[a] := nodes[a];
      a := a + 1;
    }
  }

  /** gr_int_g(i) = grInt(e, g, i). */
  method LoadSlice(A: array3<real>, e: nat, g: nat) returns (v: seq<real>)
    requires e < A.Length0 && g < A.Length1
    ensures |v| == A.Length2 && forall i :: 0 <= i < A.Length2 ==> v[i] == A[e, g, i]
  {
    v := [];
    var i := 0;
    while i < A.Length2
      invariant 0 <= i <= A.Length2
      invariant |v| == i && forall i' :: 0 <= i' < i ==> v[i'] == A[e, g, i']
    {
      v := v + [A[e, g, i]];
      i := i + 1;
    }
  }

  /** grInt(e, g, i) = gr_int_g(i). */
  method StoreSlice(A: array3<real>, e: nat, g: nat, v: seq<real>)
    requires e < A.Length0 && g < A.Length1 && |v| == A.Length2
    modifies A
    ensures forall e', g', i :: 0 <= e' < A.Length0 && 0 <= g' < A.Length1 && 0 <= i < A.Length2 ==>
      A[e', g', i] == if e' == e && g' == g then v[i] else old(A[e', g', i])
  {
    var i := 0;
    while i < A.Length2
      invariant 0 <= i <= A.Length2
      invariant forall e', g', i' :: 0 <= e' < A.Length0 && 0 <= g' < A.Length1 && 0 <= i' < A.Length2 ==>
        A[e', g', i'] == if e' == e && g' == g && i' < i then v[i'] else old(A[e', g', i'])
    {
      A[e, g, i] := v[i];
      i := i + 1;
    }
  }

  /** pSn(i, Ac) += wN pSl(i) for every row i. */
  method AddColumn(pSn: array2<real>, Ac: nat, wN: real, pSl: array<real>)
    requires Ac < pSn.Length1 && pSn.Length0 <= pSl.Length
    modifies pSn
    ensures forall i, j :: 0 <= i < pSn.Length0 && 0 <= j < pSn.Length1 ==>
      pSn[i, j] == old(pSn[i, j]) + (if j == Ac then wN * pSl[i] else 0.0)
  {
    var i := 0;
    while i < pSn.Length0
      invariant 0 <= i <= pSn.Length0
      invariant forall i', j :: 0 <= i' < pSn.Length0 && 0 <= j < pSn.Length1 ==>
        pSn[i', j] == old(pSn[i', j]) + (if j == Ac && i' < i then wN * pSl[i'] else 0.0)
    {
      pSn[i, Ac] := pSn[i, Ac] + wN * pSl[i];
      i := i + 1;
    }
  }

  /** The prestress loop of one Gauss point: pSa(Ac) += w N(a) and
      pSn(i, Ac) += w N(a) pSl(i) at every element node. */
  method AddPrestress(pSa: array<real>, pSn: array2<real>, ptr: array<int>, ghost nodes: seq<nat>,
                      w: real, N: seq<real>, pSl: array<real>, ghost mass0: seq<real>, ghost rows0: seq<seq<real>>,
                      ghost f: seq<real>)
    requires ptr.Length == |N| == |nodes| && forall a :: 0 <= a < |nodes| ==> ptr[a] == nodes[a] && nodes[a] < pSa.Length
    requires pSn.Length0 == 6 && pSn.Length1 == pSa.Length && pSl.Length == 6 && pSl != pSa && pSl[..] == f
    requires mass0 == pSa[..] && |rows0| == 6 && |f| == 6
    requires forall i :: 0 <= i < 6 ==> rows0[i] == Row(pSn, i) && |rows0[i]| == pSa.Length
    modifies pSa, pSn
    ensures forall j :: 0 <= j < pSa.Length ==> pSa[j] == Scatter(mass0, nodes, MassWeights(w, N), |N|)[j]
    ensures forall i, j :: 0 <= i < 6 && 0 <= j < pSn.Length1 ==>
      pSn[i, j] == Scatter(rows0[i], nodes, StressWeights(w, N, f[i]), |N|)[j]
  {
    var a := 0;
    while a < |N|
      invariant 0 <= a <= |N|
      invariant forall j :: 0 <= j < pSa.Length ==> pSa[j] == Scatter(mass0, nodes, MassWeights(w, N), a)[j]
      invariant forall i, j :: 0 <= i < 6 && 0 <= j < pSn.Length1 ==>
        pSn[i, j] == Scatter(rows0[i], nodes, StressWeights(w, N, f[i]), a)[j]
    {
      var Ac := ptr[a];
      pSa[Ac] := pSa[Ac] + w * N[a];
      AddColumn(pSn, Ac, w * N[a], pSl);
      a := a + 1;
    }
  }

  /** grInt after the first g Gauss points: with G&R active, the slices
      (e, g') of the points done hold the law's updated variables; every
      other entry keeps its value on entry. */
  ghost predicate GrProgress(pb: Problem, st: ComState, el: ElementLocal, e: nat, grid: Grid, g: nat)
    requires ProblemShaped(pb) && LocalShaped(pb, el) && e < pb.mesh.nEl && g <= pb.mesh.nG
    requires GridShaped(pb, grid) && st.Valid(pb.mesh.nEl, pb.mesh.nG, pb.nGrInt, pb.tnNo)
    reads st.grInt
  {
    forall e', g', i :: 0 <= e' < pb.mesh.nEl && 0 <= g' < pb.mesh.nG && 0 <= i < pb.nGrInt ==>
      st.grInt[e', g', i] == if pb.grEq && e' == e && g' < g then LawOutAt(pb, el, e, grid[e], g').grInt[i] else grid[e'][g'][i]
  }

  /** lR after the first g Gauss points: its entry values plus the points'
      residual when evaluating. */
  ghost predicate ResidualProgress(pb: Problem, el: ElementLocal, e: nat, grid: Grid, eval: bool, g: nat,
                                   lR: array2<real>, lR0: seq<seq<real>>)
    requires ProblemShaped(pb) && LocalShaped(pb, el) && e < pb.mesh.nEl && g <= pb.mesh.nG
    requires GridShaped(pb, grid) && FirstFailure(pb, el, e, g) == None
    requires lR.Length1 == pb.mesh.eNoN && IsMat(lR0, lR.Length0, lR.Length1)
    reads lR
  {
    forall r, a :: 0 <= r < lR.Length0 && 0 <= a < lR.Length1 ==>
      lR[r, a] == lR0[r][a] + (if eval then ResidualUpTo(pb, el, e, grid[e], g, r, a) else 0.0)
  }

  /** lK after the first g Gauss points: its entry values plus the points'
      tangent when evaluating. */
  ghost predicate StiffnessProgress(pb: Problem, el: ElementLocal, e: nat, grid: Grid, eval: bool, g: nat,
                                    lK: array3<real>, lK0: Grid)
    requires ProblemShaped(pb) && LocalShaped(pb, el) && e < pb.mesh.nEl && g <= pb.mesh.nG
    requires GridShaped(pb, grid) && FirstFailure(pb, el, e, g) == None
    requires lK.Length1 == pb.mesh.eNoN && lK.Length2 == pb.mesh.eNoN && IsGrid(lK0, lK.Length0, lK.Length1, lK.Length2)
    reads lK
  {
    forall k, a, b :: 0 <= k < lK.Length0 && 0 <= a < lK.Length1 && 0 <= b < lK.Length2 ==>
      lK[k, a, b] == lK0[k][a][b] + (if eval then StiffnessUpTo(pb, el, e, grid[e], g, k, a, b) else 0.0)
  }

  /** One point's residual contribution carries ResidualProgress from g to
      g + 1; R holds lR's entries before the point. */
  lemma ResidualAdvance(pb: Problem, el: ElementLocal, e: nat, grid: Grid, eval: bool, g: nat,
                        lR: array2<real>, lR0: seq<seq<real>>, R: seq<seq<real>>)
    requires ProblemShaped(pb) && LocalShaped(pb, el) && e < pb.mesh.nEl && g < pb.mesh.nG && GridShaped(pb, grid)
    requires FirstFailure(pb, el, e, g) == None && FirstFailure(pb, el, e, g + 1) == None
    requires lR.Length1 == pb.mesh.eNoN && IsMat(lR0, lR.Length0, lR.Length1) && IsMat(R, lR.Length0, lR.Length1)
    requires forall r, a :: 0 <= r < lR.Length0 && 0 <= a < lR.Length1 ==>
      R[r][a] == lR0[r][a] + (if eval then ResidualUpTo(pb, el, e, grid[e], g, r, a) else 0.0)
    requires forall r, a :: 0 <= r < lR.Length0 && 0 <= a < lR.Length1 ==>
      lR[r, a] == R[r][a] + (if eval && r < 3 then KernelResidual(TangentAt(pb, el, e, grid[e], g), PointAt(pb, el, g), r, a) else 0.0)
    ensures ResidualProgress(pb, el, e, grid, eval, g + 1, lR, lR0)
  {
  }

  /** One point's tangent contribution carries StiffnessProgress from g to
      g + 1; K holds lK's entries before the point. */
  lemma StiffnessAdvance(pb: Problem, el: ElementLocal, e: nat, grid: Grid, eval: bool, g: nat,
                         lK: array3<real>, lK0: Grid, K: Grid)
    requires ProblemShaped(pb) && LocalShaped(pb, el) && e < pb.mesh.nEl && g < pb.mesh.nG && GridShaped(pb, grid)
    requires FirstFailure(pb, el, e, g) == None && FirstFailure(pb, el, e, g + 1) == None
    requires lK.Length1 == pb.mesh.eNoN && lK.Length2 == pb.mesh.eNoN && IsGrid(lK0, lK.Length0, lK.Length1, lK.Length2)
    requires IsGrid(K, lK.Length0, lK.Length1, lK.Length2)
    requires StiffnessSoFar(pb, el, e, grid, eval, g, K, lK0)
    requires KernelAdded(pb, el, e, grid, eval, g, lK, K)
    ensures StiffnessProgress(pb, el, e, grid, eval, g + 1, lK, lK0)
  {
  }

  /** K holds lK0 plus the tangent of the first g points. */
  ghost predicate StiffnessSoFar(pb: Problem, el: ElementLocal, e: nat, grid: Grid, eval: bool, g: nat, K: Grid, lK0: Grid)
    requires ProblemShaped(pb) && LocalShaped(pb, el) && e < pb.mesh.nEl && g <= pb.mesh.nG
    requires GridShaped(pb, grid) && FirstFailure(pb, el, e, g) == None
    requires IsGrid(K, |K|, pb.mesh.eNoN, pb.mesh.eNoN) && IsGrid(lK0, |K|, pb.mesh.eNoN, pb.mesh.eNoN)
  {
    forall k, a, b :: 0 <= k < |K| && 0 <= a < pb.mesh.eNoN && 0 <= b < pb.mesh.eNoN ==>
      K[k][a][b] == lK0[k][a][b] + (if eval then StiffnessUpTo(pb, el, e, grid[e], g, k, a, b) else 0.0)
  }

  /** lK holds K plus the kernel tangent of point g. */
  ghost predicate KernelAdded(pb: Problem, el: ElementLocal, e: nat, grid: Grid, eval: bool, g: nat, lK: array3<real>, K: Grid)
    requires ProblemShaped(pb) && LocalShaped(pb, el) && e < pb.mesh.nEl && g < pb.mesh.nG
    requires GridShaped(pb, grid) && FirstFailure(pb, el, e, g + 1) == None
    requires lK.Length1 == pb.mesh.eNoN && lK.Length2 == pb.mesh.eNoN && IsGrid(K, lK.Length0, lK.Length1, lK.Length2)
    reads lK
  {
    PointTangentAdded(TangentAt(pb, el, e, grid[e], g), PointAt(pb, el, g), pb.tp, pb.mat, pb.dof, eval, lK, K)
  }

  /** lK holds K plus, when evaluating, the kernel tangent t at point p. */
  ghost predicate PointTangentAdded(t: Tangent, p: PointIn, tp: TimeParams, m: Material, dof: nat, eval: bool,
                                    lK: array3<real>, K: Grid)
    requires NodeShaped(t, p) && 3 <= dof
    requires lK.Length1 == p.eNoN && lK.Length2 == p.eNoN && IsGrid(K, lK.Length0, lK.Length1, lK.Length2)
    reads lK
  {
    forall k, a, b :: 0 <= k < lK.Length0 && 0 <= a < lK.Length1 && 0 <= b < lK.Length2 ==>
      lK[k, a, b] == K[k][a][b] + (if eval then KernelStiffness(t, p, tp, m, dof, k, a, b) else 0.0)
  }

  /** pSa and pSn after the first g Gauss points: their projections when
      prestressing, else their entry values. */
  ghost predicate MassProgress(pb: Problem, st: ComState, el: ElementLocal, e: nat, g: nat, mass0: seq<real>)
    requires ProblemShaped(pb) && LocalShaped(pb, el) && e < pb.mesh.nEl && g <= pb.mesh.nG
    requires st.Valid(pb.mesh.nEl, pb.mesh.nG, pb.nGrInt, pb.tnNo) && |mass0| == pb.tnNo
    reads st.pSa
  {
    forall j :: 0 <= j < pb.tnNo ==> st.pSa[j] == if pb.pstEq then MassUpTo(pb, el, e, mass0, g)[j] else mass0[j]
  }

  ghost predicate StressProgress(pb: Problem, st: ComState, el: ElementLocal, e: nat, grid: Grid, eval: bool, g: nat,
                                 rows0: seq<seq<real>>)
    requires ProblemShaped(pb) && LocalShaped(pb, el) && e < pb.mesh.nEl && g <= pb.mesh.nG
    requires GridShaped(pb, grid) && st.Valid(pb.mesh.nEl, pb.mesh.nG, pb.nGrInt, pb.tnNo)
    requires FirstFailure(pb, el, e, g) == None && IsMat(rows0, 6, pb.tnNo)
    reads st.pSn
  {
    forall i, j :: 0 <= i < 6 && 0 <= j < pb.tnNo ==>
      st.pSn[i, j] == if pb.pstEq then PrestressUpTo(pb, el, e, grid[e], eval, i, rows0[i], g)[j] else rows0[i][j]
  }

  /** pSa and pSn after the first g Gauss points: with prestressing on,
      the lumped mass and the weighted stresses of the points done are
      added at the element's nodes. */
  ghost predicate PrestressProgress(pb: Problem, st: ComState, el: ElementLocal, e: nat, grid: Grid, eval: bool, g: nat,
                                    mass0: seq<real>, rows0: seq<seq<real>>)
    requires ProblemShaped(pb) && LocalShaped(pb, el) && e < pb.mesh.nEl && g <= pb.mesh.nG
    requires GridShaped(pb, grid) && st.Valid(pb.mesh.nEl, pb.mesh.nG, pb.nGrInt, pb.tnNo)
    requires FirstFailure(pb, el, e, g) == None
    requires |mass0| == pb.tnNo && IsMat(rows0, 6, pb.tnNo)
    reads st.pSa, st.pSn
  {
    MassProgress(pb, st, el, e, g, mass0) && StressProgress(pb, st, el, e, grid, eval, g, rows0)
  }

  /** One point's mass scatter carries MassProgress from g to g + 1; M
      holds pSa before the point. */
  lemma MassAdvance(pb: Problem, st: ComState, el: ElementLocal, e: nat, g: nat, mass0: seq<real>, M: seq<real>)
    requires ProblemShaped(pb) && LocalShaped(pb, el) && e < pb.mesh.nEl && g < pb.mesh.nG
    requires st.Valid(pb.mesh.nEl, pb.mesh.nG, pb.nGrInt, pb.tnNo) && |mass0| == pb.tnNo && pb.pstEq
    requires |M| == pb.tnNo && forall j :: 0 <= j < pb.tnNo ==> M[j] == MassUpTo(pb, el, e, mass0, g)[j]
    requires forall j :: 0 <= j < pb.tnNo ==>
      st.pSa[j] == Scatter(M, pb.mesh.ien[e], MassWeights(PointAt(pb, el, g).w, PointAt(pb, el, g).N), pb.mesh.eNoN)[j]
    ensures MassProgress(pb, st, el, e, g + 1, mass0)
  {
    assert M == MassUpTo(pb, el, e, mass0, g);
  }

  /** One point's stress scatter carries StressProgress from g to g + 1;
      rows holds the rows of pSn before the point. */
  lemma StressAdvance(pb: Problem, st: ComState, el: ElementLocal, e: nat, grid: Grid, eval: bool, g: nat,
                      rows0: seq<seq<real>>, rows: seq<seq<real>>)
    requires ProblemShaped(pb) && LocalShaped(pb, el) && e < pb.mesh.nEl && g < pb.mesh.nG
    requires GridShaped(pb, grid) && st.Valid(pb.mesh.nEl, pb.mesh.nG, pb.nGrInt, pb.tnNo)
    requires FirstFailure(pb, el, e, g) == None && FirstFailure(pb, el, e, g + 1) == None
    requires IsMat(rows0, 6, pb.tnNo) && pb.pstEq && IsMat(rows, 6, pb.tnNo)
    requires forall i, j :: 0 <= i < 6 && 0 <= j < pb.tnNo ==>
      rows[i][j] == PrestressUpTo(pb, el, e, grid[e], eval, i, rows0[i], g)[j]
    requires forall i, j :: 0 <= i < 6 && 0 <= j < pb.tnNo ==>
      st.pSn[i, j] == Scatter(rows[i], pb.mesh.ien[e],
                              StressWeights(PointAt(pb, el, g).w, PointAt(pb, el, g).N, StressAt(pb, el, e, grid[e], eval, g)[i]),
                              pb.mesh.eNoN)[j]
    ensures StressProgress(pb, st, el, e, grid, eval, g + 1, rows0)
  {
    forall i | 0 <= i < 6
      ensures rows[i] == PrestressUpTo(pb, el, e, grid[e], eval, i, rows0[i], g)
    {
    }
  }

  /** The accumulated state of eval_dsolid after the first g Gauss points,
      relative to the snapshots taken on entry. */
  ghost predicate Progress(pb: Problem, st: ComState, el: ElementLocal, e: nat, grid: Grid, eval: bool, g: nat,
                           lR: array2<real>, lK: array3<real>, lR0: seq<seq<real>>, lK0: Grid,
                           mass0: seq<real>, rows0: seq<seq<real>>)
    requires ProblemShaped(pb) && LocalShaped(pb, el) && e < pb.mesh.nEl && g <= pb.mesh.nG
    requires GridShaped(pb, grid) && st.Valid(pb.mesh.nEl, pb.mesh.nG, pb.nGrInt, pb.tnNo)
    requires lR.Length1 == pb.mesh.eNoN && lK.Length1 == pb.mesh.eNoN && lK.Length2 == pb.mesh.eNoN
    requires IsMat(lR0, lR.Length0, lR.Length1) && IsGrid(lK0, lK.Length0, lK.Length1, lK.Length2)
    requires |mass0| == pb.tnNo && IsMat(rows0, 6, pb.tnNo)
    reads st.grInt, st.pSa, st.pSn, lR, lK
  {
    FirstFailure(pb, el, e, g) == None
    && GrProgress(pb, st, el, e, grid, g)
    && ResidualProgress(pb, el, e, grid, eval, g, lR, lR0)
    && StiffnessProgress(pb, el, e, grid, eval, g, lK, lK0)
    && PrestressProgress(pb, st, el, e, grid, eval, g, mass0, rows0)
  }

  /** The shared context of the Gauss-point methods: well-shaped problem,
      local copies, element number, grid snapshot and state arrays. */
  ghost predicate ElementCtx(pb: Problem, st: ComState, el: ElementLocal, e: nat, grid: Grid)
  {
    ProblemShaped(pb) && LocalShaped(pb, el) && e < pb.mesh.nEl && GridShaped(pb, grid)
    && st.Valid(pb.mesh.nEl, pb.mesh.nG, pb.nGrInt, pb.tnNo)
  }

  /** The element arrays lR (dof x eNoN) and lK (dof*dof x eNoN x eNoN),
      distinct from the state arrays of the same shape. */
  ghost predicate BlockCtx(pb: Problem, st: ComState, lR: array2<real>, lK: array3<real>)
  {
    lR.Length0 == pb.dof && lR.Length1 == pb.mesh.eNoN && lR != st.pSn
    && lK.Length0 == pb.dof * pb.dof && lK.Length1 == pb.mesh.eNoN && lK.Length2 == pb.mesh.eNoN
    && lK != st.grInt
  }

  /** The point data and G&R variables of Gauss point g: the stored slice
      grInt(e, g, .) when G&R is active, else the thread from the previous
      point. */
  method PointInputs(pb: Problem, st: ComState, el: ElementLocal, e: nat, ghost grid: Grid, g: nat,
                     Nx: Mat, Jac: real, grG: seq<real>)
    returns (p: PointIn, grIn: seq<real>)
    requires ElementCtx(pb, st, el, e, grid) && g < pb.mesh.nG
    requires GaussGeom(pb, el, g) == GnnOut(Nx, Jac)
    requires !pb.grEq ==> grG == GrIn(pb, el, e, grid[e], g)
    requires pb.grEq ==> forall i :: 0 <= i < pb.nGrInt ==> st.grInt[e, g, i] == grid[e][g][i]
    ensures p == PointAt(pb, el, g) && grIn == GrIn(pb, el, e, grid[e], g)
  {
    p := PointIn(pb.mesh.eNoN, FiberCount(pb.mesh), pb.mesh.w[g] * Jac, pb.mesh.N[g], Nx,
                 el.al, el.yl, el.dl, el.bfl, el.fN, el.pS0l, el.yaL, el.grPropsL);
    grIn := grG;
    if pb.grEq {
      grIn := LoadSlice(st.grInt, e, g);
      assert grIn == grid[e][g];
    }
  }

  /** What a passing Gauss point g leaves: the law's updated variables,
      the point's stress in pSl, and the residual and tangent of the
      element carried from g to g + 1 points. */
  ghost predicate PointCarried(pb: Problem, el: ElementLocal, e: nat, grid: Grid, eval: bool, g: nat, grG': seq<real>,
                               pSl: array<real>, lR: array2<real>, lK: array3<real>, lR0: seq<seq<real>>, lK0: Grid)
    requires ProblemShaped(pb) && LocalShaped(pb, el) && e < pb.mesh.nEl && g < pb.mesh.nG && GridShaped(pb, grid)
    requires FirstFailure(pb, el, e, g + 1) == None
    requires lR.Length1 == pb.mesh.eNoN && lK.Length1 == pb.mesh.eNoN && lK.Length2 == pb.mesh.eNoN
    requires IsMat(lR0, lR.Length0, lR.Length1) && IsGrid(lK0, lK.Length0, lK.Length1, lK.Length2)
    reads pSl, lR, lK
  {
    grG' == LawOutAt(pb, el, e, grid[e], g).grInt
    && pSl[..] == StressAt(pb, el, e, grid[e], eval, g)
    && ResidualProgress(pb, el, e, grid, eval, g + 1, lR, lR0)
    && StiffnessProgress(pb, el, e, grid, eval, g + 1, lK, lK0)
  }

  /** The kernel part of one Gauss point: reset pSl and run the point
      kernel on the point's data and G&R variables. */
  method PointKernel(pb: Problem, st: ComState, el: ElementLocal, e: nat, ghost grid: Grid, eval: bool, g: nat,
                     Nx: Mat, Jac: real, grG: seq<real>, pSl: array<real>, lR: array2<real>, lK: array3<real>,
                     ghost lR0: seq<seq<real>>, ghost lK0: Grid)
    returns (outcome: Outcome, grG': seq<real>)
    requires ElementCtx(pb, st, el, e, grid) && g < pb.mesh.nG
    requires GaussGeom(pb, el, g) == GnnOut(Nx, Jac) && Jac != 0.0
    requires FirstFailure(pb, el, e, g) == None
    requires !pb.grEq ==> grG == GrIn(pb, el, e, grid[e], g)
    requires pb.grEq ==> forall i :: 0 <= i < pb.nGrInt ==> st.grInt[e, g, i] == grid[e][g][i]
    requires pSl.Length == 6
    requires BlockCtx(pb, st, lR, lK)
    requires IsMat(lR0, lR.Length0, lR.Length1) && IsGrid(lK0, lK.Length0, lK.Length1, lK.Length2)
    requires ResidualProgress(pb, el, e, grid, eval, g, lR, lR0)
    requires StiffnessProgress(pb, el, e, grid, eval, g, lK, lK0)
    modifies pSl, lR, lK
    ensures outcome == Pass <==> FailureAt(pb, el, e, g) == None
    ensures outcome != Pass ==> outcome == Fail(SingularDefGrad)
    ensures outcome == Pass ==> FirstFailure(pb, el, e, g + 1) == None
    ensures outcome == Pass ==> PointCarried(pb, el, e, grid, eval, g, grG', pSl, lR, lK, lR0, lK0)
  {
    var p, grIn := PointInputs(pb, st, el, e, grid, g, Nx, Jac, grG);
    pSl[0] := 0.0;
    pSl[1] := 0.0;
    pSl[2] := 0.0;
    pSl[3] := 0.0;
    pSl[4] := 0.0;
    pSl[5] := 0.0;
    assert pSl[..] == seq(6, i => 0.0);
    outcome, grG' := KernelAt(pb, el, e, grid, eval, g, p, grIn, pSl, lR, lK, lR0, lK0);
  }

  /** struct_3d at Gauss point g on that point's data and G&R variables:
      it fails exactly at a singular F, and otherwise carries the residual
      and tangent of the element from g to g + 1 points. */
  method KernelAt(pb: Problem, el: ElementLocal, e: nat, ghost grid: Grid, eval: bool, g: nat,
                  p: PointIn, grIn: seq<real>, pSl: array<real>, lR: array2<real>, lK: array3<real>,
                  ghost lR0: seq<seq<real>>, ghost lK0: Grid)
    returns (outcome: Outcome, grG': seq<real>)
    requires ProblemShaped(pb) && LocalShaped(pb, el) && e < pb.mesh.nEl && g < pb.mesh.nG && GridShaped(pb, grid)
    requires FirstFailure(pb, el, e, g) == None && GaussGeom(pb, el, g).Jac != 0.0
    requires p == PointAt(pb, el, g) && grIn == GrIn(pb, el, e, grid[e], g)
    requires pSl.Length == 6 && pSl[..] == seq(6, i => 0.0)
    requires lR.Length0 == pb.dof && lR.Length1 == pb.mesh.eNoN
    requires lK.Length0 == pb.dof * pb.dof && lK.Length1 == pb.mesh.eNoN && lK.Length2 == pb.mesh.eNoN
    requires IsMat(lR0, lR.Length0, lR.Length1) && IsGrid(lK0, lK.Length0, lK.Length1, lK.Length2)
    requires ResidualProgress(pb, el, e, grid, eval, g, lR, lR0)
    requires StiffnessProgress(pb, el, e, grid, eval, g, lK, lK0)
    modifies pSl, lR, lK
    ensures outcome == Pass <==> FailureAt(pb, el, e, g) == None
    ensures outcome != Pass ==> outcome == Fail(SingularDefGrad)
    ensures outcome == Pass ==> FirstFailure(pb, el, e, g + 1) == None
    ensures outcome == Pass ==> PointCarried(pb, el, e, grid, eval, g, grG', pSl, lR, lK, lR0, lK0)
  {
    ghost var R, K := Rows(lR), Grid3(lK);
    outcome, grG' := Struct3D(pb.tp, pb.mat, pb.law, pb.s, pb.dof, eval, p, grIn, pSl, lR, lK);
    if outcome != Pass {
      return;
    }
    assert FirstFailure(pb, el, e, g + 1) == None;
    PointAdvance(pb, el, e, grid, eval, g, p, grIn, lR, lK, lR0, lK0, R, K);
  }

  /** The residual and tangent of the element carried from g to g + 1
      points, once the kernel has added point g's share to the snapshots R
      and K of lR and lK. */
  lemma PointAdvance(pb: Problem, el: ElementLocal, e: nat, grid: Grid, eval: bool, g: nat,
                     p: PointIn, grIn: seq<real>, lR: array2<real>, lK: array3<real>,
                     lR0: seq<seq<real>>, lK0: Grid, R: seq<seq<real>>, K: Grid)
    requires ProblemShaped(pb) && LocalShaped(pb, el) && e < pb.mesh.nEl && g < pb.mesh.nG && GridShaped(pb, grid)
    requires FirstFailure(pb, el, e, g) == None && FirstFailure(pb, el, e, g + 1) == None
    requires p == PointAt(pb, el, g) && grIn == GrIn(pb, el, e, grid[e], g)
    requires lR.Length0 == pb.dof && lR.Length1 == pb.mesh.eNoN
    requires lK.Length0 == pb.dof * pb.dof && lK.Length1 == pb.mesh.eNoN && lK.Length2 == pb.mesh.eNoN
    requires IsMat(lR0, lR.Length0, lR.Length1) && IsGrid(lK0, lK.Length0, lK.Length1, lK.Length2)
    requires IsMat(R, lR.Length0, lR.Length1) && IsGrid(K, lK.Length0, lK.Length1, lK.Length2)
    requires forall r, a :: 0 <= r < lR.Length0 && 0 <= a < lR.Length1 ==>
      R[r][a] == lR0[r][a] + (if eval then ResidualUpTo(pb, el, e, grid[e], g, r, a) else 0.0)
    requires StiffnessSoFar(pb, el, e, grid, eval, g, K, lK0)
    requires forall r, a :: 0 <= r < lR.Length0 && 0 <= a < lR.Length1 ==>
      lR[r, a] == R[r][a] + (if eval && r < 3 then KernelResidual(PointTangent(p, pb.mat, pb.law, pb.s, grIn), p, r, a) else 0.0)
    requires forall k, a, b :: 0 <= k < lK.Length0 && 0 <= a < lK.Length1 && 0 <= b < lK.Length2 ==>
      lK[k, a, b] == K[k][a][b] + (if eval then KernelStiffness(PointTangent(p, pb.mat, pb.law, pb.s, grIn), p, pb.tp, pb.mat, pb.dof, k, a, b) else 0.0)
    ensures ResidualProgress(pb, el, e, grid, eval, g + 1, lR, lR0)
    ensures StiffnessProgress(pb, el, e, grid, eval, g + 1, lK, lK0)
  {
    assert TangentAt(pb, el, e, grid[e], g) == PointTangent(p, pb.mat, pb.law, pb.s, grIn);
    ResidualAdvance(pb, el, e, grid, eval, g, lR, lR0, R);
    StiffnessAdvance(pb, el, e, grid, eval, g, lK, lK0, K);
  }

  /** Store the law's updated variables in grInt(e, g, .) when G&R is active. */
  method StorePoint(pb: Problem, st: ComState, el: ElementLocal, e: nat, ghost grid: Grid, g: nat, v: seq<real>)
    requires ElementCtx(pb, st, el, e, grid) && g < pb.mesh.nG
    requires v == LawOutAt(pb, el, e, grid[e], g).grInt
    requires GrProgress(pb, st, el, e, grid, g)
    modifies st.grInt
    ensures GrProgress(pb, st, el, e, grid, g + 1)
  {
    if pb.grEq {
      StoreSlice(st.grInt, e, g, v);
    }
  }

  /** Add the point's share to the prestress projection when prestressing. */
  method ProjectPoint(pb: Problem, st: ComState, el: ElementLocal, e: nat, ghost grid: Grid, eval: bool, g: nat,
                      ptr: array<int>, pSl: array<real>, ghost mass0: seq<real>, ghost rows0: seq<seq<real>>)
    requires ElementCtx(pb, st, el, e, grid) && g < pb.mesh.nG
    requires FirstFailure(pb, el, e, g + 1) == None
    requires ptr.Length == pb.mesh.eNoN && forall a :: 0 <= a < ptr.Length ==> ptr[a] == pb.mesh.ien[e][a]
    requires pSl.Length == 6 && pSl != st.pSa && pSl[..] == StressAt(pb, el, e, grid[e], eval, g)
    requires |mass0| == pb.tnNo && IsMat(rows0, 6, pb.tnNo)
    requires PrestressProgress(pb, st, el, e, grid, eval, g, mass0, rows0)
    modifies st.pSa, st.pSn
    ensures PrestressProgress(pb, st, el, e, grid, eval, g + 1, mass0, rows0)
  {
    if pb.pstEq {
      var p := PointAt(pb, el, g);
      ghost var rows := seq(6, i requires 0 <= i < 6 reads st.pSn => Row(st.pSn, i));
      ghost var M := st.pSa[..];
      AddPrestress(st.pSa, st.pSn, ptr, pb.mesh.ien[e], p.w, p.N, pSl, M, rows, pSl[..]);
      MassAdvance(pb, st, el, e, g, mass0, M);
      StressAdvance(pb, st, el, e, grid, eval, g, rows0, rows);
    }
  }
  /** The shape gradients and Jacobian of Gauss point g: gnn is called at
      the first point and, unless the shape functions are shared, at every
      point; a zero Jacobian stops the element. */
  method ShapeAt(pb: Problem, el: ElementLocal, e: nat, g: nat, Nx: Mat, Jac: real)
    returns (outcome: Outcome, Nx': Mat, Jac': real)
    requires ProblemShaped(pb) && LocalShaped(pb, el) && e < pb.mesh.nEl && g < pb.mesh.nG
    requires FirstFailure(pb, el, e, g) == None
    requires g > 0 ==> Jac != 0.0 && GnnOut(Nx, Jac) == GaussGeom(pb, el, g - 1)
    ensures outcome != Pass ==> outcome == OutcomeOf(FirstFailure(pb, el, e, pb.mesh.nG))
    ensures outcome != Pass ==> outcome == Fail(ZeroMappingJacobian(e))
    ensures outcome == Pass ==> Jac' != 0.0 && GnnOut(Nx', Jac') == GaussGeom(pb, el, g)
  {
    outcome, Nx', Jac' := Pass, Nx, Jac;
    if g == 0 || !pb.mesh.lShpF {
      var geo := pb.gnn(pb.mesh.NxRef[g], el.xl);
      if geo.Jac == 0.0 {
        FirstFailureNext(pb, el, e, g);
        FailureStops(pb, el, e, g, ZeroMappingJacobian(e));
        return Fail(ZeroMappingJacobian(e)), Nx', Jac';
      }
      Nx', Jac' := geo.Nx, geo.Jac;
    }
  }

  /** The work of a Gauss point whose shape gradients are known: run the
      point kernel, store the G&R variables and project the prestress. */
  method PointUpdate(pb: Problem, st: ComState, el: ElementLocal, e: nat, ghost grid: Grid, eval: bool, g: nat,
                     Nx: Mat, Jac: real, grG: seq<real>, ptr: array<int>, pSl: array<real>,
                     lR: array2<real>, lK: array3<real>, ghost lR0: seq<seq<real>>, ghost lK0: Grid,
                     ghost mass0: seq<real>, ghost rows0: seq<seq<real>>)
    returns (outcome: Outcome, grG': seq<real>)
    requires ElementCtx(pb, st, el, e, grid) && g < pb.mesh.nG
    requires ptr.Length == pb.mesh.eNoN && forall a :: 0 <= a < ptr.Length ==> ptr[a] == pb.mesh.ien[e][a]
    requires pSl.Length == 6 && pSl != st.pSa
    requires BlockCtx(pb, st, lR, lK)
    requires IsMat(lR0, lR.Length0, lR.Length1) && IsGrid(lK0, lK.Length0, lK.Length1, lK.Length2)
    requires |mass0| == pb.tnNo && IsMat(rows0, 6, pb.tnNo)
    requires Jac != 0.0 && GnnOut(Nx, Jac) == GaussGeom(pb, el, g)
    requires !pb.grEq ==> grG == GrIn(pb, el, e, grid[e], g)
    requires Progress(pb, st, el, e, grid, eval, g, lR, lK, lR0, lK0, mass0, rows0)
    modifies st.grInt, st.pSa, st.pSn, pSl, lR, lK
    ensures outcome != Pass ==> outcome == OutcomeOf(FirstFailure(pb, el, e, pb.mesh.nG))
    ensures outcome == Pass && !pb.grEq && g + 1 < pb.mesh.nG ==> grG' == GrIn(pb, el, e, grid[e], g + 1)
    ensures outcome == Pass ==> Progress(pb, st, el, e, grid, eval, g + 1, lR, lK, lR0, lK0, mass0, rows0)
  {
    outcome, grG' := PointKernel(pb, st, el, e, grid, eval, g, Nx, Jac, grG, pSl, lR, lK, lR0, lK0);
    if outcome != Pass {
      FirstFailureNext(pb, el, e, g);
      FailureStops(pb, el, e, g, SingularDefGrad);
      return;
    }
    StorePoint(pb, st, el, e, grid, g, grG');
    ProjectPoint(pb, st, el, e, grid, eval, g, ptr, pSl, mass0, rows0);
  }

  /** One pass of the Gauss loop: recompute the shape gradients unless they
      are shared, stop on a zero mapping Jacobian, then do the point's work. */
  method GaussStep(pb: Problem, st: ComState, el: ElementLocal, e: nat, ghost grid: Grid, eval: bool, g: nat,
                   Nx: Mat, Jac: real, grG: seq<real>, ptr: array<int>, pSl: array<real>,
                   lR: array2<real>, lK: array3<real>, ghost lR0: seq<seq<real>>, ghost lK0: Grid,
                   ghost mass0: seq<real>, ghost rows0: seq<seq<real>>)
    returns (outcome: Outcome, Nx': Mat, Jac': real, grG': seq<real>)
    requires ElementCtx(pb, st, el, e, grid) && g < pb.mesh.nG
    requires ptr.Length == pb.mesh.eNoN && forall a :: 0 <= a < ptr.Length ==> ptr[a] == pb.mesh.ien[e][a]
    requires pSl.Length == 6 && pSl != st.pSa
    requires BlockCtx(pb, st, lR, lK)
    requires IsMat(lR0, lR.Length0, lR.Length1) && IsGrid(lK0, lK.Length0, lK.Length1, lK.Length2)
    requires |mass0| == pb.tnNo && IsMat(rows0, 6, pb.tnNo)
    requires g > 0 ==> Jac != 0.0 && GnnOut(Nx, Jac) == GaussGeom(pb, el, g - 1)
    requires !pb.grEq ==> grG == GrIn(pb, el, e, grid[e], g)
    requires Progress(pb, st, el, e, grid, eval, g, lR, lK, lR0, lK0, mass0, rows0)
    modifies st.grInt, st.pSa, st.pSn, pSl, lR, lK
    ensures outcome != Pass ==> outcome == OutcomeOf(FirstFailure(pb, el, e, pb.mesh.nG))
    ensures outcome == Pass ==> Jac' != 0.0 && GnnOut(Nx', Jac') == GaussGeom(pb, el, g)
    ensures outcome == Pass && !pb.grEq && g + 1 < pb.mesh.nG ==> grG' == GrIn(pb, el, e, grid[e], g + 1)
    ensures outcome == Pass ==> Progress(pb, st, el, e, grid, eval, g + 1, lR, lK, lR0, lK0, mass0, rows0)
  {
    outcome, Nx', Jac' := ShapeAt(pb, el, e, g, Nx, Jac);
    if outcome != Pass {
      return outcome, Nx', Jac', grG;
    }
    outcome, grG' := PointUpdate(pb, st, el, e, grid, eval, g, Nx', Jac', grG, ptr, pSl, lR, lK, lR0, lK0, mass0, rows0);
  }

  /** The Gauss loop of eval_dsolid. */
  method GaussLoop(pb: Problem, st: ComState, el: ElementLocal, e: nat, ghost grid: Grid, eval: bool,
                   ptr: array<int>, lR: array2<real>, lK: array3<real>, ghost lR0: seq<seq<real>>, ghost lK0: Grid,
                   ghost mass0: seq<real>, ghost rows0: seq<seq<real>>)
    returns (outcome: Outcome)
    requires ElementCtx(pb, st, el, e, grid)
    requires ptr.Length == pb.mesh.eNoN && forall a :: 0 <= a < ptr.Length ==> ptr[a] == pb.mesh.ien[e][a]
    requires BlockCtx(pb, st, lR, lK)
    requires IsMat(lR0, lR.Length0, lR.Length1) && IsGrid(lK0, lK.Length0, lK.Length1, lK.Length2)
    requires |mass0| == pb.tnNo && IsMat(rows0, 6, pb.tnNo)
    requires Progress(pb, st, el, e, grid, eval, 0, lR, lK, lR0, lK0, mass0, rows0)
    modifies st.grInt, st.pSa, st.pSn, lR, lK
    ensures outcome == OutcomeOf(FirstFailure(pb, el, e, pb.mesh.nG))
    ensures outcome == Pass ==> Progress(pb, st, el, e, grid, eval, pb.mesh.nG, lR, lK, lR0, lK0, mass0, rows0)
  {
    var pSl := new real[6];
    var Nx: Mat, Jac := [], 0.0;
    var grG: seq<real> := seq(pb.nGrInt, i => 0.0);
    for g := 0 to pb.mesh.nG
      invariant g > 0 ==> Jac != 0.0 && GnnOut(Nx, Jac) == GaussGeom(pb, el, g - 1)
      invariant !pb.grEq && g < pb.mesh.nG ==> grG == GrIn(pb, el, e, grid[e], g)
      invariant Progress(pb, st, el, e, grid, eval, g, lR, lK, lR0, lK0, mass0, rows0)
    {
      outcome, Nx, Jac, grG := GaussStep(pb, st, el, e, grid, eval, g, Nx, Jac, grG, ptr, pSl, lR, lK, lR0, lK0, mass0, rows0);
      if outcome != Pass {
        return;
      }
    }
    outcome := Pass;
  }

  /** Before the first Gauss point nothing has been added. */
  lemma ProgressStart(pb: Problem, st: ComState, el: ElementLocal, e: nat, eval: bool,
                      lR: array2<real>, lK: array3<real>)
    requires ProblemShaped(pb) && LocalShaped(pb, el) && e < pb.mesh.nEl
    requires st.Valid(pb.mesh.nEl, pb.mesh.nG, pb.nGrInt, pb.tnNo)
    requires lR.Length1 == pb.mesh.eNoN && lK.Length1 == pb.mesh.eNoN && lK.Length2 == pb.mesh.eNoN
    ensures GridShaped(pb, Grid3(st.grInt)) && IsMat(Rows(lR), lR.Length0, lR.Length1)
    ensures IsGrid(Grid3(lK), lK.Length0, lK.Length1, lK.Length2) && |st.pSa[..]| == pb.tnNo && IsMat(Rows(st.pSn), 6, pb.tnNo)
    ensures Progress(pb, st, el, e, Grid3(st.grInt), eval, 0, lR, lK, Rows(lR), Grid3(lK), st.pSa[..], Rows(st.pSn))
  {
  }

  /** eval_dsolid: fill ptr with the element's nodes, gather the local
      copies and run the Gauss loop. On success the element arrays, grInt
      and the prestress arrays have advanced over all Gauss points
      (Progress); otherwise the first failing point's failure is reported. */
  method EvalDsolid(pb: Problem, st: ComState, e: nat, Ag: Mat, Yg: Mat, Dg: Mat,
                    ptr: array<int>, lR: array2<real>, lK: array3<real>, eval: bool)
    returns (outcome: Outcome)
    requires ProblemShaped(pb) && FieldShaped(pb, Ag) && FieldShaped(pb, Yg) && FieldShaped(pb, Dg)
    requires e < pb.mesh.nEl && st.Valid(pb.mesh.nEl, pb.mesh.nG, pb.nGrInt, pb.tnNo)
    requires ptr.Length == pb.mesh.eNoN
    requires lR.Length0 == pb.dof && lR.Length1 == pb.mesh.eNoN && lR != st.pSn
    requires lK.Length0 == pb.dof * pb.dof && lK.Length1 == pb.mesh.eNoN && lK.Length2 == pb.mesh.eNoN
    requires lK != st.grInt
    modifies ptr, lR, lK, st.grInt, st.pSa, st.pSn
    ensures forall a :: 0 <= a < ptr.Length ==> ptr[a] == pb.mesh.ien[e][a]
    ensures outcome == OutcomeOf(FirstFailure(pb, LocalElement(pb, Ag, Yg, Dg, e), e, pb.mesh.nG))
    ensures outcome == Pass ==>
      Progress(pb, st, LocalElement(pb, Ag, Yg, Dg, e), e, old(Grid3(st.grInt)), eval, pb.mesh.nG,
               lR, lK, old(Rows(lR)), old(Grid3(lK)), old(st.pSa[..]), old(Rows(st.pSn)))
  {
    var el := LocalElement(pb, Ag, Yg, Dg, e);
    FillPtr(ptr, pb.mesh.ien[e]);
    ProgressStart(pb, st, el, e, eval, lR, lK);
    outcome := GaussLoop(pb, st, el, e, Grid3(st.grInt), eval, ptr, lR, lK, Rows(lR), Grid3(lK), st.pSa[..], Rows(st.pSn));
  }
}
