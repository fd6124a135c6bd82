/** The finite-difference tangent of the G&R equations (eval_gr_fd): one
    call evaluates the element residuals over a set of elements, with the
    internal G&R variables updated and smoothed first, and hands either
    the residual or one finite-difference column of the tangent to the
    assembly; the internal variables are restored at the end. */
module GrFiniteDifference {
  import opened Numerics
  import opened Params
  import opened State
  import opened SolidElement
  import opened SolidAssembly
  import opened SolidConstruct
  import opened GrSmoothing

  // ---------------------------------------------------------------------
  // The kind of call and its element sets

  /** The three kinds of call: the residual (no node given), the central
      evaluation for node dAc, and a perturbed evaluation for dof dj. */
  datatype Mode = ResidualEval | CentralEval | PerturbedEval

  function ModeOf(dAc: int, dj: int): (md: Mode)
    ensures md == ResidualEval <==> dAc == -1 && dj == -1
    ensures md == CentralEval <==> dAc != -1 && dj == -1
    ensures md == PerturbedEval <==> dj != -1
  {
    if dAc == -1 && dj == -1 then ResidualEval else if dj == -1 then CentralEval else PerturbedEval
  }

  /** Every element of the mesh, in ascending order. */
  function AllElements(nEl: nat): (es: seq<nat>)
    ensures Ascending(es, nEl) && |es| == nEl && forall k :: 0 <= k < nEl ==> es[k] == k
  {
    seq(nEl, e requires 0 <= e < nEl => e)
  }

  /** The node-to-element maps hold sets of elements of the mesh. */
  ghost predicate AdjacencyShaped(m: Mesh)
  {
    |m.mapNodeEle| == 2
    && forall t, n :: 0 <= t < 2 && n in m.mapNodeEle[t] ==> Ascending(m.mapNodeEle[t][n], m.nEl)
  }

  /** The elements evaluated (ele_fd) and the elements smoothed (ele_smooth). */
  datatype ElementSets = ElementSets(fd: seq<nat>, smooth: seq<nat>)

  /** Which map of node dAc's elements a smoothing mode uses: the
      element-node map for element-node smoothing, else the element map. */
  function AdjacencyIndex(smoothing: Smoothing): nat
  {
    if smoothing == ElementNode then 1 else 0
  }

  /** The element sets of a call: all elements for the residual, else the
      elements of node dAc in the map of the smoothing mode; a node the
      map does not hold is an error. */
  function SelectSets(m: Mesh, smoothing: Smoothing, dAc: int, dj: int): (r: Result<ElementSets>)
    requires AdjacencyShaped(m)
    ensures r.Ok? ==> r.value.fd == r.value.smooth && Ascending(r.value.smooth, m.nEl)
    ensures ModeOf(dAc, dj) == ResidualEval ==> r == Ok(ElementSets(AllElements(m.nEl), AllElements(m.nEl)))
    ensures ModeOf(dAc, dj) != ResidualEval ==>
      (r.Ok? <==> dAc in m.mapNodeEle[AdjacencyIndex(smoothing)])
      && (r.Ok? ==> r.value.smooth == m.mapNodeEle[AdjacencyIndex(smoothing)][dAc])
      && (r.Err? ==> r.error == MissingAdjacency(dAc))
  {
    if ModeOf(dAc, dj) == ResidualEval then
      Ok(ElementSets(AllElements(m.nEl), AllElements(m.nEl)))
    else
      var adj := m.mapNodeEle[AdjacencyIndex(smoothing)];
      if dAc in adj then Ok(ElementSets(adj[dAc], adj[dAc])) else Err(MissingAdjacency(dAc))
  }

  // ---------------------------------------------------------------------
  // One column of the finite-difference tangent

  lemma MulAtLeast(x: int, d: nat)
    requires x >= 1
    ensures x * d >= d
  {
  }

  /** The row block of a flat tangent index is below dof. */
  lemma DivBound(k: nat, dof: nat)
    requires 0 < dof && k < dof * dof
    ensures k / dof < dof
  {
    var q := k / dof;
    assert q * dof <= k;
    if q >= dof {
      MulAtLeast(q - dof + 1, dof);
    }
  }

  /** Row i, column j of a dof x dof block sits at the flat index i dof + j. */
  lemma DivMod(i: nat, j: nat, dof: nat)
    requires i < dof && j < dof
    ensures i * dof + j < dof * dof
    ensures (i * dof + j) / dof == i && (i * dof + j) % dof == j
  {
    var k := i * dof + j;
    var q, r := k / dof, k % dof;
    assert k == q * dof + r;
    assert (q - i) * dof == j - r;
    if q > i {
      MulAtLeast(q - i, dof);
    } else if q < i {
      MulAtLeast(i - q, dof);
    }
    MulAtLeast(dof - i, dof);
  }

  /** lK(k, a, 0) of a column, with k = i dof + j: the central evaluation
      writes -lR(i, a) times the coefficient into every j, a perturbed one
      lR(i, a) times the coefficient into j = dj only. */
  function ColumnEntry(R: Mat, coef: real, central: bool, dj: int, dof: nat, k: nat, a: nat): real
    requires 0 < dof && k < dof * dof && |R| == dof && forall i :: 0 <= i < dof ==> a < |R[i]|
  {
    DivBound(k, dof);
    var i, j := k / dof, k % dof;
    if central then -R[i][a] * coef
    else if j == dj then R[i][a] * coef
    else 0.0
  }

  /** The tangent column (dof dof x eNoN x 1) made from the element residual R. */
  function FdColumn(R: Mat, coef: real, central: bool, dj: int, dof: nat, eNoN: nat): (K: Grid)
    requires 0 < dof && IsMat(R, dof, eNoN)
    ensures IsGrid(K, dof * dof, eNoN, 1)
    ensures forall k, a :: 0 <= k < dof * dof && 0 <= a < eNoN ==> K[k][a][0] == ColumnEntry(R, coef, central, dj, dof, k, a)
  {
    seq(dof * dof, k requires 0 <= k < dof * dof =>
      seq(eNoN, a requires 0 <= a < eNoN => [ColumnEntry(R, coef, central, dj, dof, k, a)]))
  }

  /** Entry (i, j) of node a in a column: the central column holds
      -lR(i, a) coef for every j; a perturbed column holds lR(i, a) coef in
      column dj and zero in every other. */
  lemma ColumnLayout(R: Mat, coef: real, central: bool, dj: int, dof: nat, eNoN: nat, i: nat, j: nat, a: nat)
    requires 0 < dof && IsMat(R, dof, eNoN) && i < dof && j < dof && a < eNoN
    ensures i * dof + j < dof * dof
    ensures FdColumn(R, coef, central, dj, dof, eNoN)[i * dof + j][a][0]
         == if central then -R[i][a] * coef else if j == dj then R[i][a] * coef else 0.0
  {
    DivMod(i, j, dof);
  }

  /** Added up at entry (i, dj) of node a, the central column for a node
      (coefficient fa + fy + fd) and the three perturbed columns of dof dj
      (coefficients fa, fy, fd) give the difference quotients of the
      residual in the acceleration, velocity and displacement, weighted by
      the time-integration coefficients. */
  lemma FdColumnsCombine(Rc: Mat, RA: Mat, RY: Mat, RD: Mat, fa: real, fy: real, fd: real,
                         dof: nat, eNoN: nat, i: nat, dj: nat, a: nat)
    requires 0 < dof && IsMat(Rc, dof, eNoN) && IsMat(RA, dof, eNoN) && IsMat(RY, dof, eNoN) && IsMat(RD, dof, eNoN)
    requires i < dof && dj < dof && a < eNoN
    ensures i * dof + dj < dof * dof
    ensures FdColumn(Rc, fa + fy + fd, true, dj, dof, eNoN)[i * dof + dj][a][0]
          + FdColumn(RA, fa, false, dj, dof, eNoN)[i * dof + dj][a][0]
          + FdColumn(RY, fy, false, dj, dof, eNoN)[i * dof + dj][a][0]
          + FdColumn(RD, fd, false, dj, dof, eNoN)[i * dof + dj][a][0]
         == fa * (RA[i][a] - Rc[i][a]) + fy * (RY[i][a] - Rc[i][a]) + fd * (RD[i][a] - Rc[i][a])
  {
    ColumnLayout(Rc, fa + fy + fd, true, dj, dof, eNoN, i, dj, a);
    ColumnLayout(RA, fa, false, dj, dof, eNoN, i, dj, a);
    ColumnLayout(RY, fy, false, dj, dof, eNoN, i, dj, a);
    ColumnLayout(RD, fd, false, dj, dof, eNoN, i, dj, a);
  }

  /** Entries k of a row block lie in [i dof, i dof + dof): their row is
      i and their column k - i dof. */
  lemma InRowBlock(i: nat, dof: nat, k: nat)
    requires i < dof && i * dof <= k < i * dof + dof
    ensures k / dof == i && k % dof == k - i * dof
  {
    DivMod(i, k - i * dof, dof);
  }

  /** The column L is filled for the nodes before a and for the first n
      entries k (k = i dof + j, filled in increasing order) of node a;
      every other entry is still zero. */
  ghost predicate ColumnFilled(L: Grid, R: Mat, coef: real, central: bool, dj: int, dof: nat, eNoN: nat, a: nat, n: nat)
    requires 0 < dof && IsMat(R, dof, eNoN) && IsGrid(L, dof * dof, eNoN, 1)
  {
    forall k, b :: 0 <= k < dof * dof && 0 <= b < eNoN ==>
      L[k][b][0] == if b < a || (b == a && k < n) then ColumnEntry(R, coef, central, dj, dof, k, b) else 0.0
  }

  /** The entries k of a column that row i writes: all of i dof .. i dof + dof - 1
      (central), or i dof + dj alone (perturbed). */
  predicate RowWritten(central: bool, dj: int, dof: nat, i: nat, k: nat)
  {
    if central then i * dof <= k < i * dof + dof else k == i * dof + dj
  }

  /** Writing row i of node a into a column filled up to that row fills it
      up to the next row. */
  lemma RowFilled(G: Grid, L: Grid, R: Mat, coef: real, central: bool, dj: int, dof: nat, eNoN: nat, a: nat, i: nat)
    requires 0 < dof && IsMat(R, dof, eNoN) && IsGrid(G, dof * dof, eNoN, 1) && IsGrid(L, dof * dof, eNoN, 1)
    requires a < eNoN && i < dof && (!central ==> 0 <= dj < dof)
    requires ColumnFilled(G, R, coef, central, dj, dof, eNoN, a, i * dof)
    requires forall k, b :: 0 <= k < dof * dof && 0 <= b < eNoN ==>
      L[k][b][0] == if b == a && RowWritten(central, dj, dof, i, k) then (if central then -R[i][a] * coef else R[i][a] * coef)
                    else G[k][b][0]
    ensures ColumnFilled(L, R, coef, central, dj, dof, eNoN, a, i * dof + dof)
  {
    DivMod(i, dof - 1, dof);
    forall k | i * dof <= k < i * dof + dof
      ensures ColumnEntry(R, coef, central, dj, dof, k, a)
           == if central then -R[i][a] * coef else if k == i * dof + dj then R[i][a] * coef else 0.0
    {
      InRowBlock(i, dof, k);
    }
  }

  /** The writes of row i of node a: lK(i dof + j, a, 0) = -lR(i, a) coef
      for every j (central), or lK(i dof + dj, a, 0) = lR(i, a) coef
      (perturbed); nothing else changes. */
  method WriteRow(lK: array3<real>, lR: array2<real>, coef: real, central: bool, dj: int, a: nat, i: nat)
    requires 0 < lR.Length0 && lK.Length0 == lR.Length0 * lR.Length0 && lK.Length1 == lR.Length1 && lK.Length2 == 1
    requires a < lR.Length1 && i < lR.Length0 && (!central ==> 0 <= dj < lR.Length0)
    requires i * lR.Length0 + lR.Length0 <= lK.Length0
    modifies lK
    ensures forall k, b :: 0 <= k < lK.Length0 && 0 <= b < lK.Length1 ==>
      lK[k, b, 0] == if b == a && RowWritten(central, dj, lR.Length0, i, k) then (if central then -lR[i, a] * coef else lR[i, a] * coef)
                     else old(lK[k, b, 0])
  {
    var dof := lR.Length0;
    if central {
      var j := 0;
      while j < dof
        invariant 0 <= j <= dof
        invariant forall k, b :: 0 <= k < lK.Length0 && 0 <= b < lK.Length1 ==>
          lK[k, b, 0] == if b == a && i * dof <= k < i * dof + j then -lR[i, a] * coef else old(lK[k, b, 0])
      {
        lK[i * dof + j, a, 0] := -lR[i, a] * coef;
        j := j + 1;
      }
    } else {
      lK[i * dof + dj, a, 0] := lR[i, a] * coef;
    }
  }

  /** Row i of node a, continuing the column. */
  method FillRow(lK: array3<real>, lR: array2<real>, coef: real, central: bool, dj: int, a: nat, i: nat)
    requires 0 < lR.Length0 && lK.Length0 == lR.Length0 * lR.Length0 && lK.Length1 == lR.Length1 && lK.Length2 == 1
    requires a < lR.Length1 && i < lR.Length0 && (!central ==> 0 <= dj < lR.Length0)
    requires ColumnFilled(Grid3(lK), Rows(lR), coef, central, dj, lR.Length0, lR.Length1, a, i * lR.Length0)
    modifies lK
    ensures ColumnFilled(Grid3(lK), Rows(lR), coef, central, dj, lR.Length0, lR.Length1, a, i * lR.Length0 + lR.Length0)
  {
    ghost var G := Grid3(lK);
    DivMod(i, lR.Length0 - 1, lR.Length0);
    WriteRow(lK, lR, coef, central, dj, a, i);
    RowFilled(G, Grid3(lK), Rows(lR), coef, central, dj, lR.Length0, lR.Length1, a, i);
  }

  /** The rows of node a. */
  method FillNode(lK: array3<real>, lR: array2<real>, coef: real, central: bool, dj: int, a: nat)
    requires 0 < lR.Length0 && lK.Length0 == lR.Length0 * lR.Length0 && lK.Length1 == lR.Length1 && lK.Length2 == 1
    requires a < lR.Length1 && (!central ==> 0 <= dj < lR.Length0)
    requires ColumnFilled(Grid3(lK), Rows(lR), coef, central, dj, lR.Length0, lR.Length1, a, 0)
    modifies lK
    ensures ColumnFilled(Grid3(lK), Rows(lR), coef, central, dj, lR.Length0, lR.Length1, a + 1, 0)
  {
    var dof := lR.Length0;
    var i := 0;
    while i < dof
      invariant 0 <= i <= dof
      invariant ColumnFilled(Grid3(lK), Rows(lR), coef, central, dj, dof, lR.Length1, a, i * dof)
    {
      FillRow(lK, lR, coef, central, dj, a, i);
      assert i * dof + dof == (i + 1) * dof;
      i := i + 1;
    }
  }

  /** The column loop over the element nodes and the rows. */
  method FillColumn(lK: array3<real>, lR: array2<real>, coef: real, central: bool, dj: int)
    requires 0 < lR.Length0 && lK.Length0 == lR.Length0 * lR.Length0 && lK.Length1 == lR.Length1 && lK.Length2 == 1
    requires !central ==> 0 <= dj < lR.Length0
    requires forall k, b :: 0 <= k < lK.Length0 && 0 <= b < lK.Length1 ==> lK[k, b, 0] == 0.0
    modifies lK
    ensures Grid3(lK) == FdColumn(Rows(lR), coef, central, dj, lR.Length0, lR.Length1)
  {
    var a := 0;
    while a < lR.Length1
      invariant 0 <= a <= lR.Length1
      invariant ColumnFilled(Grid3(lK), Rows(lR), coef, central, dj, lR.Length0, lR.Length1, a, 0)
    {
      FillNode(lK, lR, coef, central, dj, a);
      a := a + 1;
    }
    GridExt(Grid3(lK), FdColumn(Rows(lR), coef, central, dj, lR.Length0, lR.Length1));
  }

  // ---------------------------------------------------------------------
  // What one call hands to the assembly

  /** dj names a dof when the call is perturbed. */
  ghost predicate ColumnIndexOk(pb: Problem, dj: int)
  {
    dj == -1 || 0 <= dj < pb.dof
  }

  /** The assembly call for element e: its residual (residual mode), or
      its tangent column for node dAc. */
  function FdBlock(pb: Problem, Ag: Mat, Yg: Mat, Dg: Mat, grid: Grid, coef: real, dAc: int, dj: int, e: nat): Assembly
    requires FieldsShaped(pb, Ag, Yg, Dg) && e < pb.mesh.nEl && GridShaped(pb, grid) && ColumnIndexOk(pb, dj)
    requires ElementFailureAt(pb, Ag, Yg, Dg, e) == None
  {
    var R := ElementResidual(pb, LocalElement(pb, Ag, Yg, Dg, e), e, grid[e]);
    match ModeOf(dAc, dj)
    case ResidualEval => ResidualBlock(pb.mesh.ien[e], R)
    case CentralEval => TangentColumn(pb.mesh.ien[e], dAc, FdColumn(R, coef, true, dj, pb.dof, pb.mesh.eNoN))
    case PerturbedEval => TangentColumn(pb.mesh.ien[e], dAc, FdColumn(R, coef, false, dj, pb.dof, pb.mesh.eNoN))
  }

  /** The assembly calls of the listed elements, one each, in list order. */
  function FdBlocks(pb: Problem, Ag: Mat, Yg: Mat, Dg: Mat, grid: Grid, coef: real, dAc: int, dj: int, es: seq<nat>)
    : (log: seq<Assembly>)
    requires FieldsShaped(pb, Ag, Yg, Dg) && InMesh(es, pb.mesh.nEl) && GridShaped(pb, grid) && ColumnIndexOk(pb, dj)
    requires PassOver(pb, Ag, Yg, Dg, es)
    ensures |log| == |es|
    ensures forall k :: 0 <= k < |es| ==> log[k] == FdBlock(pb, Ag, Yg, Dg, grid, coef, dAc, dj, es[k])
  {
    seq(|es|, k requires 0 <= k < |es| => FdBlock(pb, Ag, Yg, Dg, grid, coef, dAc, dj, es[k]))
  }

  lemma FdBlocksSnoc(pb: Problem, Ag: Mat, Yg: Mat, Dg: Mat, grid: Grid, coef: real, dAc: int, dj: int, es: seq<nat>, e: nat)
    requires FieldsShaped(pb, Ag, Yg, Dg) && InMesh(es, pb.mesh.nEl) && GridShaped(pb, grid) && ColumnIndexOk(pb, dj)
    requires e < pb.mesh.nEl && PassOver(pb, Ag, Yg, Dg, es) && ElementFailureAt(pb, Ag, Yg, Dg, e) == None
    ensures InMesh(es + [e], pb.mesh.nEl) && PassOver(pb, Ag, Yg, Dg, es + [e])
    ensures FdBlocks(pb, Ag, Yg, Dg, grid, coef, dAc, dj, es + [e])
         == FdBlocks(pb, Ag, Yg, Dg, grid, coef, dAc, dj, es) + [FdBlock(pb, Ag, Yg, Dg, grid, coef, dAc, dj, e)]
  {
    PassOverSnoc(pb, Ag, Yg, Dg, es, e);
    var L, L', b := FdBlocks(pb, Ag, Yg, Dg, grid, coef, dAc, dj, es + [e]), FdBlocks(pb, Ag, Yg, Dg, grid, coef, dAc, dj, es),
                    FdBlock(pb, Ag, Yg, Dg, grid, coef, dAc, dj, e);
    SnocEntries(es, e);
    SnocFrom(L, L', b);
  }
  // ---------------------------------------------------------------------
  // The specification of one call

  /** What eval_gr_fd reads and writes: grInt, grInt_orig, pSa, pSn and the
      assembly calls made so far. */
  datatype FdState = FdState(grid: Grid, orig: Grid, mass: seq<real>, rows: seq<seq<real>>, log: seq<Assembly>)

  ghost predicate FdStateShaped(pb: Problem, s: FdState)
  {
    GridShaped(pb, s.grid) && GridShaped(pb, s.orig) && |s.mass| == pb.tnNo && IsMat(s.rows, 6, pb.tnNo)
  }

  function FdStateOf(st: ComState): FdState
    reads st, st.grInt, st.grIntOrig, st.pSa, st.pSn
  {
    FdState(Grid3(st.grInt), Grid3(st.grIntOrig), st.pSa[..], Rows(st.pSn), st.assembled)
  }

  /** What a call demands of its inputs: well-shaped data, element sets of
      the mesh in the adjacency maps, entry Igr present when smoothing, and
      dj naming a dof when given. */
  ghost predicate FdCallOk(pb: Problem, Ag: Mat, Yg: Mat, Dg: Mat, smoothing: Smoothing, dj: int)
  {
    FieldsShaped(pb, Ag, Yg, Dg) && AdjacencyShaped(pb.mesh)
    && (smoothing != NoSmoothing ==> Igr < pb.nGrInt) && ColumnIndexOk(pb, dj)
  }

  lemma GridHasIgr(pb: Problem, smoothing: Smoothing, G: Grid)
    requires ProblemShaped(pb) && GridShaped(pb, G) && (smoothing != NoSmoothing ==> Igr < pb.nGrInt)
    ensures smoothing != NoSmoothing ==> LagrangeGrid(pb.mesh, G)
  {
  }

  /** The state after the smoothing stage of a call: the element set of
      the finite-difference pass, and grInt, pSa and pSn. */
  datatype Stage = Stage(fd: seq<nat>, grid: Grid, mass: seq<real>, rows: seq<seq<real>>)

  /** The first stage of eval_gr_fd: select the element sets; update grInt,
      pSa and pSn over the smoothed set without assembling; smooth grInt.
      A missing adjacency, a failing element or a zero nodal weight aborts
      the call. */
  function SmoothingStage(pb: Problem, Ag: Mat, Yg: Mat, Dg: Mat, smoothing: Smoothing, dAc: int, dj: int,
                          s0: FdState): (r: Result<Stage>)
    requires FdCallOk(pb, Ag, Yg, Dg, smoothing, dj) && FdStateShaped(pb, s0)
    ensures r.Ok? ==> Ascending(r.value.fd, pb.mesh.nEl) && PassOver(pb, Ag, Yg, Dg, r.value.fd)
    ensures r.Ok? ==> GridShaped(pb, r.value.grid) && |r.value.mass| == pb.tnNo && IsMat(r.value.rows, 6, pb.tnNo)
  {
    match SelectSets(pb.mesh, smoothing, dAc, dj)
    case Err(f) => Err(f)
    case Ok(sets) =>
      var es := sets.smooth;
      var f := FailureOver(pb, Ag, Yg, Dg, es);
      if f.Some? then Err(f.value)
      else
        FailureOverIff(pb, Ag, Yg, Dg, es);
        StageAfterPass(pb, Ag, Yg, Dg, smoothing, sets, s0)
  }

  /** The smoothing stage once every element of the smoothed set passed:
      the updated grInt is smoothed; pSa and pSn hold the pass's sums. */
  function StageAfterPass(pb: Problem, Ag: Mat, Yg: Mat, Dg: Mat, smoothing: Smoothing, sets: ElementSets,
                          s0: FdState): (r: Result<Stage>)
    requires FieldsShaped(pb, Ag, Yg, Dg) && FdStateShaped(pb, s0)
    requires sets.fd == sets.smooth && Ascending(sets.smooth, pb.mesh.nEl) && PassOver(pb, Ag, Yg, Dg, sets.smooth)
    requires smoothing != NoSmoothing ==> Igr < pb.nGrInt
    ensures r.Ok? ==> r.value.fd == sets.fd
    ensures r.Ok? ==> GridShaped(pb, r.value.grid) && |r.value.mass| == pb.tnNo && IsMat(r.value.rows, 6, pb.tnNo)
  {
    var es := sets.smooth;
    var G1 := GridOver(pb, Ag, Yg, Dg, s0.grid, es);
    GridHasIgr(pb, smoothing, G1);
    match Smoothed(smoothing, pb.mesh, pb.tnNo, G1, es)
    case Err(f) => Err(f)
    case Ok(S) =>
      Ok(Stage(sets.fd, S, MassOver(pb, Ag, Yg, Dg, s0.mass, es), StressOver(pb, Ag, Yg, Dg, s0.grid, s0.rows, false, es)))
  }

  /** eval_gr_fd with coefficient coef, node dAc and dof dj, from state s0:
      after the smoothing stage, save grInt as grInt_orig for the residual;
      evaluate the set again from the smoothed grInt, assembling the
      residual or one tangent column per element; restore grInt from
      grInt_orig. */
  function EvalGrFdSpec(pb: Problem, Ag: Mat, Yg: Mat, Dg: Mat, smoothing: Smoothing, coef: real, dAc: int, dj: int,
                        s0: FdState): (r: Result<FdState>)
    requires FdCallOk(pb, Ag, Yg, Dg, smoothing, dj) && FdStateShaped(pb, s0)
    ensures r.Ok? ==> FdStateShaped(pb, r.value)
  {
    match SmoothingStage(pb, Ag, Yg, Dg, smoothing, dAc, dj, s0)
    case Err(f) => Err(f)
    case Ok(p) =>
      var orig := if ModeOf(dAc, dj) == ResidualEval then p.grid else s0.orig;
      Ok(FdState(orig, orig, MassOver(pb, Ag, Yg, Dg, p.mass, p.fd), StressOver(pb, Ag, Yg, Dg, p.grid, p.rows, true, p.fd),
                 s0.log + FdBlocks(pb, Ag, Yg, Dg, p.grid, coef, dAc, dj, p.fd)))
  }

  /** How the smoothing stage can fail: a node without adjacency entry
      (never in the residual call), a failing element of the set, or a zero
      nodal weight under element-node smoothing. When it passes, pSn is as
      before (the elements are evaluated without assembly) and the
      evaluated set is the smoothed set. */
  lemma SmoothingStageOutcome(pb: Problem, Ag: Mat, Yg: Mat, Dg: Mat, smoothing: Smoothing, dAc: int, dj: int,
                              s0: FdState)
    requires FdCallOk(pb, Ag, Yg, Dg, smoothing, dj) && FdStateShaped(pb, s0)
    ensures var r := SmoothingStage(pb, Ag, Yg, Dg, smoothing, dAc, dj, s0);
      r.Err? ==>
        (ModeOf(dAc, dj) != ResidualEval && dAc !in pb.mesh.mapNodeEle[AdjacencyIndex(smoothing)]
         && r.error == MissingAdjacency(dAc))
        || (SelectSets(pb.mesh, smoothing, dAc, dj).Ok?
            && FailureOver(pb, Ag, Yg, Dg, SelectSets(pb.mesh, smoothing, dAc, dj).value.smooth) == Some(r.error))
        || (smoothing == ElementNode && r.error.ZeroNodalWeight?)
    ensures var r := SmoothingStage(pb, Ag, Yg, Dg, smoothing, dAc, dj, s0);
      r.Ok? ==> SelectSets(pb.mesh, smoothing, dAc, dj).Ok?
                && r.value.fd == SelectSets(pb.mesh, smoothing, dAc, dj).value.smooth
                && r.value.rows == s0.rows
  {
    var sets := SelectSets(pb.mesh, smoothing, dAc, dj);
    if sets.Ok? {
      var es := sets.value.smooth;
      FailureOverIff(pb, Ag, Yg, Dg, es);
      if FailureOver(pb, Ag, Yg, Dg, es).None? {
        var G1 := GridOver(pb, Ag, Yg, Dg, s0.grid, es);
        GridHasIgr(pb, smoothing, G1);
        SmoothingWritesOnlyIgr(smoothing, pb.mesh, pb.tnNo, G1, es);
        StressOverWithoutEval(pb, Ag, Yg, Dg, s0.grid, s0.rows, es);
      }
    }
  }

  /** A call ends with grInt equal to grInt_orig. The residual call sets
      both to the smoothed grid; any other call keeps grInt_orig, so when
      it starts from grInt == grInt_orig it leaves grInt as it found it. */
  lemma CallRestoresGrid(pb: Problem, Ag: Mat, Yg: Mat, Dg: Mat, smoothing: Smoothing, coef: real, dAc: int, dj: int,
                         s0: FdState)
    requires FdCallOk(pb, Ag, Yg, Dg, smoothing, dj) && FdStateShaped(pb, s0)
    requires EvalGrFdSpec(pb, Ag, Yg, Dg, smoothing, coef, dAc, dj, s0).Ok?
    ensures var s := EvalGrFdSpec(pb, Ag, Yg, Dg, smoothing, coef, dAc, dj, s0).value;
      s.grid == s.orig
      && (ModeOf(dAc, dj) == ResidualEval ==> s.orig == SmoothingStage(pb, Ag, Yg, Dg, smoothing, dAc, dj, s0).value.grid)
      && (ModeOf(dAc, dj) != ResidualEval ==> s.orig == s0.orig)
      && (ModeOf(dAc, dj) != ResidualEval && s0.grid == s0.orig ==> s.grid == s0.grid)
  {
  }

  /** The shape of the assembly call of element e: its residual with the
      element's nodes for the residual call, otherwise a tangent column for
      node dAc with the element's nodes as rows. */
  ghost predicate BlockOf(pb: Problem, b: Assembly, e: nat, dAc: int, dj: int)
    requires e < |pb.mesh.ien|
  {
    if ModeOf(dAc, dj) == ResidualEval then b.ResidualBlock? && b.ptr == pb.mesh.ien[e]
    else b.TangentColumn? && b.ptrCol == dAc && b.ptrRow == pb.mesh.ien[e]
  }

  /** log is log0 followed by one assembly call per listed element, in order. */
  ghost predicate AppendsBlocks(pb: Problem, log0: seq<Assembly>, log: seq<Assembly>, es: seq<nat>, dAc: int, dj: int)
    requires InMesh(es, pb.mesh.nEl) && |pb.mesh.ien| == pb.mesh.nEl
  {
    |log| == |log0| + |es| && log[..|log0|] == log0
    && forall k :: 0 <= k < |es| ==> BlockOf(pb, log[|log0| + k], es[k], dAc, dj)
  }

  /** Each listed element's assembly call has that shape. */
  lemma BlocksOf(pb: Problem, Ag: Mat, Yg: Mat, Dg: Mat, grid: Grid, coef: real, dAc: int, dj: int, es: seq<nat>)
    requires FieldsShaped(pb, Ag, Yg, Dg) && InMesh(es, pb.mesh.nEl) && GridShaped(pb, grid) && ColumnIndexOk(pb, dj)
    requires PassOver(pb, Ag, Yg, Dg, es)
    ensures var B := FdBlocks(pb, Ag, Yg, Dg, grid, coef, dAc, dj, es);
      forall k :: 0 <= k < |es| ==> BlockOf(pb, B[k], es[k], dAc, dj)
  {
  }

  /** The blocks of a list of elements, appended to a log. */
  lemma BlocksShape(pb: Problem, Ag: Mat, Yg: Mat, Dg: Mat, grid: Grid, coef: real, dAc: int, dj: int, es: seq<nat>,
                    log0: seq<Assembly>)
    requires FieldsShaped(pb, Ag, Yg, Dg) && InMesh(es, pb.mesh.nEl) && GridShaped(pb, grid) && ColumnIndexOk(pb, dj)
    requires PassOver(pb, Ag, Yg, Dg, es)
    ensures AppendsBlocks(pb, log0, log0 + FdBlocks(pb, Ag, Yg, Dg, grid, coef, dAc, dj, es), es, dAc, dj)
  {
    var B := FdBlocks(pb, Ag, Yg, Dg, grid, coef, dAc, dj, es);
    AppendParts(log0, B);
    BlocksOf(pb, Ag, Yg, Dg, grid, coef, dAc, dj, es);
  }

  /** A call appends one assembly call per element of its set, in order:
      the element residual for the residual call, otherwise a tangent
      column for node dAc with the element's nodes as rows. */
  lemma CallAssembles(pb: Problem, Ag: Mat, Yg: Mat, Dg: Mat, smoothing: Smoothing, coef: real, dAc: int, dj: int,
                      s0: FdState)
    requires FdCallOk(pb, Ag, Yg, Dg, smoothing, dj) && FdStateShaped(pb, s0)
    requires EvalGrFdSpec(pb, Ag, Yg, Dg, smoothing, coef, dAc, dj, s0).Ok?
    ensures AppendsBlocks(pb, s0.log, EvalGrFdSpec(pb, Ag, Yg, Dg, smoothing, coef, dAc, dj, s0).value.log,
                          SmoothingStage(pb, Ag, Yg, Dg, smoothing, dAc, dj, s0).value.fd, dAc, dj)
  {
    var p := SmoothingStage(pb, Ag, Yg, Dg, smoothing, dAc, dj, s0).value;
    BlocksShape(pb, Ag, Yg, Dg, p.grid, coef, dAc, dj, p.fd, s0.log);
  }

  // ---------------------------------------------------------------------
  // The call in place

  /** The element sets, with the set of all elements built element by element. */
  method ElementSetsOf(m: Mesh, smoothing: Smoothing, dAc: int, dj: int) returns (r: Result<ElementSets>)
    requires AdjacencyShaped(m)
    ensures r == SelectSets(m, smoothing, dAc, dj)
  {
    var all: seq<nat> := [];
    var i := 0;
    while i < m.nEl
      invariant 0 <= i <= m.nEl && all == AllElements(i)
    {
      all := all + [i];
      i := i + 1;
    }
    if dAc == -1 && dj == -1 {
      return Ok(ElementSets(all, all));
    }
    var adj := m.mapNodeEle[AdjacencyIndex(smoothing)];
    if dAc !in adj {
      return Err(MissingAdjacency(dAc));
    }
    return Ok(ElementSets(adj[dAc], adj[dAc]));
  }

  /** The update of grInt, pSa and pSn over the smoothed set, without
      assembly (eval = false, into the dummy arrays). */
  method SmoothingPass(pb: Problem, st: ComState, Ag: Mat, Yg: Mat, Dg: Mat, es: seq<nat>,
                       ptr: array<int>, lR: array2<real>, lK: array3<real>)
    returns (outcome: Outcome)
    requires FieldsShaped(pb, Ag, Yg, Dg) && Ascending(es, pb.mesh.nEl)
    requires st.Valid(pb.mesh.nEl, pb.mesh.nG, pb.nGrInt, pb.tnNo) && ptr.Length == pb.mesh.eNoN && BlockCtx(pb, st, lR, lK)
    modifies st.grInt, st.pSa, st.pSn, ptr, lR, lK
    ensures outcome == OutcomeOf(FailureOver(pb, Ag, Yg, Dg, es))
    ensures outcome == Pass ==>
      StateOver(pb, st, Ag, Yg, Dg, old(Grid3(st.grInt)), old(st.pSa[..]), old(Rows(st.pSn)), false, es)
  {
    ghost var grid0, mass0, rows0 := Grid3(st.grInt), st.pSa[..], Rows(st.pSn);
    assert GridOver(pb, Ag, Yg, Dg, grid0, []) == grid0;
    outcome := SmoothingLoop(pb, st, Ag, Yg, Dg, es, ptr, lR, lK, grid0, mass0, rows0);
  }

  /** The element loop of the smoothing pass, from the state grid0, mass0,
      rows0; it stops at the first element that fails. */
  method SmoothingLoop(pb: Problem, st: ComState, Ag: Mat, Yg: Mat, Dg: Mat, es: seq<nat>,
                       ptr: array<int>, lR: array2<real>, lK: array3<real>,
                       ghost grid0: Grid, ghost mass0: seq<real>, ghost rows0: seq<seq<real>>)
    returns (outcome: Outcome)
    requires FieldsShaped(pb, Ag, Yg, Dg) && Ascending(es, pb.mesh.nEl)
    requires st.Valid(pb.mesh.nEl, pb.mesh.nG, pb.nGrInt, pb.tnNo) && ptr.Length == pb.mesh.eNoN && BlockCtx(pb, st, lR, lK)
    requires GridShaped(pb, grid0) && |mass0| == pb.tnNo && IsMat(rows0, 6, pb.tnNo)
    requires StateOver(pb, st, Ag, Yg, Dg, grid0, mass0, rows0, false, [])
    modifies st.grInt, st.pSa, st.pSn, ptr, lR, lK
    ensures outcome == OutcomeOf(FailureOver(pb, Ag, Yg, Dg, es))
    ensures outcome == Pass ==> StateOver(pb, st, Ag, Yg, Dg, grid0, mass0, rows0, false, es)
  {
    ghost var done: seq<nat> := [];
    TakeEnds(es);
    var k := 0;
    while k < |es|
      invariant 0 <= k <= |es| && done == es[..k] && InMesh(done, pb.mesh.nEl)
      invariant StateOver(pb, st, Ag, Yg, Dg, grid0, mass0, rows0, false, done)
    {
      var e := es[k];
      AscendingTake(es, pb.mesh.nEl, k);
      outcome := EvalListed(pb, st, Ag, Yg, Dg, e, ptr, lR, lK, false, grid0, mass0, rows0, done);
      if outcome != Pass {
        ListFailureAt(pb, Ag, Yg, Dg, es, k);
        return;
      }
      done, k := done + [e], k + 1;
    }
    TakeEnds(es);
    FailureOverIff(pb, Ag, Yg, Dg, es);
    outcome := Pass;
  }

  /** The arrays the finite-difference pass works with, all distinct from
      the solver state. */
  ghost predicate FdArrays(pb: Problem, st: ComState, ptrRow: array<int>, lR: array2<real>, lK: array3<real>,
                           lKDummy: array3<real>)
  {
    ptrRow.Length == pb.mesh.eNoN && BlockCtx(pb, st, lR, lKDummy)
    && lK.Length0 == pb.dof * pb.dof && lK.Length1 == pb.mesh.eNoN && lK.Length2 == 1
    && lK != st.grInt && lK != st.grIntOrig && lK != lKDummy && lKDummy != st.grIntOrig
  }

  /** The evaluation of one element in the finite-difference pass: the
      local arrays are reset, the element is evaluated with eval = true
      (updating grInt, pSa and pSn again), and lR then holds its residual. */
  method EvalForColumn(pb: Problem, st: ComState, Ag: Mat, Yg: Mat, Dg: Mat, e: nat,
                       ptrRow: array<int>, lR: array2<real>, lK: array3<real>, lKDummy: array3<real>,
                       ghost grid0: Grid, ghost mass0: seq<real>, ghost rows0: seq<seq<real>>, ghost es: seq<nat>)
    requires FieldsShaped(pb, Ag, Yg, Dg) && e < pb.mesh.nEl && InMesh(es, pb.mesh.nEl) && e !in es
    requires ElementFailureAt(pb, Ag, Yg, Dg, e) == None
    requires st.Valid(pb.mesh.nEl, pb.mesh.nG, pb.nGrInt, pb.tnNo) && FdArrays(pb, st, ptrRow, lR, lK, lKDummy)
    requires GridShaped(pb, grid0) && |mass0| == pb.tnNo && IsMat(rows0, 6, pb.tnNo)
    requires StateOver(pb, st, Ag, Yg, Dg, grid0, mass0, rows0, true, es)
    modifies st.grInt, st.pSa, st.pSn, ptrRow, lR, lK, lKDummy
    ensures StateOver(pb, st, Ag, Yg, Dg, grid0, mass0, rows0, true, es + [e])
    ensures ptrRow[..] == pb.mesh.ien[e]
    ensures Rows(lR) == ElementResidual(pb, LocalElement(pb, Ag, Yg, Dg, e), e, grid0[e])
    ensures forall k, b :: 0 <= k < lK.Length0 && 0 <= b < lK.Length1 ==> lK[k, b, 0] == 0.0
  {
    ResetLocals(ptrRow, lR, lK);
    ghost var lR0, lK0 := Rows(lR), Grid3(lK);
    var outcome := EvalListed(pb, st, Ag, Yg, Dg, e, ptrRow, lR, lKDummy, true, grid0, mass0, rows0, es);
    assert Grid3(lK) == lK0;
    ResidualFromZero(pb, LocalElement(pb, Ag, Yg, Dg, e), e, grid0, lR, lR0);
  }

  /** One element of the finite-difference pass: evaluate it, and hand its
      residual, or its tangent column for node dAc, to the assembly. */
  method FdElement(pb: Problem, st: ComState, Ag: Mat, Yg: Mat, Dg: Mat, e: nat, residual: bool, central: bool,
                   coef: real, dAc: int, dj: int, ptrRow: array<int>, lR: array2<real>, lK: array3<real>, lKDummy: array3<real>,
                   ghost grid0: Grid, ghost mass0: seq<real>, ghost rows0: seq<seq<real>>, ghost log0: seq<Assembly>,
                   ghost es: seq<nat>)
    requires FieldsShaped(pb, Ag, Yg, Dg) && e < pb.mesh.nEl && InMesh(es, pb.mesh.nEl) && e !in es
    requires residual == (ModeOf(dAc, dj) == ResidualEval) && central == (ModeOf(dAc, dj) == CentralEval)
    requires ColumnIndexOk(pb, dj) && ElementFailureAt(pb, Ag, Yg, Dg, e) == None
    requires st.Valid(pb.mesh.nEl, pb.mesh.nG, pb.nGrInt, pb.tnNo) && FdArrays(pb, st, ptrRow, lR, lK, lKDummy)
    requires GridShaped(pb, grid0) && |mass0| == pb.tnNo && IsMat(rows0, 6, pb.tnNo)
    requires StateOver(pb, st, Ag, Yg, Dg, grid0, mass0, rows0, true, es)
    requires st.assembled == log0 + FdBlocks(pb, Ag, Yg, Dg, grid0, coef, dAc, dj, es)
    modifies st, st.grInt, st.pSa, st.pSn, ptrRow, lR, lK, lKDummy
    ensures InMesh(es + [e], pb.mesh.nEl)
    ensures StateOver(pb, st, Ag, Yg, Dg, grid0, mass0, rows0, true, es + [e])
    ensures st.assembled == log0 + FdBlocks(pb, Ag, Yg, Dg, grid0, coef, dAc, dj, es + [e])
  {
    EvalForColumn(pb, st, Ag, Yg, Dg, e, ptrRow, lR, lK, lKDummy, grid0, mass0, rows0, es);
    FdBlocksSnoc(pb, Ag, Yg, Dg, grid0, coef, dAc, dj, es, e);
    HandOver(pb, st, Ag, Yg, Dg, e, residual, central, coef, dAc, dj, ptrRow, lR, lK, lKDummy, grid0,
             Grid3(st.grInt), st.pSa[..], Rows(st.pSn), log0, FdBlocks(pb, Ag, Yg, Dg, grid0, coef, dAc, dj, es));
  }

  /** The evaluated element hands its block to the assembly; the G&R
      variables and the projection accumulators are left as they are. */
  method HandOver(pb: Problem, st: ComState, Ag: Mat, Yg: Mat, Dg: Mat, e: nat, residual: bool, central: bool,
                  coef: real, dAc: int, dj: int, ptrRow: array<int>, lR: array2<real>, lK: array3<real>,
                  lKDummy: array3<real>, ghost grid0: Grid, ghost G: Grid, ghost M: seq<real>, ghost S: seq<seq<real>>,
                  ghost log0: seq<Assembly>, ghost B: seq<Assembly>)
    requires FieldsShaped(pb, Ag, Yg, Dg) && e < pb.mesh.nEl && ColumnIndexOk(pb, dj) && GridShaped(pb, grid0)
    requires ElementFailureAt(pb, Ag, Yg, Dg, e) == None
    requires residual == (ModeOf(dAc, dj) == ResidualEval) && central == (ModeOf(dAc, dj) == CentralEval)
    requires st.Valid(pb.mesh.nEl, pb.mesh.nG, pb.nGrInt, pb.tnNo) && FdArrays(pb, st, ptrRow, lR, lK, lKDummy)
    requires Grid3(st.grInt) == G && st.pSa[..] == M && Rows(st.pSn) == S
    requires ptrRow[..] == pb.mesh.ien[e]
    requires Rows(lR) == ElementResidual(pb, LocalElement(pb, Ag, Yg, Dg, e), e, grid0[e])
    requires forall k, b :: 0 <= k < lK.Length0 && 0 <= b < lK.Length1 ==> lK[k, b, 0] == 0.0
    requires st.assembled == log0 + B
    modifies st`assembled, lK
    ensures Grid3(st.grInt) == G && st.pSa[..] == M && Rows(st.pSn) == S
    ensures st.assembled == log0 + (B + [FdBlock(pb, Ag, Yg, Dg, grid0, coef, dAc, dj, e)])
  {
    var blk := ColumnFor(pb, Ag, Yg, Dg, e, residual, central, coef, dAc, dj, ptrRow, lR, lK, grid0);
    AppendBlock(st, blk, log0, B);
  }

  /** The block of element e, built from its evaluated local arrays. */
  method ColumnFor(pb: Problem, Ag: Mat, Yg: Mat, Dg: Mat, e: nat, residual: bool, central: bool,
                   coef: real, dAc: int, dj: int, ptrRow: array<int>, lR: array2<real>, lK: array3<real>,
                   ghost grid0: Grid) returns (blk: Assembly)
    requires FieldsShaped(pb, Ag, Yg, Dg) && e < pb.mesh.nEl && GridShaped(pb, grid0) && ColumnIndexOk(pb, dj)
    requires ElementFailureAt(pb, Ag, Yg, Dg, e) == None
    requires residual == (ModeOf(dAc, dj) == ResidualEval) && central == (ModeOf(dAc, dj) == CentralEval)
    requires lR.Length0 == pb.dof && lR.Length1 == pb.mesh.eNoN
    requires lK.Length0 == pb.dof * pb.dof && lK.Length1 == pb.mesh.eNoN && lK.Length2 == 1
    requires ptrRow[..] == pb.mesh.ien[e]
    requires Rows(lR) == ElementResidual(pb, LocalElement(pb, Ag, Yg, Dg, e), e, grid0[e])
    requires forall k, b :: 0 <= k < lK.Length0 && 0 <= b < lK.Length1 ==> lK[k, b, 0] == 0.0
    modifies lK
    ensures blk == FdBlock(pb, Ag, Yg, Dg, grid0, coef, dAc, dj, e)
  {
    ghost var ptr, R := ptrRow[..], Rows(lR);
    blk := ColumnBlock(ptrRow, lR, lK, residual, central, coef, dAc, dj);
    BlockFromLocals(pb, Ag, Yg, Dg, grid0, coef, dAc, dj, e, residual, central, ptr, R);
  }

  /** One assembly call: the block joins the end of the log. */
  method AppendBlock(st: ComState, blk: Assembly, ghost log0: seq<Assembly>, ghost B: seq<Assembly>)
    requires st.assembled == log0 + B
    modifies st`assembled
    ensures st.assembled == log0 + (B + [blk])
  {
    st.assembled := st.assembled + [blk];
  }

  /** The block built from the element's node list and residual is the
      one FdBlock gives. */
  lemma BlockFromLocals(pb: Problem, Ag: Mat, Yg: Mat, Dg: Mat, grid: Grid, coef: real, dAc: int, dj: int, e: nat,
                        residual: bool, central: bool, ptr: seq<int>, R: seq<seq<real>>)
    requires FieldsShaped(pb, Ag, Yg, Dg) && e < pb.mesh.nEl && GridShaped(pb, grid) && ColumnIndexOk(pb, dj)
    requires ElementFailureAt(pb, Ag, Yg, Dg, e) == None
    requires residual == (ModeOf(dAc, dj) == ResidualEval) && central == (ModeOf(dAc, dj) == CentralEval)
    requires ptr == pb.mesh.ien[e] && R == ElementResidual(pb, LocalElement(pb, Ag, Yg, Dg, e), e, grid[e])
    ensures FdBlock(pb, Ag, Yg, Dg, grid, coef, dAc, dj, e)
         == if residual then ResidualBlock(ptr, R)
            else TangentColumn(ptr, dAc, FdColumn(R, coef, central, dj, pb.dof, pb.mesh.eNoN))
  {
  }

  /** What one element hands to the assembly, built from its local arrays:
      the residual itself, or the column lK is filled with from it. */
  method ColumnBlock(ptrRow: array<int>, lR: array2<real>, lK: array3<real>, residual: bool, central: bool,
                     coef: real, dAc: int, dj: int) returns (blk: Assembly)
    requires 0 < lR.Length0 && lK.Length0 == lR.Length0 * lR.Length0 && lK.Length1 == lR.Length1 && lK.Length2 == 1
    requires !residual && !central ==> 0 <= dj < lR.Length0
    requires forall k, b :: 0 <= k < lK.Length0 && 0 <= b < lK.Length1 ==> lK[k, b, 0] == 0.0
    modifies lK
    ensures blk == if residual then ResidualBlock(ptrRow[..], Rows(lR))
                   else TangentColumn(ptrRow[..], dAc, FdColumn(Rows(lR), coef, central, dj, lR.Length0, lR.Length1))
  {
    if residual {
      return ResidualBlock(ptrRow[..], Rows(lR));
    }
    FillColumn(lK, lR, coef, central, dj);
    blk := TangentColumn(ptrRow[..], dAc, Grid3(lK));
  }

  /** The finite-difference pass over the evaluated set. No element can
      fail here: the same elements passed the smoothing pass with the same
      nodal fields. */
  method FdPass(pb: Problem, st: ComState, Ag: Mat, Yg: Mat, Dg: Mat, es: seq<nat>, residual: bool, central: bool,
                coef: real, dAc: int, dj: int, lKDummy: array3<real>)
    requires FieldsShaped(pb, Ag, Yg, Dg) && Ascending(es, pb.mesh.nEl) && PassOver(pb, Ag, Yg, Dg, es)
    requires residual == (ModeOf(dAc, dj) == ResidualEval) && central == (ModeOf(dAc, dj) == CentralEval)
    requires ColumnIndexOk(pb, dj) && st.Valid(pb.mesh.nEl, pb.mesh.nG, pb.nGrInt, pb.tnNo)
    requires lKDummy.Length0 == pb.dof * pb.dof && lKDummy.Length1 == pb.mesh.eNoN && lKDummy.Length2 == pb.mesh.eNoN
    requires lKDummy != st.grInt && lKDummy != st.grIntOrig
    modifies st, st.grInt, st.pSa, st.pSn, lKDummy
    ensures StateOver(pb, st, Ag, Yg, Dg, old(Grid3(st.grInt)), old(st.pSa[..]), old(Rows(st.pSn)), true, es)
    ensures st.assembled == old(st.assembled) + FdBlocks(pb, Ag, Yg, Dg, old(Grid3(st.grInt)), coef, dAc, dj, es)
  {
    var ptrRow := new int[pb.mesh.eNoN];
    var lR := new real[pb.dof, pb.mesh.eNoN];
    var lK := new real[pb.dof * pb.dof, pb.mesh.eNoN, 1];
    FdLoop(pb, st, Ag, Yg, Dg, es, residual, central, coef, dAc, dj, ptrRow, lR, lK, lKDummy);
  }

  /** The element loop of the finite-difference pass, over given local arrays. */
  method FdLoop(pb: Problem, st: ComState, Ag: Mat, Yg: Mat, Dg: Mat, es: seq<nat>, residual: bool, central: bool,
                coef: real, dAc: int, dj: int, ptrRow: array<int>, lR: array2<real>, lK: array3<real>, lKDummy: array3<real>)
    requires FieldsShaped(pb, Ag, Yg, Dg) && Ascending(es, pb.mesh.nEl) && PassOver(pb, Ag, Yg, Dg, es)
    requires residual == (ModeOf(dAc, dj) == ResidualEval) && central == (ModeOf(dAc, dj) == CentralEval)
    requires ColumnIndexOk(pb, dj) && st.Valid(pb.mesh.nEl, pb.mesh.nG, pb.nGrInt, pb.tnNo)
    requires FdArrays(pb, st, ptrRow, lR, lK, lKDummy)
    modifies st, st.grInt, st.pSa, st.pSn, ptrRow, lR, lK, lKDummy
    ensures StateOver(pb, st, Ag, Yg, Dg, old(Grid3(st.grInt)), old(st.pSa[..]), old(Rows(st.pSn)), true, es)
    ensures st.assembled == old(st.assembled) + FdBlocks(pb, Ag, Yg, Dg, old(Grid3(st.grInt)), coef, dAc, dj, es)
  {
    ghost var grid0, mass0, rows0, log0 := Grid3(st.grInt), st.pSa[..], Rows(st.pSn), st.assembled;
    assert GridOver(pb, Ag, Yg, Dg, grid0, []) == grid0;
    ghost var done: seq<nat> := [];
    TakeEnds(es);
    for k := 0 to |es|
      invariant done == es[..k] && InMesh(done, pb.mesh.nEl)
      invariant StateOver(pb, st, Ag, Yg, Dg, grid0, mass0, rows0, true, done)
      invariant st.assembled == log0 + FdBlocks(pb, Ag, Yg, Dg, grid0, coef, dAc, dj, done)
    {
      AscendingAt(pb, Ag, Yg, Dg, es, k);
      var e := es[k];
      FdElement(pb, st, Ag, Yg, Dg, e, residual, central, coef, dAc, dj, ptrRow, lR, lK, lKDummy,
                grid0, mass0, rows0, log0, done);
      done := done + [e];
    }
    TakeEnds(es);
  }

  /** eval_gr_fd: the state it leaves is the one its specification gives,
      and it fails exactly when the specification does. */
  method EvalGrFd(pb: Problem, st: ComState, Ag: Mat, Yg: Mat, Dg: Mat, smoothing: Smoothing, coef: real,
                  dAc: int, dj: int) returns (outcome: Outcome)
    requires FdCallOk(pb, Ag, Yg, Dg, smoothing, dj) && st.Valid(pb.mesh.nEl, pb.mesh.nG, pb.nGrInt, pb.tnNo)
    modifies st, st.grInt, st.grIntOrig, st.pSa, st.pSn
    ensures FdStateShaped(pb, old(FdStateOf(st)))
    ensures outcome == ResultOutcome(EvalGrFdSpec(pb, Ag, Yg, Dg, smoothing, coef, dAc, dj, old(FdStateOf(st))))
    ensures outcome.Pass? ==> FdStateOf(st) == EvalGrFdSpec(pb, Ag, Yg, Dg, smoothing, coef, dAc, dj, old(FdStateOf(st))).value
  {
    var residual := dAc == -1 && dj == -1;
    var central := dAc != -1 && dj == -1;
    var ptrDummy := new int[pb.mesh.eNoN];
    var lRDummy := new real[pb.dof, pb.mesh.eNoN];
    var lKDummy := new real[pb.dof * pb.dof, pb.mesh.eNoN, pb.mesh.eNoN];
    var eleFd;
    outcome, eleFd := PrepareCall(pb, st, Ag, Yg, Dg, smoothing, dAc, dj, ptrDummy, lRDummy, lKDummy);
    if outcome.Fail? {
      return;
    }
    FinishCall(pb, st, Ag, Yg, Dg, eleFd, residual, central, coef, dAc, dj, lKDummy);
  }

  /** The smoothing stage in place: the element sets, the update of grInt,
      pSa and pSn over the smoothed set into dummy arrays, and smoothing. */
  method PrepareCall(pb: Problem, st: ComState, Ag: Mat, Yg: Mat, Dg: Mat, smoothing: Smoothing, dAc: int, dj: int,
                     ptrDummy: array<int>, lRDummy: array2<real>, lKDummy: array3<real>)
    returns (outcome: Outcome, eleFd: seq<nat>)
    requires FdCallOk(pb, Ag, Yg, Dg, smoothing, dj) && st.Valid(pb.mesh.nEl, pb.mesh.nG, pb.nGrInt, pb.tnNo)
    requires ptrDummy.Length == pb.mesh.eNoN && BlockCtx(pb, st, lRDummy, lKDummy)
    modifies st.grInt, st.pSa, st.pSn, ptrDummy, lRDummy, lKDummy
    ensures FdStateShaped(pb, old(FdStateOf(st)))
    ensures outcome == ResultOutcome(SmoothingStage(pb, Ag, Yg, Dg, smoothing, dAc, dj, old(FdStateOf(st))))
    ensures outcome.Pass? ==>
      var p := SmoothingStage(pb, Ag, Yg, Dg, smoothing, dAc, dj, old(FdStateOf(st))).value;
      eleFd == p.fd && Grid3(st.grInt) == p.grid && st.pSa[..] == p.mass && Rows(st.pSn) == p.rows
  {
    var sets := ElementSetsOf(pb.mesh, smoothing, dAc, dj);
    if sets.Err? {
      return Fail(sets.error), [];
    }
    var eleSmooth;
    eleFd, eleSmooth := sets.value.fd, sets.value.smooth;
    outcome := SmoothingPass(pb, st, Ag, Yg, Dg, eleSmooth, ptrDummy, lRDummy, lKDummy);
    if outcome.Fail? {
      return;
    }
    FailureOverIff(pb, Ag, Yg, Dg, eleSmooth);
    GridHasIgr(pb, smoothing, Grid3(st.grInt));
    outcome := SmoothGrid(smoothing, pb.mesh, pb.tnNo, st.grInt, eleSmooth);
  }

  /** The tail of eval_gr_fd after smoothing: save grInt as grInt_orig for
      the residual, run the finite-difference pass, restore grInt. */
  method FinishCall(pb: Problem, st: ComState, Ag: Mat, Yg: Mat, Dg: Mat, es: seq<nat>, residual: bool, central: bool,
                    coef: real, dAc: int, dj: int, lKDummy: array3<real>)
    requires FieldsShaped(pb, Ag, Yg, Dg) && Ascending(es, pb.mesh.nEl) && PassOver(pb, Ag, Yg, Dg, es)
    requires residual == (ModeOf(dAc, dj) == ResidualEval) && central == (ModeOf(dAc, dj) == CentralEval)
    requires ColumnIndexOk(pb, dj) && st.Valid(pb.mesh.nEl, pb.mesh.nG, pb.nGrInt, pb.tnNo)
    requires lKDummy.Length0 == pb.dof * pb.dof && lKDummy.Length1 == pb.mesh.eNoN && lKDummy.Length2 == pb.mesh.eNoN
    requires lKDummy != st.grInt && lKDummy != st.grIntOrig
    modifies st, st.grInt, st.grIntOrig, st.pSa, st.pSn, lKDummy
    ensures var orig := if residual then old(Grid3(st.grInt)) else old(Grid3(st.grIntOrig));
      FdStateOf(st) == FdState(orig, orig, MassOver(pb, Ag, Yg, Dg, old(st.pSa[..]), es),
                               StressOver(pb, Ag, Yg, Dg, old(Grid3(st.grInt)), old(Rows(st.pSn)), true, es),
                               old(st.assembled) + FdBlocks(pb, Ag, Yg, Dg, old(Grid3(st.grInt)), coef, dAc, dj, es))
  {
    if residual {
      st.SaveGrid();
    }
    FdPass(pb, st, Ag, Yg, Dg, es, residual, central, coef, dAc, dj, lKDummy);
    st.RestoreGrid();
  }

  // ---------------------------------------------------------------------
  // The editable field copies that construct_gr_fd perturbs

  /** The editable copies, shaped like the fields and distinct from the
      solver state and from each other. */
  ghost predicate Copies(pb: Problem, st: ComState, eAg: array2<real>, eYg: array2<real>, eDg: array2<real>)
  {
    eAg.Length0 == pb.tDof && eAg.Length1 == pb.tnNo && eYg.Length0 == pb.tDof && eYg.Length1 == pb.tnNo
    && eDg.Length0 == pb.tDof && eDg.Length1 == pb.tnNo
    && eAg != eYg && eAg != eDg && eYg != eDg && eAg != st.pSn && eYg != st.pSn && eDg != st.pSn
  }

  /** The solver state and the editable copies between two evaluations:
      the copies hold the unperturbed fields. */
  ghost predicate Ready(pb: Problem, st: ComState, Ag: Mat, Yg: Mat, Dg: Mat,
                        eAg: array2<real>, eYg: array2<real>, eDg: array2<real>)
    reads eAg, eYg, eDg
  {
    st.Valid(pb.mesh.nEl, pb.mesh.nG, pb.nGrInt, pb.tnNo) && Copies(pb, st, eAg, eYg, eDg)
    && Rows(eAg) == Ag && Rows(eYg) == Yg && Rows(eDg) == Dg
  }
}
