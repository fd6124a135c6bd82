/** The finite-difference tangent of the G&R equations (construct_gr_fd):
    one residual evaluation, then for every node a central evaluation and,
    for every dof, three evaluations with one of the nodal acceleration,
    velocity and displacement arrays perturbed at that node and dof. */
module GrTangent {
  import opened Numerics
  import opened Params
  import opened State
  import opened SolidElement
  import opened SolidAssembly
  import opened GrSmoothing
  import opened GrFiniteDifference

  /** The finite-difference step. */
  const FdStep: real := 0.00000001

  /** The coefficients of the three perturbed evaluations: the
      time-integration weights of the acceleration, velocity and
      displacement, divided by the step. */
  datatype FdWeights = FdWeights(fa: real, fy: real, fd: real)

  function Weights(tp: TimeParams): (w: FdWeights)
    ensures w.fa * FdStep == tp.am
    ensures w.fy * FdStep == Afv(tp)
    ensures w.fd * FdStep == Afu(tp)
  {
    FdWeights(tp.am / FdStep, Afv(tp) / FdStep, Afu(tp) / FdStep)
  }

  /** The coefficient of the residual and central evaluations. */
  function CentralCoef(w: FdWeights): real
  {
    w.fa + w.fy + w.fd
  }

  /** Field M with entry (i, Ac) increased by the step. */
  function Perturb(M: Mat, i: nat, Ac: nat): (P: Mat)
    requires i < |M| && Ac < |M[i]|
    ensures |P| == |M| && forall r :: 0 <= r < |M| ==> |P[r]| == |M[r]|
  {
    M[i := M[i][Ac := M[i][Ac] + FdStep]]
  }

  /** A perturbed field differs from the field in entry (i, Ac) alone, and
      there by the step. */
  lemma PerturbEntries(M: Mat, i: nat, Ac: nat)
    requires i < |M| && Ac < |M[i]|
    ensures forall r, c :: 0 <= r < |M| && 0 <= c < |M[r]| ==>
      Perturb(M, i, Ac)[r][c] == if r == i && c == Ac then M[r][c] + FdStep else M[r][c]
  {
  }

  // ---------------------------------------------------------------------
  // The schedule of calls

  /** One call of eval_gr_fd: the fields it sees, its coefficient, node and dof. */
  datatype Call = Call(A: Mat, Y: Mat, D: Mat, coef: real, dAc: int, dj: int)

  ghost predicate CallShaped(pb: Problem, c: Call)
  {
    FieldsShaped(pb, c.A, c.Y, c.D) && ColumnIndexOk(pb, c.dj)
  }

  /** What construct_gr_fd demands: well-shaped fields, a dof that indexes
      the rows of the fields, and what eval_gr_fd demands of the mesh. */
  ghost predicate TangentOk(pb: Problem, Ag: Mat, Yg: Mat, Dg: Mat, smoothing: Smoothing)
  {
    FieldsShaped(pb, Ag, Yg, Dg) && pb.dof <= pb.tDof && AdjacencyShaped(pb.mesh)
    && (smoothing != NoSmoothing ==> Igr < pb.nGrInt)
  }

  /** The three perturbed calls of dof i at node Ac. */
  function DofCalls(pb: Problem, Ag: Mat, Yg: Mat, Dg: Mat, w: FdWeights, Ac: nat, i: nat): (cs: seq<Call>)
    requires FieldsShaped(pb, Ag, Yg, Dg) && i < pb.dof <= pb.tDof && Ac < pb.tnNo
    ensures |cs| == 3
  {
    [Call(Perturb(Ag, i, Ac), Yg, Dg, w.fa, Ac, i),
     Call(Ag, Perturb(Yg, i, Ac), Dg, w.fy, Ac, i),
     Call(Ag, Yg, Perturb(Dg, i, Ac), w.fd, Ac, i)]
  }

  /** The calls of node Ac up to dof n: the central call, then three calls
      per dof. */
  function NodeCalls(pb: Problem, Ag: Mat, Yg: Mat, Dg: Mat, w: FdWeights, Ac: nat, n: nat): (cs: seq<Call>)
    requires FieldsShaped(pb, Ag, Yg, Dg) && n <= pb.dof <= pb.tDof && Ac < pb.tnNo
    ensures |cs| == 1 + 3 * n
  {
    if n == 0 then [Call(Ag, Yg, Dg, CentralCoef(w), Ac, -1)]
    else NodeCalls(pb, Ag, Yg, Dg, w, Ac, n - 1) + DofCalls(pb, Ag, Yg, Dg, w, Ac, n - 1)
  }

  /** The calls of construct_gr_fd up to node n: the residual call, then
      the calls of each node in turn. */
  function Schedule(pb: Problem, Ag: Mat, Yg: Mat, Dg: Mat, w: FdWeights, n: nat): (cs: seq<Call>)
    requires FieldsShaped(pb, Ag, Yg, Dg) && pb.dof <= pb.tDof && n <= pb.tnNo
    ensures |cs| >= 1
  {
    if n == 0 then [Call(Ag, Yg, Dg, CentralCoef(w), -1, -1)]
    else Schedule(pb, Ag, Yg, Dg, w, n - 1) + NodeCalls(pb, Ag, Yg, Dg, w, n - 1, pb.dof)
  }

  /** A way of running one call of eval_gr_fd on a state. */
  type StepFn = (Call, FdState) -> Result<FdState>

  /** One call of eval_gr_fd on a state. A call outside what eval_gr_fd
      accepts (the schedule makes none) leaves the state as it is. */
  ghost function Step(pb: Problem, smoothing: Smoothing, c: Call, s: FdState): Result<FdState>
  {
    if FdCallOk(pb, c.A, c.Y, c.D, smoothing, c.dj) && FdStateShaped(pb, s)
    then EvalGrFdSpec(pb, c.A, c.Y, c.D, smoothing, c.coef, c.dAc, c.dj, s)
    else Ok(s)
  }

  ghost function StepOf(pb: Problem, smoothing: Smoothing): StepFn
  {
    (c, s) => Step(pb, smoothing, c, s)
  }

  /** f is one call of eval_gr_fd on this problem; the equation is used
      only where a call of Step is written out. */
  ghost predicate IsStep(f: StepFn, pb: Problem, smoothing: Smoothing)
  {
    forall c, s {:trigger Step(pb, smoothing, c, s)} :: f(c, s) == Step(pb, smoothing, c, s)
  }

  lemma StepOfIsStep(pb: Problem, smoothing: Smoothing)
    ensures IsStep(StepOf(pb, smoothing), pb, smoothing)
  {
  }

  /** Calls run in order, each on the state the one before left; the
      first failure ends the run. */
  ghost function Run(f: StepFn, cs: seq<Call>, s0: FdState): Result<FdState>
    decreases |cs|
  {
    if |cs| == 0 then Ok(s0)
    else
      match Run(f, cs[..|cs| - 1], s0)
      case Err(e) => Err(e)
      case Ok(s) => f(cs[|cs| - 1], s)
  }

  /** The state after the given calls of eval_gr_fd, or the first failure. */
  ghost function RunCalls(pb: Problem, smoothing: Smoothing, cs: seq<Call>, s0: FdState): Result<FdState>
  {
    Run(StepOf(pb, smoothing), cs, s0)
  }

  /** Running two lists of calls one after the other. */
  lemma {:induction false} RunAppend(f: StepFn, cs: seq<Call>, ds: seq<Call>, s0: FdState)
    ensures Run(f, cs + ds, s0) ==
      match Run(f, cs, s0)
      case Err(e) => Err(e)
      case Ok(s) => Run(f, ds, s)
    decreases |ds|
  {
    if |ds| == 0 {
      assert cs + ds == cs;
    } else {
      var p := ds[..|ds| - 1];
      assert (cs + ds)[..|cs + ds| - 1] == cs + p;
      RunAppend(f, cs, p, s0);
    }
  }

  /** The run of the first n + 1 calls of a list. */
  lemma RunStep(f: StepFn, cs: seq<Call>, n: nat, s0: FdState)
    requires n < |cs|
    ensures Run(f, cs[..n + 1], s0) ==
      match Run(f, cs[..n], s0)
      case Err(e) => Err(e)
      case Ok(s) => f(cs[n], s)
  {
    assert cs[..n + 1][..n] == cs[..n];
  }

  /** A failure ends the run: running more calls after it gives the same failure. */
  lemma {:induction false} RunFailurePersists(f: StepFn, cs: seq<Call>, n: nat, s0: FdState)
    requires n <= |cs| && Run(f, cs[..n], s0).Err?
    ensures Run(f, cs, s0) == Run(f, cs[..n], s0)
    decreases |cs| - n
  {
    if n < |cs| {
      RunStep(f, cs, n, s0);
      RunFailurePersists(f, cs, n + 1, s0);
    } else {
      assert cs[..n] == cs;
    }
  }

  /** Running a block of calls that continues a run already under way: the
      block starts from where the run left off, and a failure inside it is
      the failure of every longer run. */
  lemma RunChain(f: StepFn, all: seq<Call>, mid: seq<Call>, pre: seq<Call>, ds: seq<Call>, s0: FdState)
    requires mid == pre + ds && |mid| <= |all| && all[..|mid|] == mid
    requires Run(f, pre, s0).Ok?
    ensures Run(f, mid, s0) == Run(f, ds, Run(f, pre, s0).value)
    ensures Run(f, ds, Run(f, pre, s0).value).Err? ==> Run(f, all, s0) == Run(f, ds, Run(f, pre, s0).value)
  {
    RunAppend(f, pre, ds, s0);
    if Run(f, mid, s0).Err? {
      RunFailurePersists(f, all, |mid|, s0);
    }
  }

  /** The calls of a node up to a dof begin its calls up to any later dof. */
  lemma {:induction false} NodeCallsPrefix(pb: Problem, Ag: Mat, Yg: Mat, Dg: Mat, w: FdWeights, Ac: nat, n: nat, m: nat)
    requires FieldsShaped(pb, Ag, Yg, Dg) && n <= m <= pb.dof <= pb.tDof && Ac < pb.tnNo
    ensures |NodeCalls(pb, Ag, Yg, Dg, w, Ac, n)| <= |NodeCalls(pb, Ag, Yg, Dg, w, Ac, m)|
    ensures NodeCalls(pb, Ag, Yg, Dg, w, Ac, m)[..|NodeCalls(pb, Ag, Yg, Dg, w, Ac, n)|] == NodeCalls(pb, Ag, Yg, Dg, w, Ac, n)
    decreases m
  {
    if n < m {
      NodeCallsPrefix(pb, Ag, Yg, Dg, w, Ac, n, m - 1);
    }
  }

  /** The schedule up to a node begins the schedule up to any later node. */
  lemma {:induction false} SchedulePrefix(pb: Problem, Ag: Mat, Yg: Mat, Dg: Mat, w: FdWeights, n: nat, m: nat)
    requires FieldsShaped(pb, Ag, Yg, Dg) && pb.dof <= pb.tDof && n <= m <= pb.tnNo
    ensures |Schedule(pb, Ag, Yg, Dg, w, n)| <= |Schedule(pb, Ag, Yg, Dg, w, m)|
    ensures Schedule(pb, Ag, Yg, Dg, w, m)[..|Schedule(pb, Ag, Yg, Dg, w, n)|] == Schedule(pb, Ag, Yg, Dg, w, n)
    decreases m
  {
    if n < m {
      SchedulePrefix(pb, Ag, Yg, Dg, w, n, m - 1);
    }
  }

  /** The calls of dof i continue the calls of its node up to dof i, and
      their failure is the failure of all the node's calls. */
  lemma DofChain(f: StepFn, pb: Problem, Ag: Mat, Yg: Mat, Dg: Mat, w: FdWeights, Ac: nat, i: nat, s0: FdState)
    requires FieldsShaped(pb, Ag, Yg, Dg) && i < pb.dof <= pb.tDof && Ac < pb.tnNo
    requires Run(f, NodeCalls(pb, Ag, Yg, Dg, w, Ac, i), s0).Ok?
    ensures var s := Run(f, NodeCalls(pb, Ag, Yg, Dg, w, Ac, i), s0).value;
      Run(f, NodeCalls(pb, Ag, Yg, Dg, w, Ac, i + 1), s0) == Run(f, DofCalls(pb, Ag, Yg, Dg, w, Ac, i), s)
      && (Run(f, DofCalls(pb, Ag, Yg, Dg, w, Ac, i), s).Err? ==>
          Run(f, NodeCalls(pb, Ag, Yg, Dg, w, Ac, pb.dof), s0) == Run(f, DofCalls(pb, Ag, Yg, Dg, w, Ac, i), s))
  {
    var all, mid := NodeCalls(pb, Ag, Yg, Dg, w, Ac, pb.dof), NodeCalls(pb, Ag, Yg, Dg, w, Ac, i + 1);
    var pre, ds := NodeCalls(pb, Ag, Yg, Dg, w, Ac, i), DofCalls(pb, Ag, Yg, Dg, w, Ac, i);
    NodeCallsNext(pb, Ag, Yg, Dg, w, Ac, i);
    NodeCallsPrefix(pb, Ag, Yg, Dg, w, Ac, i + 1, pb.dof);
    RunChain(f, all, mid, pre, ds, s0);
  }

  lemma NodeCallsNext(pb: Problem, Ag: Mat, Yg: Mat, Dg: Mat, w: FdWeights, Ac: nat, i: nat)
    requires FieldsShaped(pb, Ag, Yg, Dg) && i < pb.dof <= pb.tDof && Ac < pb.tnNo
    ensures NodeCalls(pb, Ag, Yg, Dg, w, Ac, i + 1) == NodeCalls(pb, Ag, Yg, Dg, w, Ac, i) + DofCalls(pb, Ag, Yg, Dg, w, Ac, i)
  {
  }

  /** The calls of node Ac continue the schedule up to that node, and their
      failure is the failure of the whole schedule. */
  lemma NodeChain(f: StepFn, pb: Problem, Ag: Mat, Yg: Mat, Dg: Mat, w: FdWeights, Ac: nat, s0: FdState)
    requires FieldsShaped(pb, Ag, Yg, Dg) && pb.dof <= pb.tDof && Ac < pb.tnNo
    requires Run(f, Schedule(pb, Ag, Yg, Dg, w, Ac), s0).Ok?
    ensures var s := Run(f, Schedule(pb, Ag, Yg, Dg, w, Ac), s0).value;
      Run(f, Schedule(pb, Ag, Yg, Dg, w, Ac + 1), s0) == Run(f, NodeCalls(pb, Ag, Yg, Dg, w, Ac, pb.dof), s)
      && (Run(f, NodeCalls(pb, Ag, Yg, Dg, w, Ac, pb.dof), s).Err? ==>
          Run(f, Schedule(pb, Ag, Yg, Dg, w, pb.tnNo), s0) == Run(f, NodeCalls(pb, Ag, Yg, Dg, w, Ac, pb.dof), s))
  {
    var all, mid := Schedule(pb, Ag, Yg, Dg, w, pb.tnNo), Schedule(pb, Ag, Yg, Dg, w, Ac + 1);
    var pre, ds := Schedule(pb, Ag, Yg, Dg, w, Ac), NodeCalls(pb, Ag, Yg, Dg, w, Ac, pb.dof);
    ScheduleNext(pb, Ag, Yg, Dg, w, Ac);
    SchedulePrefix(pb, Ag, Yg, Dg, w, Ac + 1, pb.tnNo);
    RunChain(f, all, mid, pre, ds, s0);
  }

  lemma ScheduleNext(pb: Problem, Ag: Mat, Yg: Mat, Dg: Mat, w: FdWeights, Ac: nat)
    requires FieldsShaped(pb, Ag, Yg, Dg) && pb.dof <= pb.tDof && Ac < pb.tnNo
    ensures Schedule(pb, Ag, Yg, Dg, w, Ac + 1) == Schedule(pb, Ag, Yg, Dg, w, Ac) + NodeCalls(pb, Ag, Yg, Dg, w, Ac, pb.dof)
  {
  }

  // ---------------------------------------------------------------------
  // Properties of the schedule

  /** The schedule makes 1 + tnNo (1 + 3 dof) calls. */
  lemma {:induction false} ScheduleLength(pb: Problem, Ag: Mat, Yg: Mat, Dg: Mat, w: FdWeights, n: nat)
    requires FieldsShaped(pb, Ag, Yg, Dg) && pb.dof <= pb.tDof && n <= pb.tnNo
    ensures |Schedule(pb, Ag, Yg, Dg, w, n)| == 1 + n * (1 + 3 * pb.dof)
    decreases n
  {
    if n > 0 {
      ScheduleLength(pb, Ag, Yg, Dg, w, n - 1);
      assert n * (1 + 3 * pb.dof) == (n - 1) * (1 + 3 * pb.dof) + (1 + 3 * pb.dof);
    }
  }

  /** A central call: the unperturbed fields with coefficient fa + fy + fd. */
  ghost predicate CentralCall(c: Call, Ag: Mat, Yg: Mat, Dg: Mat, w: FdWeights)
  {
    c.A == Ag && c.Y == Yg && c.D == Dg && c.coef == CentralCoef(w) && c.dj == -1
  }

  /** A perturbed call for a dof: exactly one field perturbed at (dj, dAc),
      with that field's coefficient. */
  ghost predicate PerturbedCall(pb: Problem, c: Call, Ag: Mat, Yg: Mat, Dg: Mat, w: FdWeights)
    requires FieldsShaped(pb, Ag, Yg, Dg) && pb.dof <= pb.tDof
  {
    0 <= c.dj < pb.dof && 0 <= c.dAc < pb.tnNo
    && (   (c.A == Perturb(Ag, c.dj, c.dAc) && c.Y == Yg && c.D == Dg && c.coef == w.fa)
        || (c.A == Ag && c.Y == Perturb(Yg, c.dj, c.dAc) && c.D == Dg && c.coef == w.fy)
        || (c.A == Ag && c.Y == Yg && c.D == Perturb(Dg, c.dj, c.dAc) && c.coef == w.fd))
  }

  /** Every call of a node is its central call or a perturbed call of one
      of its dofs; the central call comes first. */
  lemma {:induction false} NodeCallsShape(pb: Problem, Ag: Mat, Yg: Mat, Dg: Mat, w: FdWeights, Ac: nat, n: nat)
    requires FieldsShaped(pb, Ag, Yg, Dg) && n <= pb.dof <= pb.tDof && Ac < pb.tnNo
    ensures var cs := NodeCalls(pb, Ag, Yg, Dg, w, Ac, n);
      CentralCall(cs[0], Ag, Yg, Dg, w) && cs[0].dAc == Ac
      && forall k :: 1 <= k < |cs| ==> cs[k].dAc == Ac && PerturbedCall(pb, cs[k], Ag, Yg, Dg, w)
    decreases n
  {
    if n > 0 {
      NodeCallsShape(pb, Ag, Yg, Dg, w, Ac, n - 1);
    }
  }

  /** The first call of the schedule is the residual call on the
      unperturbed fields; every later call is, for a node of the mesh,
      its central call or a call with exactly one field perturbed at one
      of its dofs. */
  lemma {:induction false} ScheduleShape(pb: Problem, Ag: Mat, Yg: Mat, Dg: Mat, w: FdWeights, n: nat)
    requires FieldsShaped(pb, Ag, Yg, Dg) && pb.dof <= pb.tDof && n <= pb.tnNo
    ensures var cs := Schedule(pb, Ag, Yg, Dg, w, n);
      CentralCall(cs[0], Ag, Yg, Dg, w) && cs[0].dAc == -1
      && forall k :: 1 <= k < |cs| ==>
        0 <= cs[k].dAc < n && (CentralCall(cs[k], Ag, Yg, Dg, w) || PerturbedCall(pb, cs[k], Ag, Yg, Dg, w))
    decreases n
  {
    if n > 0 {
      var p := Schedule(pb, Ag, Yg, Dg, w, n - 1);
      var node := NodeCalls(pb, Ag, Yg, Dg, w, n - 1, pb.dof);
      assert Schedule(pb, Ag, Yg, Dg, w, n) == p + node;
      ScheduleShape(pb, Ag, Yg, Dg, w, n - 1);
      NodeCallsShape(pb, Ag, Yg, Dg, w, n - 1, pb.dof);
      ConcatIndex(p, node);
    }
  }

  /** Calls that are not the residual call, run from a state with grInt
      equal to grInt_orig, leave grInt and grInt_orig as they were. */
  lemma {:induction false} RunKeepsGrid(pb: Problem, smoothing: Smoothing, f: StepFn,
                                        cs: seq<Call>, s0: FdState)
    requires IsStep(f, pb, smoothing)
    requires forall k :: 0 <= k < |cs| ==> cs[k].dAc != -1
    requires s0.grid == s0.orig
    ensures Run(f, cs, s0).Ok? ==> Run(f, cs, s0).value.grid == s0.grid && Run(f, cs, s0).value.orig == s0.orig
    decreases |cs|
  {
    if |cs| > 0 {
      var p, c := cs[..|cs| - 1], cs[|cs| - 1];
      RunKeepsGrid(pb, smoothing, f, p, s0);
      var r := Run(f, p, s0);
      if r.Ok? {
        assert f(c, r.value) == Step(pb, smoothing, c, r.value);
        if FdCallOk(pb, c.A, c.Y, c.D, smoothing, c.dj) && FdStateShaped(pb, r.value)
           && EvalGrFdSpec(pb, c.A, c.Y, c.D, smoothing, c.coef, c.dAc, c.dj, r.value).Ok? {
          CallRestoresGrid(pb, c.A, c.Y, c.D, smoothing, c.coef, c.dAc, c.dj, r.value);
        }
      }
    }
  }

  /** The columns of one node leave the restored grid as they found it. */
  lemma NodeKeepsGrid(pb: Problem, Ag: Mat, Yg: Mat, Dg: Mat, smoothing: Smoothing,
                      f: StepFn, w: FdWeights, Ac: nat, s: FdState)
    requires IsStep(f, pb, smoothing)
    requires TangentOk(pb, Ag, Yg, Dg, smoothing) && Ac < pb.tnNo && s.grid == s.orig
    ensures var r := Run(f, NodeCalls(pb, Ag, Yg, Dg, w, Ac, pb.dof), s);
      r.Ok? ==> r.value.grid == s.grid && r.value.orig == s.orig
  {
    var node := NodeCalls(pb, Ag, Yg, Dg, w, Ac, pb.dof);
    NodeCallsShape(pb, Ag, Yg, Dg, w, Ac, pb.dof);
    assert forall k :: 0 <= k < |node| ==> node[k].dAc != -1;
    RunKeepsGrid(pb, smoothing, f, node, s);
  }

  /** The residual call leaves grInt and grInt_orig equal. */
  lemma FirstCallRestoresGrid(pb: Problem, Ag: Mat, Yg: Mat, Dg: Mat, smoothing: Smoothing,
                              f: StepFn, w: FdWeights, s0: FdState)
    requires IsStep(f, pb, smoothing)
    requires TangentOk(pb, Ag, Yg, Dg, smoothing) && FdStateShaped(pb, s0)
    requires Run(f, Schedule(pb, Ag, Yg, Dg, w, 0), s0).Ok?
    ensures Run(f, Schedule(pb, Ag, Yg, Dg, w, 0), s0).value.grid == Run(f, Schedule(pb, Ag, Yg, Dg, w, 0), s0).value.orig
  {
    var cs0 := Schedule(pb, Ag, Yg, Dg, w, 0);
    var c := Call(Ag, Yg, Dg, CentralCoef(w), -1, -1);
    RunStep(f, cs0, 0, s0);
    assert cs0[..0] == [] && cs0[..1] == cs0;
    assert f(c, s0) == Step(pb, smoothing, c, s0);
    CallRestoresGrid(pb, Ag, Yg, Dg, smoothing, CentralCoef(w), -1, -1, s0);
  }

  /** After the schedule, grInt and grInt_orig both hold the grid the
      residual call smoothed: every later evaluation restores it. */
  lemma {:induction false} ScheduleRestoresGrid(pb: Problem, Ag: Mat, Yg: Mat, Dg: Mat, smoothing: Smoothing,
                                                f: StepFn, w: FdWeights, n: nat, s0: FdState)
    requires IsStep(f, pb, smoothing)
    requires TangentOk(pb, Ag, Yg, Dg, smoothing) && n <= pb.tnNo && FdStateShaped(pb, s0)
    requires Run(f, Schedule(pb, Ag, Yg, Dg, w, n), s0).Ok?
    ensures Run(f, Schedule(pb, Ag, Yg, Dg, w, 0), s0).Ok?
    ensures var s := Run(f, Schedule(pb, Ag, Yg, Dg, w, n), s0).value;
      var s1 := Run(f, Schedule(pb, Ag, Yg, Dg, w, 0), s0).value;
      s.grid == s1.grid && s.orig == s1.grid
    decreases n
  {
    if n == 0 {
      FirstCallRestoresGrid(pb, Ag, Yg, Dg, smoothing, f, w, s0);
    } else {
      var p := Schedule(pb, Ag, Yg, Dg, w, n - 1);
      var node := NodeCalls(pb, Ag, Yg, Dg, w, n - 1, pb.dof);
      RunAppend(f, p, node, s0);
      ScheduleRestoresGrid(pb, Ag, Yg, Dg, smoothing, f, w, n - 1, s0);
      NodeKeepsGrid(pb, Ag, Yg, Dg, smoothing, f, w, n - 1, Run(f, p, s0).value);
    }
  }
}
