/** construct_gr_fd in place: editable copies of the nodal fields are
    perturbed at one node and dof at a time and eval_gr_fd is called on
    them, in the order the schedule of GrTangent gives. */
module GrConstruct {
  import opened Numerics
  import opened Params
  import opened State
  import opened SolidElement
  import opened SolidAssembly
  import opened GrSmoothing
  import opened GrFiniteDifference
  import opened GrTangent

  /** An editable copy of a nodal field. */
  method CopyField(M: Mat, rows: nat, cols: nat) returns (a: array2<real>)
    requires IsMat(M, rows, cols)
    ensures fresh(a) && a.Length0 == rows && a.Length1 == cols && Rows(a) == M
  {
    a := new real[rows, cols]((r, c) requires 0 <= r < rows && 0 <= c < cols => M[r][c]);
    forall r | 0 <= r < rows
      ensures Row(a, r) == M[r]
    {
    }
  }

  /** Perturb entry (i, Ac) of an editable copy of field M by the step. */
  method Bump(a: array2<real>, ghost M: Mat, i: nat, Ac: nat)
    requires i < a.Length0 && Ac < a.Length1 && Rows(a) == M
    modifies a
    ensures Rows(a) == Perturb(M, i, Ac)
  {
    a[i, Ac] := a[i, Ac] + FdStep;
    forall r | 0 <= r < a.Length0
      ensures Row(a, r) == Perturb(M, i, Ac)[r]
    {
    }
  }

  /** Write back entry (i, Ac) of field M into its perturbed copy. */
  method Restore(a: array2<real>, M: Mat, i: nat, Ac: nat)
    requires i < a.Length0 && Ac < a.Length1 && IsMat(M, a.Length0, a.Length1) && Rows(a) == Perturb(M, i, Ac)
    modifies a
    ensures Rows(a) == M
  {
    a[i, Ac] := M[i][Ac];
    forall r | 0 <= r < a.Length0
      ensures Row(a, r) == M[r]
    {
    }
  }

  /** One call of eval_gr_fd in place. */
  method EvalCall(pb: Problem, st: ComState, smoothing: Smoothing, c: Call) returns (outcome: Outcome)
    requires AdjacencyShaped(pb.mesh) && (smoothing != NoSmoothing ==> Igr < pb.nGrInt) && CallShaped(pb, c)
    requires st.Valid(pb.mesh.nEl, pb.mesh.nG, pb.nGrInt, pb.tnNo)
    modifies st, st.grInt, st.grIntOrig, st.pSa, st.pSn
    ensures outcome == ResultOutcome(Step(pb, smoothing, c, old(FdStateOf(st))))
    ensures outcome.Pass? ==> FdStateOf(st) == Step(pb, smoothing, c, old(FdStateOf(st))).value
  {
    outcome := EvalGrFd(pb, st, c.A, c.Y, c.D, smoothing, c.coef, c.dAc, c.dj);
  }

  /** The call at position n of a list of calls, in place, when the calls
      before it have run: the run grows by one call, and a failure is the
      failure of the whole list. */
  method EvalStep(pb: Problem, st: ComState, smoothing: Smoothing, ghost f: StepFn, c: Call, ghost cs: seq<Call>, ghost n: nat,
                  ghost s0: FdState)
    returns (outcome: Outcome)
    requires IsStep(f, pb, smoothing)
    requires AdjacencyShaped(pb.mesh) && (smoothing != NoSmoothing ==> Igr < pb.nGrInt) && CallShaped(pb, c)
    requires st.Valid(pb.mesh.nEl, pb.mesh.nG, pb.nGrInt, pb.tnNo)
    requires n < |cs| && cs[n] == c && Run(f, cs[..n], s0) == Ok(FdStateOf(st))
    modifies st, st.grInt, st.grIntOrig, st.pSa, st.pSn
    ensures outcome == ResultOutcome(Run(f, cs[..n + 1], s0))
    ensures outcome.Pass? ==> Run(f, cs[..n + 1], s0) == Ok(FdStateOf(st))
    ensures outcome.Fail? ==> Run(f, cs, s0) == Run(f, cs[..n + 1], s0)
  {
    outcome := EvalCall(pb, st, smoothing, c);
    RunStep(f, cs, n, s0);
    if outcome.Fail? {
      RunFailurePersists(f, cs, n + 1, s0);
    }
  }

  /** The three perturbed evaluations of dof i at node Ac, with the copies
      perturbed before and restored after. */
  method PerturbDof(pb: Problem, st: ComState, Ag: Mat, Yg: Mat, Dg: Mat, eAg: array2<real>, eYg: array2<real>,
                    eDg: array2<real>, smoothing: Smoothing, ghost f: StepFn, w: FdWeights, Ac: nat, i: nat)
    returns (outcome: Outcome)
    requires IsStep(f, pb, smoothing)
    requires TangentOk(pb, Ag, Yg, Dg, smoothing) && i < pb.dof && Ac < pb.tnNo
    requires Ready(pb, st, Ag, Yg, Dg, eAg, eYg, eDg)
    modifies st, st.grInt, st.grIntOrig, st.pSa, st.pSn, eAg, eYg, eDg
    ensures outcome == ResultOutcome(Run(f, DofCalls(pb, Ag, Yg, Dg, w, Ac, i), old(FdStateOf(st))))
    ensures outcome.Pass? ==>
      FdStateOf(st) == Run(f, DofCalls(pb, Ag, Yg, Dg, w, Ac, i), old(FdStateOf(st))).value
    ensures outcome.Pass? ==> Ready(pb, st, Ag, Yg, Dg, eAg, eYg, eDg)
  {
    Bump(eAg, Ag, i, Ac);
    Bump(eYg, Yg, i, Ac);
    Bump(eDg, Dg, i, Ac);
    outcome := PerturbedCalls(pb, st, Ag, Yg, Dg, eAg, eYg, eDg, smoothing, f, w, Ac, i);
    if outcome.Fail? {
      return;
    }
    Restore(eAg, Ag, i, Ac);
    Restore(eYg, Yg, i, Ac);
    Restore(eDg, Dg, i, Ac);
  }

  /** The three evaluations of dof i at node Ac, on copies that hold the
      perturbed fields. */
  method PerturbedCalls(pb: Problem, st: ComState, Ag: Mat, Yg: Mat, Dg: Mat, eAg: array2<real>, eYg: array2<real>,
                        eDg: array2<real>, smoothing: Smoothing, ghost f: StepFn, w: FdWeights, Ac: nat, i: nat)
    returns (outcome: Outcome)
    requires IsStep(f, pb, smoothing)
    requires TangentOk(pb, Ag, Yg, Dg, smoothing) && i < pb.dof && Ac < pb.tnNo
    requires st.Valid(pb.mesh.nEl, pb.mesh.nG, pb.nGrInt, pb.tnNo) && Copies(pb, st, eAg, eYg, eDg)
    requires Rows(eAg) == Perturb(Ag, i, Ac) && Rows(eYg) == Perturb(Yg, i, Ac) && Rows(eDg) == Perturb(Dg, i, Ac)
    modifies st, st.grInt, st.grIntOrig, st.pSa, st.pSn
    ensures outcome == ResultOutcome(Run(f, DofCalls(pb, Ag, Yg, Dg, w, Ac, i), old(FdStateOf(st))))
    ensures outcome.Pass? ==>
      FdStateOf(st) == Run(f, DofCalls(pb, Ag, Yg, Dg, w, Ac, i), old(FdStateOf(st))).value
  {
    ghost var s0 := FdStateOf(st);
    ghost var cs := DofCalls(pb, Ag, Yg, Dg, w, Ac, i);
    TakeEnds(cs);
    outcome := EvalStep(pb, st, smoothing, f, Call(Rows(eAg), Yg, Dg, w.fa, Ac, i), cs, 0, s0);
    if outcome.Fail? {
      return;
    }
    outcome := EvalStep(pb, st, smoothing, f, Call(Ag, Rows(eYg), Dg, w.fy, Ac, i), cs, 1, s0);
    if outcome.Fail? {
      return;
    }
    outcome := EvalStep(pb, st, smoothing, f, Call(Ag, Yg, Rows(eDg), w.fd, Ac, i), cs, 2, s0);
  }

  /** The calls of node Ac: the central evaluation, then each dof in turn. */
  method NodeColumns(pb: Problem, st: ComState, Ag: Mat, Yg: Mat, Dg: Mat, eAg: array2<real>, eYg: array2<real>,
                     eDg: array2<real>, smoothing: Smoothing, ghost f: StepFn, w: FdWeights, Ac: nat)
    returns (outcome: Outcome)
    requires IsStep(f, pb, smoothing)
    requires TangentOk(pb, Ag, Yg, Dg, smoothing) && Ac < pb.tnNo
    requires Ready(pb, st, Ag, Yg, Dg, eAg, eYg, eDg)
    modifies st, st.grInt, st.grIntOrig, st.pSa, st.pSn, eAg, eYg, eDg
    ensures outcome == ResultOutcome(Run(f, NodeCalls(pb, Ag, Yg, Dg, w, Ac, pb.dof), old(FdStateOf(st))))
    ensures outcome.Pass? ==>
      FdStateOf(st) == Run(f, NodeCalls(pb, Ag, Yg, Dg, w, Ac, pb.dof), old(FdStateOf(st))).value
    ensures outcome.Pass? ==> Ready(pb, st, Ag, Yg, Dg, eAg, eYg, eDg)
  {
    ghost var s0 := FdStateOf(st);
    ghost var all := NodeCalls(pb, Ag, Yg, Dg, w, Ac, pb.dof);
    NodeCallsPrefix(pb, Ag, Yg, Dg, w, Ac, 0, pb.dof);
    TakeEnds(all);
    outcome := EvalStep(pb, st, smoothing, f, Call(Ag, Yg, Dg, CentralCoef(w), Ac, -1), all, 0, s0);
    if outcome.Fail? {
      return;
    }
    outcome := DofLoop(pb, st, Ag, Yg, Dg, eAg, eYg, eDg, smoothing, f, w, Ac, s0);
  }

  /** Dof i of node Ac, continuing the calls of that node. */
  method DofStep(pb: Problem, st: ComState, Ag: Mat, Yg: Mat, Dg: Mat, eAg: array2<real>, eYg: array2<real>,
                 eDg: array2<real>, smoothing: Smoothing, ghost f: StepFn, w: FdWeights, Ac: nat, i: nat, ghost s0: FdState)
    returns (outcome: Outcome)
    requires IsStep(f, pb, smoothing)
    requires TangentOk(pb, Ag, Yg, Dg, smoothing) && Ac < pb.tnNo && i < pb.dof
    requires Ready(pb, st, Ag, Yg, Dg, eAg, eYg, eDg)
    requires Run(f, NodeCalls(pb, Ag, Yg, Dg, w, Ac, i), s0) == Ok(FdStateOf(st))
    modifies st, st.grInt, st.grIntOrig, st.pSa, st.pSn, eAg, eYg, eDg
    ensures outcome.Pass? ==> Run(f, NodeCalls(pb, Ag, Yg, Dg, w, Ac, i + 1), s0) == Ok(FdStateOf(st))
    ensures outcome.Pass? ==> Ready(pb, st, Ag, Yg, Dg, eAg, eYg, eDg)
    ensures outcome.Fail? ==> outcome == ResultOutcome(Run(f, NodeCalls(pb, Ag, Yg, Dg, w, Ac, pb.dof), s0))
  {
    outcome := PerturbDof(pb, st, Ag, Yg, Dg, eAg, eYg, eDg, smoothing, f, w, Ac, i);
    DofChain(f, pb, Ag, Yg, Dg, w, Ac, i, s0);
  }

  /** The loop over the dofs of node Ac, after its central evaluation. */
  method DofLoop(pb: Problem, st: ComState, Ag: Mat, Yg: Mat, Dg: Mat, eAg: array2<real>, eYg: array2<real>,
                 eDg: array2<real>, smoothing: Smoothing, ghost f: StepFn, w: FdWeights, Ac: nat, ghost s0: FdState)
    returns (outcome: Outcome)
    requires IsStep(f, pb, smoothing)
    requires TangentOk(pb, Ag, Yg, Dg, smoothing) && Ac < pb.tnNo
    requires Ready(pb, st, Ag, Yg, Dg, eAg, eYg, eDg)
    requires Run(f, NodeCalls(pb, Ag, Yg, Dg, w, Ac, 0), s0) == Ok(FdStateOf(st))
    modifies st, st.grInt, st.grIntOrig, st.pSa, st.pSn, eAg, eYg, eDg
    ensures outcome == ResultOutcome(Run(f, NodeCalls(pb, Ag, Yg, Dg, w, Ac, pb.dof), s0))
    ensures outcome.Pass? ==> FdStateOf(st) == Run(f, NodeCalls(pb, Ag, Yg, Dg, w, Ac, pb.dof), s0).value
    ensures outcome.Pass? ==> Ready(pb, st, Ag, Yg, Dg, eAg, eYg, eDg)
  {
    for i := 0 to pb.dof
      invariant Ready(pb, st, Ag, Yg, Dg, eAg, eYg, eDg)
      invariant Run(f, NodeCalls(pb, Ag, Yg, Dg, w, Ac, i), s0) == Ok(FdStateOf(st))
    {
      outcome := DofStep(pb, st, Ag, Yg, Dg, eAg, eYg, eDg, smoothing, f, w, Ac, i, s0);
      if outcome.Fail? {
        return;
      }
    }
    return Pass;
  }

  /** Node Ac, continuing the schedule. */
  method NodeStep(pb: Problem, st: ComState, Ag: Mat, Yg: Mat, Dg: Mat, eAg: array2<real>, eYg: array2<real>,
                  eDg: array2<real>, smoothing: Smoothing, ghost f: StepFn, w: FdWeights, Ac: nat, ghost s0: FdState)
    returns (outcome: Outcome)
    requires IsStep(f, pb, smoothing)
    requires TangentOk(pb, Ag, Yg, Dg, smoothing) && Ac < pb.tnNo
    requires Ready(pb, st, Ag, Yg, Dg, eAg, eYg, eDg)
    requires Run(f, Schedule(pb, Ag, Yg, Dg, w, Ac), s0) == Ok(FdStateOf(st))
    modifies st, st.grInt, st.grIntOrig, st.pSa, st.pSn, eAg, eYg, eDg
    ensures outcome.Pass? ==> Run(f, Schedule(pb, Ag, Yg, Dg, w, Ac + 1), s0) == Ok(FdStateOf(st))
    ensures outcome.Pass? ==> Ready(pb, st, Ag, Yg, Dg, eAg, eYg, eDg)
    ensures outcome.Fail? ==> outcome == ResultOutcome(Run(f, Schedule(pb, Ag, Yg, Dg, w, pb.tnNo), s0))
  {
    outcome := NodeColumns(pb, st, Ag, Yg, Dg, eAg, eYg, eDg, smoothing, f, w, Ac);
    NodeChain(f, pb, Ag, Yg, Dg, w, Ac, s0);
  }

  /** construct_gr_fd: the state it leaves is the one the schedule of
      calls gives, and it fails exactly when one of the calls does. */
  method ConstructGrFd(pb: Problem, st: ComState, Ag: Mat, Yg: Mat, Dg: Mat, smoothing: Smoothing)
    returns (outcome: Outcome)
    requires TangentOk(pb, Ag, Yg, Dg, smoothing) && st.Valid(pb.mesh.nEl, pb.mesh.nG, pb.nGrInt, pb.tnNo)
    modifies st, st.grInt, st.grIntOrig, st.pSa, st.pSn
    ensures outcome == ResultOutcome(RunCalls(pb, smoothing, Schedule(pb, Ag, Yg, Dg, Weights(pb.tp), pb.tnNo),
                                              old(FdStateOf(st))))
    ensures outcome.Pass? ==>
      FdStateOf(st) == RunCalls(pb, smoothing, Schedule(pb, Ag, Yg, Dg, Weights(pb.tp), pb.tnNo), old(FdStateOf(st))).value
  {
    ghost var f := StepOf(pb, smoothing);
    StepOfIsStep(pb, smoothing);
    var w := Weights(pb.tp);
    var eAg := CopyField(Ag, pb.tDof, pb.tnNo);
    var eYg := CopyField(Yg, pb.tDof, pb.tnNo);
    var eDg := CopyField(Dg, pb.tDof, pb.tnNo);
    ghost var s0 := FdStateOf(st);
    outcome := ResidualCall(pb, st, Ag, Yg, Dg, smoothing, f, w, s0);
    if outcome.Fail? {
      return;
    }
    outcome := NodeLoop(pb, st, Ag, Yg, Dg, eAg, eYg, eDg, smoothing, f, w, s0);
  }

  /** The loop over the nodes, after the residual evaluation. */
  method NodeLoop(pb: Problem, st: ComState, Ag: Mat, Yg: Mat, Dg: Mat, eAg: array2<real>, eYg: array2<real>,
                  eDg: array2<real>, smoothing: Smoothing, ghost f: StepFn, w: FdWeights, ghost s0: FdState)
    returns (outcome: Outcome)
    requires IsStep(f, pb, smoothing)
    requires TangentOk(pb, Ag, Yg, Dg, smoothing)
    requires Ready(pb, st, Ag, Yg, Dg, eAg, eYg, eDg)
    requires Run(f, Schedule(pb, Ag, Yg, Dg, w, 0), s0) == Ok(FdStateOf(st))
    modifies st, st.grInt, st.grIntOrig, st.pSa, st.pSn, eAg, eYg, eDg
    ensures outcome == ResultOutcome(Run(f, Schedule(pb, Ag, Yg, Dg, w, pb.tnNo), s0))
    ensures outcome.Pass? ==> FdStateOf(st) == Run(f, Schedule(pb, Ag, Yg, Dg, w, pb.tnNo), s0).value
  {
    outcome := Pass;
    var Ac := 0;
    while Ac < pb.tnNo
      invariant 0 <= Ac <= pb.tnNo && outcome == Pass
      invariant Ready(pb, st, Ag, Yg, Dg, eAg, eYg, eDg)
      invariant Run(f, Schedule(pb, Ag, Yg, Dg, w, Ac), s0) == Ok(FdStateOf(st))
    {
      outcome := NodeStep(pb, st, Ag, Yg, Dg, eAg, eYg, eDg, smoothing, f, w, Ac, s0);
      if outcome.Fail? {
        return;
      }
      Ac := Ac + 1;
    }
  }

  /** The residual evaluation that opens construct_gr_fd. */
  method ResidualCall(pb: Problem, st: ComState, Ag: Mat, Yg: Mat, Dg: Mat, smoothing: Smoothing, ghost f: StepFn,
                      w: FdWeights, ghost s0: FdState)
    returns (outcome: Outcome)
    requires IsStep(f, pb, smoothing)
    requires TangentOk(pb, Ag, Yg, Dg, smoothing) && st.Valid(pb.mesh.nEl, pb.mesh.nG, pb.nGrInt, pb.tnNo)
    requires s0 == FdStateOf(st)
    modifies st, st.grInt, st.grIntOrig, st.pSa, st.pSn
    ensures outcome.Pass? ==> Run(f, Schedule(pb, Ag, Yg, Dg, w, 0), s0) == Ok(FdStateOf(st))
    ensures outcome.Fail? ==> outcome == ResultOutcome(Run(f, Schedule(pb, Ag, Yg, Dg, w, pb.tnNo), s0))
  {
    ghost var all := Schedule(pb, Ag, Yg, Dg, w, pb.tnNo);
    SchedulePrefix(pb, Ag, Yg, Dg, w, 0, pb.tnNo);
    TakeEnds(all);
    outcome := EvalStep(pb, st, smoothing, f, Call(Ag, Yg, Dg, CentralCoef(w), -1, -1), all, 0, s0);
  }
}
