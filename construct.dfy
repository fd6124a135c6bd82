/** construct_dsolid in place: the element loop over the solver state,
    with the element arrays reset, evaluated and handed to the assembly one
    structural element at a time, proved against the list evaluation of
    SolidAssembly. */
module SolidConstruct {
  import opened Numerics
  import opened Params
  import opened SolidKernel
  import opened State
  import opened SolidElement
  import opened SolidAssembly

  /** eval_dsolid on one more element of the list: the element's failure
      is reported, or grInt, pSa and pSn account for it and lR and lK have
      gained its residual and tangent (when evaluating). */
  method EvalListed(pb: Problem, st: ComState, Ag: Mat, Yg: Mat, Dg: Mat, e: nat,
                    ptr: array<int>, lR: array2<real>, lK: array3<real>, eval: bool,
                    ghost grid0: Grid, ghost mass0: seq<real>, ghost rows0: seq<seq<real>>, ghost es: seq<nat>)
    returns (outcome: Outcome)
    requires FieldsShaped(pb, Ag, Yg, Dg) && e < pb.mesh.nEl && InMesh(es, pb.mesh.nEl) && e !in es
    requires st.Valid(pb.mesh.nEl, pb.mesh.nG, pb.nGrInt, pb.tnNo) && ptr.Length == pb.mesh.eNoN && BlockCtx(pb, st, lR, lK)
    requires GridShaped(pb, grid0) && |mass0| == pb.tnNo && IsMat(rows0, 6, pb.tnNo)
    requires StateOver(pb, st, Ag, Yg, Dg, grid0, mass0, rows0, eval, es)
    modifies st.grInt, st.pSa, st.pSn, ptr, lR, lK
    ensures ptr[..] == pb.mesh.ien[e]
    ensures outcome == OutcomeOf(ElementFailureAt(pb, Ag, Yg, Dg, e))
    ensures outcome == Pass ==> StateOver(pb, st, Ag, Yg, Dg, grid0, mass0, rows0, eval, es + [e])
    ensures outcome == Pass ==>
      ResidualProgress(pb, LocalElement(pb, Ag, Yg, Dg, e), e, grid0, eval, pb.mesh.nG, lR, old(Rows(lR)))
    ensures outcome == Pass ==>
      StiffnessProgress(pb, LocalElement(pb, Ag, Yg, Dg, e), e, grid0, eval, pb.mesh.nG, lK, old(Grid3(lK)))
  {
    ghost var gridNow, massNow, rowsNow := Grid3(st.grInt), st.pSa[..], Rows(st.pSn);
    outcome := EvalDsolid(pb, st, e, Ag, Yg, Dg, ptr, lR, lK, eval);
    assert ptr[..] == pb.mesh.ien[e];
    if outcome == Pass {
      PassOverSnoc(pb, Ag, Yg, Dg, es, e);
      assert gridNow[e] == grid0[e];
      GridStep(pb, st, Ag, Yg, Dg, grid0, es, e, gridNow);
      MassStep(pb, st, Ag, Yg, Dg, mass0, es, e, massNow);
      StressStep(pb, st, Ag, Yg, Dg, grid0, rows0, eval, es, e, gridNow, rowsNow);
    }
  }

  /** ptr = 0, lR = 0, lK = 0. */
  method ResetLocals(ptr: array<int>, lR: array2<real>, lK: array3<real>)
    modifies ptr, lR, lK
    ensures forall a :: 0 <= a < ptr.Length ==> ptr[a] == 0
    ensures forall r, a :: 0 <= r < lR.Length0 && 0 <= a < lR.Length1 ==> lR[r, a] == 0.0
    ensures forall k, a, b :: 0 <= k < lK.Length0 && 0 <= a < lK.Length1 && 0 <= b < lK.Length2 ==> lK[k, a, b] == 0.0
  {
    forall a | 0 <= a < ptr.Length {
      ptr[a] := 0;
    }
    forall r, a | 0 <= r < lR.Length0 && 0 <= a < lR.Length1 {
      lR[r, a] := 0.0;
    }
    forall k, a, b | 0 <= k < lK.Length0 && 0 <= a < lK.Length1 && 0 <= b < lK.Length2 {
      lK[k, a, b] := 0.0;
    }
  }

  /** Hand the arrays of an element that passed to the assembly. */
  method AssembleElement(pb: Problem, st: ComState, Ag: Mat, Yg: Mat, Dg: Mat, e: nat,
                         ptr: array<int>, lR: array2<real>, lK: array3<real>, trilinos: bool,
                         ghost grid0: Grid, ghost log0: seq<Assembly>, ghost es: seq<nat>)
    requires FieldsShaped(pb, Ag, Yg, Dg) && e < pb.mesh.nEl && InMesh(es, pb.mesh.nEl) && GridShaped(pb, grid0)
    requires BlockCtx(pb, st, lR, lK) && ptr[..] == pb.mesh.ien[e]
    requires PassOver(pb, Ag, Yg, Dg, es) && ElementFailureAt(pb, Ag, Yg, Dg, e) == None
    requires InMesh(es + [e], pb.mesh.nEl) && PassOver(pb, Ag, Yg, Dg, es + [e])
    requires st.assembled == log0 + BlocksOver(pb, Ag, Yg, Dg, grid0, trilinos, es)
    requires Rows(lR) == ElementResidual(pb, LocalElement(pb, Ag, Yg, Dg, e), e, grid0[e])
    requires Grid3(lK) == ElementStiffness(pb, LocalElement(pb, Ag, Yg, Dg, e), e, grid0[e])
    modifies st
    ensures st.assembled == log0 + BlocksOver(pb, Ag, Yg, Dg, grid0, trilinos, es + [e])
  {
    BlocksOverSnoc(pb, Ag, Yg, Dg, grid0, trilinos, es, e);
    var blk := ElementBlock(ptr[..], Grid3(lK), Rows(lR), trilinos);
    assert blk == BlockOf(pb, Ag, Yg, Dg, grid0, trilinos, e);
    AppendAssoc(log0, BlocksOver(pb, Ag, Yg, Dg, grid0, trilinos, es), [blk]);
    st.assembled := st.assembled + [blk];
  }

  /** Evaluate structural element e from zeroed arrays and assemble it. */
  method EvalElement(pb: Problem, st: ComState, Ag: Mat, Yg: Mat, Dg: Mat, e: nat,
                     ptr: array<int>, lR: array2<real>, lK: array3<real>, trilinos: bool,
                     ghost grid0: Grid, ghost mass0: seq<real>, ghost rows0: seq<seq<real>>, ghost log0: seq<Assembly>)
    returns (outcome: Outcome)
    requires FieldsShaped(pb, Ag, Yg, Dg) && e < pb.mesh.nEl && pb.mesh.structural[e]
    requires st.Valid(pb.mesh.nEl, pb.mesh.nG, pb.nGrInt, pb.tnNo) && ptr.Length == pb.mesh.eNoN
    requires BlockCtx(pb, st, lR, lK)
    requires forall r, a :: 0 <= r < lR.Length0 && 0 <= a < lR.Length1 ==> lR[r, a] == 0.0
    requires forall k, a, b :: 0 <= k < lK.Length0 && 0 <= a < lK.Length1 && 0 <= b < lK.Length2 ==> lK[k, a, b] == 0.0
    requires GridShaped(pb, grid0) && |mass0| == pb.tnNo && IsMat(rows0, 6, pb.tnNo)
    requires LoopDone(pb, st, Ag, Yg, Dg, grid0, mass0, rows0, log0, trilinos, e)
    modifies st, st.grInt, st.pSa, st.pSn, ptr, lR, lK
    ensures outcome == OutcomeOf(ElementFailureAt(pb, Ag, Yg, Dg, e))
    ensures outcome == Pass ==> LoopDone(pb, st, Ag, Yg, Dg, grid0, mass0, rows0, log0, trilinos, e + 1)
  {
    ghost var es := StructuralUpTo(pb.mesh.structural, e);
    ghost var el := LocalElement(pb, Ag, Yg, Dg, e);
    ghost var lR0, lK0 := Rows(lR), Grid3(lK);
    outcome := EvalListed(pb, st, Ag, Yg, Dg, e, ptr, lR, lK, true, grid0, mass0, rows0, es);
    if outcome == Pass {
      ResidualFromZero(pb, el, e, grid0, lR, lR0);
      StiffnessFromZero(pb, el, e, grid0, lK, lK0);
      PassOverSnoc(pb, Ag, Yg, Dg, es, e);
      AssembleElement(pb, st, Ag, Yg, Dg, e, ptr, lR, lK, trilinos, grid0, log0, es);
      StructuralStep(pb.mesh.structural, e);
    }
  }

  /** One pass of the element loop: reset the element arrays, skip an
      element that is not structural, evaluate and assemble the others. */
  method ElementStep(pb: Problem, st: ComState, Ag: Mat, Yg: Mat, Dg: Mat, e: nat,
                     ptr: array<int>, lR: array2<real>, lK: array3<real>, trilinos: bool,
                     ghost grid0: Grid, ghost mass0: seq<real>, ghost rows0: seq<seq<real>>, ghost log0: seq<Assembly>)
    returns (outcome: Outcome)
    requires FieldsShaped(pb, Ag, Yg, Dg) && e < pb.mesh.nEl
    requires st.Valid(pb.mesh.nEl, pb.mesh.nG, pb.nGrInt, pb.tnNo) && ptr.Length == pb.mesh.eNoN
    requires BlockCtx(pb, st, lR, lK)
    requires GridShaped(pb, grid0) && |mass0| == pb.tnNo && IsMat(rows0, 6, pb.tnNo)
    requires LoopDone(pb, st, Ag, Yg, Dg, grid0, mass0, rows0, log0, trilinos, e)
    modifies st, st.grInt, st.pSa, st.pSn, ptr, lR, lK
    ensures outcome == OutcomeOf(if pb.mesh.structural[e] then ElementFailureAt(pb, Ag, Yg, Dg, e) else None)
    ensures outcome == Pass ==> LoopDone(pb, st, Ag, Yg, Dg, grid0, mass0, rows0, log0, trilinos, e + 1)
  {
    ResetLocals(ptr, lR, lK);
    if !pb.mesh.structural[e] {
      StructuralStep(pb.mesh.structural, e);
      return Pass;
    }
    outcome := EvalElement(pb, st, Ag, Yg, Dg, e, ptr, lR, lK, trilinos, grid0, mass0, rows0, log0);
  }

  /** The loop over the elements of the mesh, from the state before the
      first element to the end or to the first structural element that
      fails. */
  method ElementLoop(pb: Problem, st: ComState, Ag: Mat, Yg: Mat, Dg: Mat,
                     ptr: array<int>, lR: array2<real>, lK: array3<real>, trilinos: bool,
                     ghost grid0: Grid, ghost mass0: seq<real>, ghost rows0: seq<seq<real>>, ghost log0: seq<Assembly>)
    returns (outcome: Outcome)
    requires FieldsShaped(pb, Ag, Yg, Dg) && st.Valid(pb.mesh.nEl, pb.mesh.nG, pb.nGrInt, pb.tnNo)
    requires ptr.Length == pb.mesh.eNoN && BlockCtx(pb, st, lR, lK)
    requires GridShaped(pb, grid0) && |mass0| == pb.tnNo && IsMat(rows0, 6, pb.tnNo)
    requires LoopDone(pb, st, Ag, Yg, Dg, grid0, mass0, rows0, log0, trilinos, 0)
    modifies st, st.grInt, st.pSa, st.pSn, ptr, lR, lK
    ensures outcome == OutcomeOf(FailureOver(pb, Ag, Yg, Dg, StructuralElements(pb.mesh)))
    ensures outcome == Pass ==> LoopDone(pb, st, Ag, Yg, Dg, grid0, mass0, rows0, log0, trilinos, pb.mesh.nEl)
  {
    var e := 0;
    while e < pb.mesh.nEl
      invariant 0 <= e <= pb.mesh.nEl
      invariant LoopDone(pb, st, Ag, Yg, Dg, grid0, mass0, rows0, log0, trilinos, e)
    {
      outcome := ElementStep(pb, st, Ag, Yg, Dg, e, ptr, lR, lK, trilinos, grid0, mass0, rows0, log0);
      if outcome != Pass {
        StopAt(pb, Ag, Yg, Dg, e);
        return;
      }
      e := e + 1;
    }
    FailureOverIff(pb, Ag, Yg, Dg, StructuralElements(pb.mesh));
    outcome := Pass;
  }

  /** construct_dsolid: the element loop over the mesh. It stops at the
      first structural element that fails; when none does, every
      structural element has been assembled once, in order, and grInt, pSa
      and pSn account for all of them. */
  method ConstructDsolid(pb: Problem, st: ComState, Ag: Mat, Yg: Mat, Dg: Mat, trilinos: bool)
    returns (outcome: Outcome)
    requires FieldsShaped(pb, Ag, Yg, Dg) && st.Valid(pb.mesh.nEl, pb.mesh.nG, pb.nGrInt, pb.tnNo)
    modifies st, st.grInt, st.pSa, st.pSn
    ensures outcome == OutcomeOf(FailureOver(pb, Ag, Yg, Dg, StructuralElements(pb.mesh)))
    ensures outcome == Pass ==>
      StateOver(pb, st, Ag, Yg, Dg, old(Grid3(st.grInt)), old(st.pSa[..]), old(Rows(st.pSn)), true, StructuralElements(pb.mesh))
    ensures outcome == Pass ==>
      st.assembled == old(st.assembled) + BlocksOver(pb, Ag, Yg, Dg, old(Grid3(st.grInt)), trilinos, StructuralElements(pb.mesh))
  {
    var ptr := new int[pb.mesh.eNoN];
    var lR := new real[pb.dof, pb.mesh.eNoN];
    var lK := new real[pb.dof * pb.dof, pb.mesh.eNoN, pb.mesh.eNoN];
    ghost var grid0, mass0, rows0, log0 := Grid3(st.grInt), st.pSa[..], Rows(st.pSn), st.assembled;
    assert GridOver(pb, Ag, Yg, Dg, grid0, []) == grid0;
    outcome := ElementLoop(pb, st, Ag, Yg, Dg, ptr, lR, lK, trilinos, grid0, mass0, rows0, log0);
  }
}
