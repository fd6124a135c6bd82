/** What evaluating a list of elements one after the other does to the
    solver state, and the element loop of the solid equation
    (construct_dsolid) stated on it: for every element of the mesh whose
    domain is structural, the element is evaluated and its residual and
    tangent handed to the assembly. The list form is shared with the
    finite-difference tangent, which evaluates the elements of a std::set
    in ascending order. The loop in place is in SolidConstruct. */
module SolidAssembly {
  import opened Numerics
  import opened Params
  import opened SolidKernel
  import opened State
  import opened SolidElement

  // ---------------------------------------------------------------------
  // What one element contributes

  /** The element residual lR after all Gauss points, from zero. */
  function ElementResidual(pb: Problem, el: ElementLocal, e: nat, ge: seq<seq<real>>): (R: seq<seq<real>>)
    requires ProblemShaped(pb) && LocalShaped(pb, el) && e < pb.mesh.nEl
    requires SliceShaped(pb, ge) && FirstFailure(pb, el, e, pb.mesh.nG) == None
    ensures IsMat(R, pb.dof, pb.mesh.eNoN)
    ensures forall r, a :: 0 <= r < pb.dof && 0 <= a < pb.mesh.eNoN ==> R[r][a] == ResidualUpTo(pb, el, e, ge, pb.mesh.nG, r, a)
  {
    seq(pb.dof, r requires 0 <= r < pb.dof => ResidualRow(pb, el, e, ge, r))
  }

  /** Row r of the element residual. */
  function ResidualRow(pb: Problem, el: ElementLocal, e: nat, ge: seq<seq<real>>, r: nat): (row: seq<real>)
    requires ProblemShaped(pb) && LocalShaped(pb, el) && e < pb.mesh.nEl
    requires SliceShaped(pb, ge) && FirstFailure(pb, el, e, pb.mesh.nG) == None
    ensures |row| == pb.mesh.eNoN
    ensures forall a :: 0 <= a < pb.mesh.eNoN ==> row[a] == ResidualUpTo(pb, el, e, ge, pb.mesh.nG, r, a)
  {
    seq(pb.mesh.eNoN, a requires 0 <= a < pb.mesh.eNoN => ResidualUpTo(pb, el, e, ge, pb.mesh.nG, r, a))
  }

  /** Row a of block k of the element tangent: lK(k, a, .) after all
      Gauss points, from zero. */
  function StiffnessRow(pb: Problem, el: ElementLocal, e: nat, ge: seq<seq<real>>, k: nat, a: nat): (row: seq<real>)
    requires ProblemShaped(pb) && LocalShaped(pb, el) && e < pb.mesh.nEl && a < pb.mesh.eNoN
    requires SliceShaped(pb, ge) && FirstFailure(pb, el, e, pb.mesh.nG) == None
    ensures |row| == pb.mesh.eNoN
    ensures forall b :: 0 <= b < pb.mesh.eNoN ==> row[b] == StiffnessUpTo(pb, el, e, ge, pb.mesh.nG, k, a, b)
  {
    seq(pb.mesh.eNoN, b requires 0 <= b < pb.mesh.eNoN => StiffnessUpTo(pb, el, e, ge, pb.mesh.nG, k, a, b))
  }

  /** Row block k of the element tangent: lK(k, ., .) after all Gauss
      points, from zero. */
  function StiffnessBlock(pb: Problem, el: ElementLocal, e: nat, ge: seq<seq<real>>, k: nat): (B: Mat)
    requires ProblemShaped(pb) && LocalShaped(pb, el) && e < pb.mesh.nEl
    requires SliceShaped(pb, ge) && FirstFailure(pb, el, e, pb.mesh.nG) == None
    ensures |B| == pb.mesh.eNoN
    ensures forall a :: 0 <= a < pb.mesh.eNoN ==> B[a] == StiffnessRow(pb, el, e, ge, k, a)
  {
    seq(pb.mesh.eNoN, a requires 0 <= a < pb.mesh.eNoN => StiffnessRow(pb, el, e, ge, k, a))
  }

  /** The element tangent lK after all Gauss points, from zero. */
  function ElementStiffness(pb: Problem, el: ElementLocal, e: nat, ge: seq<seq<real>>): (K: Grid)
    requires ProblemShaped(pb) && LocalShaped(pb, el) && e < pb.mesh.nEl
    requires SliceShaped(pb, ge) && FirstFailure(pb, el, e, pb.mesh.nG) == None
    ensures |K| == pb.dof * pb.dof
    ensures forall k :: 0 <= k < |K| ==> K[k] == StiffnessBlock(pb, el, e, ge, k)
  {
    seq(pb.dof * pb.dof, k requires 0 <= k < pb.dof * pb.dof => StiffnessBlock(pb, el, e, ge, k))
  }

  /** The G&R variables of element e after its Gauss points, from slice ge. */
  function LawSlices(pb: Problem, el: ElementLocal, e: nat, ge: seq<seq<real>>): (s: seq<seq<real>>)
    requires ProblemShaped(pb) && LocalShaped(pb, el) && e < pb.mesh.nEl && SliceShaped(pb, ge)
    ensures SliceShaped(pb, s)
    ensures forall g :: 0 <= g < pb.mesh.nG ==> s[g] == LawOutAt(pb, el, e, ge, g).grInt
  {
    seq(pb.mesh.nG, g requires 0 <= g < pb.mesh.nG => LawOutAt(pb, el, e, ge, g).grInt)
  }

  ghost predicate FieldsShaped(pb: Problem, Ag: Mat, Yg: Mat, Dg: Mat)
  {
    ProblemShaped(pb) && FieldShaped(pb, Ag) && FieldShaped(pb, Yg) && FieldShaped(pb, Dg)
  }

  /** Every listed element is an element of the mesh. */
  ghost predicate InMesh(es: seq<nat>, nEl: nat)
  {
    forall k :: 0 <= k < |es| ==> es[k] < nEl
  }

  /** Dropping the last listed element keeps the list in the mesh. */
  lemma InMeshPrefix(es: seq<nat>, nEl: nat)
    requires InMesh(es, nEl) && |es| > 0
    ensures InMesh(es[..|es| - 1], nEl) && es[|es| - 1] < nEl
  {
  }

  /** A set of elements as std::set iterates it: ascending, in the mesh. */
  ghost predicate Ascending(es: seq<nat>, nEl: nat)
  {
    InMesh(es, nEl) && forall k, l :: 0 <= k < l < |es| ==> es[k] < es[l]
  }

  // ---------------------------------------------------------------------
  // A list of elements evaluated in order

  /** What evaluating element e reports: its first failing Gauss point. */
  function ElementFailureAt(pb: Problem, Ag: Mat, Yg: Mat, Dg: Mat, e: nat): Option<Failure>
    requires FieldsShaped(pb, Ag, Yg, Dg) && e < pb.mesh.nEl
  {
    FirstFailure(pb, LocalElement(pb, Ag, Yg, Dg, e), e, pb.mesh.nG)
  }

  /** The first failure among the listed elements, in list order. */
  function FailureOver(pb: Problem, Ag: Mat, Yg: Mat, Dg: Mat, es: seq<nat>): Option<Failure>
    requires FieldsShaped(pb, Ag, Yg, Dg) && InMesh(es, pb.mesh.nEl)
  {
    if |es| == 0 then None
    else
      var f := FailureOver(pb, Ag, Yg, Dg, es[..|es| - 1]);
      if f.Some? then f else ElementFailureAt(pb, Ag, Yg, Dg, es[|es| - 1])
  }

  /** Every listed element passes all its Gauss points. */
  ghost predicate PassOver(pb: Problem, Ag: Mat, Yg: Mat, Dg: Mat, es: seq<nat>)
    requires FieldsShaped(pb, Ag, Yg, Dg) && InMesh(es, pb.mesh.nEl)
  {
    forall k :: 0 <= k < |es| ==> ElementFailureAt(pb, Ag, Yg, Dg, es[k]) == None
  }

  /** The k-th element of an ascending list: in the mesh and not among
      the ones before it. */
  lemma AscendingTake(es: seq<nat>, nEl: nat, k: nat)
    requires Ascending(es, nEl) && k < |es|
    ensures es[k] < nEl && InMesh(es[..k], nEl) && es[k] !in es[..k] && es[..k + 1] == es[..k] + [es[k]]
  {
    TakeOneMore(es, k);
  }

  /** The k-th element of an ascending, passing list also passes. */
  lemma AscendingAt(pb: Problem, Ag: Mat, Yg: Mat, Dg: Mat, es: seq<nat>, k: nat)
    requires FieldsShaped(pb, Ag, Yg, Dg) && Ascending(es, pb.mesh.nEl) && PassOver(pb, Ag, Yg, Dg, es) && k < |es|
    ensures es[k] < pb.mesh.nEl && InMesh(es[..k], pb.mesh.nEl) && es[k] !in es[..k]
    ensures es[..k + 1] == es[..k] + [es[k]] && ElementFailureAt(pb, Ag, Yg, Dg, es[k]) == None
  {
    AscendingTake(es, pb.mesh.nEl, k);
  }

  /** grInt after the listed elements: with G&R active, each listed
      element's slices hold the law's updated variables, computed from
      its slices in grid0; the rest of grid0 is kept. */
  function GridOver(pb: Problem, Ag: Mat, Yg: Mat, Dg: Mat, grid0: Grid, es: seq<nat>): (G: Grid)
    requires FieldsShaped(pb, Ag, Yg, Dg) && GridShaped(pb, grid0)
    ensures GridShaped(pb, G)
  {
    seq(pb.mesh.nEl, e requires 0 <= e < pb.mesh.nEl =>
      if pb.grEq && e in es then LawSlices(pb, LocalElement(pb, Ag, Yg, Dg, e), e, grid0[e]) else grid0[e])
  }

  /** pSa after the listed elements, from mass0. */
  function MassOver(pb: Problem, Ag: Mat, Yg: Mat, Dg: Mat, mass0: seq<real>, es: seq<nat>): (v: seq<real>)
    requires FieldsShaped(pb, Ag, Yg, Dg) && InMesh(es, pb.mesh.nEl) && |mass0| == pb.tnNo
    ensures |v| == pb.tnNo
  {
    if |es| == 0 then mass0
    else
      var e := es[|es| - 1];
      var m := MassOver(pb, Ag, Yg, Dg, mass0, es[..|es| - 1]);
      if pb.pstEq then MassUpTo(pb, LocalElement(pb, Ag, Yg, Dg, e), e, m, pb.mesh.nG) else m
  }

  /** The rows of pSn after one element's Gauss points, from R. */
  function ElementStress(pb: Problem, el: ElementLocal, e: nat, ge: seq<seq<real>>, eval: bool, R: seq<seq<real>>): (R': seq<seq<real>>)
    requires ProblemShaped(pb) && LocalShaped(pb, el) && e < pb.mesh.nEl
    requires SliceShaped(pb, ge) && FirstFailure(pb, el, e, pb.mesh.nG) == None && IsMat(R, 6, pb.tnNo)
    ensures IsMat(R', 6, pb.tnNo)
  {
    seq(6, i requires 0 <= i < 6 => PrestressUpTo(pb, el, e, ge, eval, i, R[i], pb.mesh.nG))
  }

  /** The rows of pSn after the listed elements, from rows0. */
  function StressOver(pb: Problem, Ag: Mat, Yg: Mat, Dg: Mat, grid0: Grid, rows0: seq<seq<real>>, eval: bool, es: seq<nat>)
    : (R: seq<seq<real>>)
    requires FieldsShaped(pb, Ag, Yg, Dg) && InMesh(es, pb.mesh.nEl) && GridShaped(pb, grid0)
    requires IsMat(rows0, 6, pb.tnNo) && PassOver(pb, Ag, Yg, Dg, es)
    ensures IsMat(R, 6, pb.tnNo)
  {
    if |es| == 0 then rows0
    else
      var e := es[|es| - 1];
      var R := StressOver(pb, Ag, Yg, Dg, grid0, rows0, eval, es[..|es| - 1]);
      if pb.pstEq then
        assert ElementFailureAt(pb, Ag, Yg, Dg, e) == None;
        ElementStress(pb, LocalElement(pb, Ag, Yg, Dg, e), e, grid0[e], eval, R)
      else R
  }

  /** The quadrature measure of element e: the sum of its Gauss weights
      times Jacobians. */
  function ElementMeasure(pb: Problem, Ag: Mat, Yg: Mat, Dg: Mat, e: nat): real
    requires FieldsShaped(pb, Ag, Yg, Dg) && e < pb.mesh.nEl
  {
    MeasureUpTo(pb, LocalElement(pb, Ag, Yg, Dg, e), pb.mesh.nG)
  }

  /** The measures of the listed elements. */
  function MeasureOver(pb: Problem, Ag: Mat, Yg: Mat, Dg: Mat, es: seq<nat>): real
    requires FieldsShaped(pb, Ag, Yg, Dg) && InMesh(es, pb.mesh.nEl)
  {
    if |es| == 0 then 0.0 else MeasureOver(pb, Ag, Yg, Dg, es[..|es| - 1]) + ElementMeasure(pb, Ag, Yg, Dg, es[|es| - 1])
  }

  // ---------------------------------------------------------------------
  // Properties of a list evaluation

  /** A list with one more element passes exactly when the shorter list
      and the new element do. */
  lemma PassOverSnoc(pb: Problem, Ag: Mat, Yg: Mat, Dg: Mat, es: seq<nat>, e: nat)
    requires FieldsShaped(pb, Ag, Yg, Dg) && InMesh(es, pb.mesh.nEl) && e < pb.mesh.nEl
    ensures InMesh(es + [e], pb.mesh.nEl)
    ensures PassOver(pb, Ag, Yg, Dg, es + [e]) <==> PassOver(pb, Ag, Yg, Dg, es) && ElementFailureAt(pb, Ag, Yg, Dg, e) == None
  {
    var es' := es + [e];
    SnocEntries(es, e);
    if PassOver(pb, Ag, Yg, Dg, es') {
      assert ElementFailureAt(pb, Ag, Yg, Dg, es'[|es|]) == None;
      forall k | 0 <= k < |es|
        ensures ElementFailureAt(pb, Ag, Yg, Dg, es[k]) == None
      {
        assert es'[k] == es[k];
      }
    }
    if PassOver(pb, Ag, Yg, Dg, es) && ElementFailureAt(pb, Ag, Yg, Dg, e) == None {
      forall k | 0 <= k < |es'|
        ensures ElementFailureAt(pb, Ag, Yg, Dg, es'[k]) == None
      {
        if k < |es| {
          assert es'[k] == es[k];
        }
      }
    }
  }

  /** The list gets through exactly when every listed element passes. */
  lemma {:induction false} FailureOverIff(pb: Problem, Ag: Mat, Yg: Mat, Dg: Mat, es: seq<nat>)
    requires FieldsShaped(pb, Ag, Yg, Dg) && InMesh(es, pb.mesh.nEl)
    ensures FailureOver(pb, Ag, Yg, Dg, es) == None <==> PassOver(pb, Ag, Yg, Dg, es)
    decreases |es|
  {
    if |es| > 0 {
      var p, e := es[..|es| - 1], es[|es| - 1];
      SplitLast(es);
      InMeshPrefix(es, pb.mesh.nEl);
      FailureOverIff(pb, Ag, Yg, Dg, p);
      PassOverSnoc(pb, Ag, Yg, Dg, p, e);
    }
  }

  /** A reported failure is that of a listed element all of whose
      predecessors in the list passed. */
  lemma {:induction false} FailingElement(pb: Problem, Ag: Mat, Yg: Mat, Dg: Mat, es: seq<nat>) returns (k: nat)
    requires FieldsShaped(pb, Ag, Yg, Dg) && InMesh(es, pb.mesh.nEl)
    requires FailureOver(pb, Ag, Yg, Dg, es).Some?
    ensures k < |es| && PassOver(pb, Ag, Yg, Dg, es[..k])
    ensures ElementFailureAt(pb, Ag, Yg, Dg, es[k]) == FailureOver(pb, Ag, Yg, Dg, es)
    decreases |es|
  {
    var p := es[..|es| - 1];
    if FailureOver(pb, Ag, Yg, Dg, p).Some? {
      k := FailingElement(pb, Ag, Yg, Dg, p);
      assert es[..k] == p[..k];
    } else {
      k := |es| - 1;
      FailureOverIff(pb, Ag, Yg, Dg, p);
    }
  }

  /** Once a prefix of the list has failed, the rest of the list does not
      change the reported failure. */
  lemma {:induction false} FailurePrefix(pb: Problem, Ag: Mat, Yg: Mat, Dg: Mat, es: seq<nat>, n: nat)
    requires FieldsShaped(pb, Ag, Yg, Dg) && InMesh(es, pb.mesh.nEl) && n <= |es|
    requires FailureOver(pb, Ag, Yg, Dg, es[..n]).Some?
    ensures FailureOver(pb, Ag, Yg, Dg, es) == FailureOver(pb, Ag, Yg, Dg, es[..n])
    decreases |es| - n
  {
    if n < |es| {
      var p := es[..|es| - 1];
      assert p[..n] == es[..n];
      FailurePrefix(pb, Ag, Yg, Dg, p, n);
    } else {
      assert es[..n] == es;
    }
  }

  /** What the last listed element adds to the total of pSa. */
  lemma MassOverStep(pb: Problem, Ag: Mat, Yg: Mat, Dg: Mat, mass0: seq<real>, es: seq<nat>)
    requires FieldsShaped(pb, Ag, Yg, Dg) && InMesh(es, pb.mesh.nEl) && |es| > 0 && |mass0| == pb.tnNo && pb.pstEq
    requires forall g :: 0 <= g < pb.mesh.nG ==> SeqSum(pb.mesh.N[g]) == 1.0
    ensures SeqSum(MassOver(pb, Ag, Yg, Dg, mass0, es))
         == SeqSum(MassOver(pb, Ag, Yg, Dg, mass0, es[..|es| - 1])) + ElementMeasure(pb, Ag, Yg, Dg, es[|es| - 1])
  {
    var e, p := es[|es| - 1], es[..|es| - 1];
    InMeshPrefix(es, pb.mesh.nEl);
    var el, m := LocalElement(pb, Ag, Yg, Dg, e), MassOver(pb, Ag, Yg, Dg, mass0, p);
    MassTotal(pb, el, e, m, pb.mesh.nG);
  }

  /** With prestressing on and shape functions that sum to one, the
      prestress denominator gains the measure of every listed element. */
  lemma {:induction false} MassOverTotal(pb: Problem, Ag: Mat, Yg: Mat, Dg: Mat, mass0: seq<real>, es: seq<nat>)
    requires FieldsShaped(pb, Ag, Yg, Dg) && InMesh(es, pb.mesh.nEl) && |mass0| == pb.tnNo && pb.pstEq
    requires forall g :: 0 <= g < pb.mesh.nG ==> SeqSum(pb.mesh.N[g]) == 1.0
    ensures SeqSum(MassOver(pb, Ag, Yg, Dg, mass0, es)) == SeqSum(mass0) + MeasureOver(pb, Ag, Yg, Dg, es)
    decreases |es|
  {
    if |es| > 0 {
      MassOverTotal(pb, Ag, Yg, Dg, mass0, es[..|es| - 1]);
      MassOverStep(pb, Ag, Yg, Dg, mass0, es);
    }
  }

  /** Without evaluation (eval = false) one element leaves the rows of
      the prestress numerator as they were. */
  lemma ElementStressWithoutEval(pb: Problem, el: ElementLocal, e: nat, ge: seq<seq<real>>, R: seq<seq<real>>)
    requires ProblemShaped(pb) && LocalShaped(pb, el) && e < pb.mesh.nEl
    requires SliceShaped(pb, ge) && FirstFailure(pb, el, e, pb.mesh.nG) == None && IsMat(R, 6, pb.tnNo)
    ensures ElementStress(pb, el, e, ge, false, R) == R
  {
    var S := ElementStress(pb, el, e, ge, false, R);
    forall i | 0 <= i < 6
      ensures S[i] == R[i]
    {
      PrestressWithoutEval(pb, el, e, ge, i, R[i], pb.mesh.nG);
    }
  }

  /** Without evaluation (eval = false) the prestress numerator pSn is
      left as it was, whatever the list. */
  lemma {:induction false} StressOverWithoutEval(pb: Problem, Ag: Mat, Yg: Mat, Dg: Mat, grid0: Grid, rows0: seq<seq<real>>,
                                                 es: seq<nat>)
    requires FieldsShaped(pb, Ag, Yg, Dg) && InMesh(es, pb.mesh.nEl) && GridShaped(pb, grid0)
    requires IsMat(rows0, 6, pb.tnNo) && PassOver(pb, Ag, Yg, Dg, es)
    ensures StressOver(pb, Ag, Yg, Dg, grid0, rows0, false, es) == rows0
    decreases |es|
  {
    if |es| > 0 {
      var e, p := es[|es| - 1], es[..|es| - 1];
      InMeshPrefix(es, pb.mesh.nEl);
      SplitLast(es);
      PassOverSnoc(pb, Ag, Yg, Dg, p, e);
      StressOverWithoutEval(pb, Ag, Yg, Dg, grid0, rows0, p);
      if pb.pstEq {
        ElementStressWithoutEval(pb, LocalElement(pb, Ag, Yg, Dg, e), e, grid0[e], rows0);
      }
    }
  }

  /** Without G&R the variables are left as they were. */
  lemma GridOverWithoutGr(pb: Problem, Ag: Mat, Yg: Mat, Dg: Mat, grid0: Grid, es: seq<nat>)
    requires FieldsShaped(pb, Ag, Yg, Dg) && GridShaped(pb, grid0) && !pb.grEq
    ensures GridOver(pb, Ag, Yg, Dg, grid0, es) == grid0
  {
    var G := GridOver(pb, Ag, Yg, Dg, grid0, es);
    assert |G| == |grid0|;
    forall e | 0 <= e < pb.mesh.nEl
      ensures G[e] == grid0[e]
    {
    }
  }

  // ---------------------------------------------------------------------
  // Evaluating one listed element in place

  /** The state after the listed elements, relative to the values before
      the first. */
  ghost predicate StateOver(pb: Problem, st: ComState, Ag: Mat, Yg: Mat, Dg: Mat, grid0: Grid, mass0: seq<real>,
                            rows0: seq<seq<real>>, eval: bool, es: seq<nat>)
    requires FieldsShaped(pb, Ag, Yg, Dg) && InMesh(es, pb.mesh.nEl) && GridShaped(pb, grid0)
    requires |mass0| == pb.tnNo && IsMat(rows0, 6, pb.tnNo)
    reads st.grInt, st.pSa, st.pSn
  {
    PassOver(pb, Ag, Yg, Dg, es)
    && Grid3(st.grInt) == GridOver(pb, Ag, Yg, Dg, grid0, es)
    && st.pSa[..] == MassOver(pb, Ag, Yg, Dg, mass0, es)
    && Rows(st.pSn) == StressOver(pb, Ag, Yg, Dg, grid0, rows0, eval, es)
  }

  /** grInt after one more element: its slices now hold the law's updated
      variables (G&R active), the rest is as before. */
  lemma GridStep(pb: Problem, st: ComState, Ag: Mat, Yg: Mat, Dg: Mat, grid0: Grid, es: seq<nat>, e: nat, gridNow: Grid)
    requires FieldsShaped(pb, Ag, Yg, Dg) && e < pb.mesh.nEl && GridShaped(pb, grid0) && e !in es
    requires st.Valid(pb.mesh.nEl, pb.mesh.nG, pb.nGrInt, pb.tnNo) && gridNow == GridOver(pb, Ag, Yg, Dg, grid0, es)
    requires GrProgress(pb, st, LocalElement(pb, Ag, Yg, Dg, e), e, gridNow, pb.mesh.nG)
    ensures Grid3(st.grInt) == GridOver(pb, Ag, Yg, Dg, grid0, es + [e])
  {
    var G, A := GridOver(pb, Ag, Yg, Dg, grid0, es + [e]), Grid3(st.grInt);
    forall e' | 0 <= e' < pb.mesh.nEl
      ensures A[e'] == G[e']
    {
      if e' != e {
        assert G[e'] == gridNow[e'];
      }
      forall g | 0 <= g < pb.mesh.nG
        ensures A[e'][g] == G[e'][g]
      {
        forall i | 0 <= i < pb.nGrInt
          ensures A[e'][g][i] == G[e'][g][i]
        {
          assert A[e'][g][i] == st.grInt[e', g, i];
        }
      }
    }
    assert A == G;
  }

  /** pSa after one more element. */
  lemma MassStep(pb: Problem, st: ComState, Ag: Mat, Yg: Mat, Dg: Mat, mass0: seq<real>, es: seq<nat>, e: nat,
                 massNow: seq<real>)
    requires FieldsShaped(pb, Ag, Yg, Dg) && e < pb.mesh.nEl && InMesh(es, pb.mesh.nEl) && |mass0| == pb.tnNo
    requires st.Valid(pb.mesh.nEl, pb.mesh.nG, pb.nGrInt, pb.tnNo) && massNow == MassOver(pb, Ag, Yg, Dg, mass0, es)
    requires MassProgress(pb, st, LocalElement(pb, Ag, Yg, Dg, e), e, pb.mesh.nG, massNow)
    ensures st.pSa[..] == MassOver(pb, Ag, Yg, Dg, mass0, es + [e])
  {
    assert (es + [e])[..|es|] == es;
  }

  /** The rows of pSn after one more passing element. */
  lemma StressOverSnoc(pb: Problem, Ag: Mat, Yg: Mat, Dg: Mat, grid0: Grid, rows0: seq<seq<real>>, eval: bool,
                       es: seq<nat>, e: nat)
    requires FieldsShaped(pb, Ag, Yg, Dg) && e < pb.mesh.nEl && InMesh(es, pb.mesh.nEl) && GridShaped(pb, grid0)
    requires IsMat(rows0, 6, pb.tnNo) && PassOver(pb, Ag, Yg, Dg, es) && ElementFailureAt(pb, Ag, Yg, Dg, e) == None
    ensures InMesh(es + [e], pb.mesh.nEl) && PassOver(pb, Ag, Yg, Dg, es + [e])
    ensures StressOver(pb, Ag, Yg, Dg, grid0, rows0, eval, es + [e])
         == if pb.pstEq then ElementStress(pb, LocalElement(pb, Ag, Yg, Dg, e), e, grid0[e], eval,
                                           StressOver(pb, Ag, Yg, Dg, grid0, rows0, eval, es))
            else StressOver(pb, Ag, Yg, Dg, grid0, rows0, eval, es)
  {
    PassOverSnoc(pb, Ag, Yg, Dg, es, e);
    assert (es + [e])[..|es|] == es;
  }

  /** pSn after one more element. */
  lemma StressStep(pb: Problem, st: ComState, Ag: Mat, Yg: Mat, Dg: Mat, grid0: Grid, rows0: seq<seq<real>>, eval: bool,
                   es: seq<nat>, e: nat, gridNow: Grid, rowsNow: seq<seq<real>>)
    requires FieldsShaped(pb, Ag, Yg, Dg) && e < pb.mesh.nEl && InMesh(es, pb.mesh.nEl) && GridShaped(pb, grid0)
    requires IsMat(rows0, 6, pb.tnNo) && PassOver(pb, Ag, Yg, Dg, es) && ElementFailureAt(pb, Ag, Yg, Dg, e) == None
    requires st.Valid(pb.mesh.nEl, pb.mesh.nG, pb.nGrInt, pb.tnNo) && GridShaped(pb, gridNow) && gridNow[e] == grid0[e]
    requires rowsNow == StressOver(pb, Ag, Yg, Dg, grid0, rows0, eval, es)
    requires StressProgress(pb, st, LocalElement(pb, Ag, Yg, Dg, e), e, gridNow, eval, pb.mesh.nG, rowsNow)
    ensures InMesh(es + [e], pb.mesh.nEl) && PassOver(pb, Ag, Yg, Dg, es + [e])
    ensures Rows(st.pSn) == StressOver(pb, Ag, Yg, Dg, grid0, rows0, eval, es + [e])
  {
    StressOverSnoc(pb, Ag, Yg, Dg, grid0, rows0, eval, es, e);
    var el := LocalElement(pb, Ag, Yg, Dg, e);
    var S := if pb.pstEq then ElementStress(pb, el, e, grid0[e], eval, rowsNow) else rowsNow;
    forall i | 0 <= i < 6
      ensures Row(st.pSn, i) == S[i]
    {
      forall j | 0 <= j < pb.tnNo
        ensures Row(st.pSn, i)[j] == S[i][j]
      {
      }
    }
    assert Rows(st.pSn) == S;
  }

  /** The element residual array after an element, from zero. */
  lemma ResidualFromZero(pb: Problem, el: ElementLocal, e: nat, grid0: Grid, lR: array2<real>, lR0: seq<seq<real>>)
    requires ProblemShaped(pb) && LocalShaped(pb, el) && e < pb.mesh.nEl && GridShaped(pb, grid0)
    requires FirstFailure(pb, el, e, pb.mesh.nG) == None
    requires lR.Length0 == pb.dof && lR.Length1 == pb.mesh.eNoN && IsMat(lR0, lR.Length0, lR.Length1)
    requires forall r, a :: 0 <= r < lR.Length0 && 0 <= a < lR.Length1 ==> lR0[r][a] == 0.0
    requires ResidualProgress(pb, el, e, grid0, true, pb.mesh.nG, lR, lR0)
    ensures Rows(lR) == ElementResidual(pb, el, e, grid0[e])
  {
    var R := ElementResidual(pb, el, e, grid0[e]);
    forall r | 0 <= r < pb.dof
      ensures Row(lR, r) == R[r]
    {
      forall a | 0 <= a < pb.mesh.eNoN
        ensures lR[r, a] == R[r][a]
      {
      }
    }
  }

  /** Row block k of the element tangent array after an element, from zero. */
  lemma BlockFromZero(pb: Problem, el: ElementLocal, e: nat, grid0: Grid, lK: array3<real>, lK0: Grid, k: nat)
    requires ProblemShaped(pb) && LocalShaped(pb, el) && e < pb.mesh.nEl && GridShaped(pb, grid0)
    requires FirstFailure(pb, el, e, pb.mesh.nG) == None
    requires lK.Length0 == pb.dof * pb.dof && lK.Length1 == pb.mesh.eNoN && lK.Length2 == pb.mesh.eNoN && k < lK.Length0
    requires IsGrid(lK0, lK.Length0, lK.Length1, lK.Length2)
    requires forall a, b :: 0 <= a < lK.Length1 && 0 <= b < lK.Length2 ==> lK0[k][a][b] == 0.0
    requires StiffnessProgress(pb, el, e, grid0, true, pb.mesh.nG, lK, lK0)
    ensures Grid3(lK)[k] == StiffnessBlock(pb, el, e, grid0[e], k)
  {
    var L, B := Grid3(lK), StiffnessBlock(pb, el, e, grid0[e], k);
    forall a | 0 <= a < lK.Length1
      ensures L[k][a] == B[a]
    {
      var row := StiffnessRow(pb, el, e, grid0[e], k, a);
      forall b | 0 <= b < lK.Length2
        ensures L[k][a][b] == row[b]
      {
        assert L[k][a][b] == lK[k, a, b];
      }
    }
  }

  /** The element tangent array after an element, from zero. */
  lemma StiffnessFromZero(pb: Problem, el: ElementLocal, e: nat, grid0: Grid, lK: array3<real>, lK0: Grid)
    requires ProblemShaped(pb) && LocalShaped(pb, el) && e < pb.mesh.nEl && GridShaped(pb, grid0)
    requires FirstFailure(pb, el, e, pb.mesh.nG) == None
    requires lK.Length0 == pb.dof * pb.dof && lK.Length1 == pb.mesh.eNoN && lK.Length2 == pb.mesh.eNoN
    requires IsGrid(lK0, lK.Length0, lK.Length1, lK.Length2)
    requires forall k, a, b :: 0 <= k < lK.Length0 && 0 <= a < lK.Length1 && 0 <= b < lK.Length2 ==> lK0[k][a][b] == 0.0
    requires StiffnessProgress(pb, el, e, grid0, true, pb.mesh.nG, lK, lK0)
    ensures Grid3(lK) == ElementStiffness(pb, el, e, grid0[e])
  {
    var K, L := ElementStiffness(pb, el, e, grid0[e]), Grid3(lK);
    forall k | 0 <= k < lK.Length0
      ensures L[k] == K[k]
    {
      BlockFromZero(pb, el, e, grid0, lK, lK0, k);
    }
  }

  // ---------------------------------------------------------------------
  // construct_dsolid

  /** The structural elements before n, in ascending order: exactly those
      whose domain is structural. */
  function StructuralUpTo(structural: seq<bool>, n: nat): (es: seq<nat>)
    requires n <= |structural|
    ensures forall k :: 0 <= k < |es| ==> es[k] < n && structural[es[k]]
    ensures forall k, l :: 0 <= k < l < |es| ==> es[k] < es[l]
    ensures forall e :: 0 <= e < n && structural[e] ==> e in es
  {
    if n == 0 then [] else StructuralUpTo(structural, n - 1) + (if structural[n - 1] then [n - 1] else [])
  }

  /** Element n joins the structural elements before it when it is structural. */
  lemma StructuralStep(structural: seq<bool>, n: nat)
    requires n < |structural|
    ensures structural[n] ==> StructuralUpTo(structural, n + 1) == StructuralUpTo(structural, n) + [n]
    ensures !structural[n] ==> StructuralUpTo(structural, n + 1) == StructuralUpTo(structural, n)
  {
    assert StructuralUpTo(structural, n) + [] == StructuralUpTo(structural, n);
  }

  /** The structural elements of the mesh. */
  function StructuralElements(m: Mesh): seq<nat>
    requires |m.structural| == m.nEl
  {
    StructuralUpTo(m.structural, m.nEl)
  }

  /** The structural elements before m come first among those before n. */
  lemma {:induction false} StructuralPrefix(structural: seq<bool>, m: nat, n: nat)
    requires m <= n <= |structural|
    ensures |StructuralUpTo(structural, m)| <= |StructuralUpTo(structural, n)|
    ensures StructuralUpTo(structural, n)[..|StructuralUpTo(structural, m)|] == StructuralUpTo(structural, m)
    decreases n - m
  {
    if m < n {
      StructuralPrefix(structural, m, n - 1);
      var a, b := StructuralUpTo(structural, m), StructuralUpTo(structural, n - 1);
      assert StructuralUpTo(structural, n)[..|b|] == b;
      assert b[..|a|] == a;
    }
  }

  /** The assembly call of element e: its nodes, tangent and residual. */
  function BlockOf(pb: Problem, Ag: Mat, Yg: Mat, Dg: Mat, grid0: Grid, trilinos: bool, e: nat): Assembly
    requires FieldsShaped(pb, Ag, Yg, Dg) && e < pb.mesh.nEl && GridShaped(pb, grid0)
    requires ElementFailureAt(pb, Ag, Yg, Dg, e) == None
  {
    var el := LocalElement(pb, Ag, Yg, Dg, e);
    ElementBlock(pb.mesh.ien[e], ElementStiffness(pb, el, e, grid0[e]), ElementResidual(pb, el, e, grid0[e]), trilinos)
  }

  /** The assembly calls of the listed elements, one each, in list order. */
  function BlocksOver(pb: Problem, Ag: Mat, Yg: Mat, Dg: Mat, grid0: Grid, trilinos: bool, es: seq<nat>): (log: seq<Assembly>)
    requires FieldsShaped(pb, Ag, Yg, Dg) && InMesh(es, pb.mesh.nEl) && GridShaped(pb, grid0)
    requires PassOver(pb, Ag, Yg, Dg, es)
    ensures |log| == |es|
    ensures forall k :: 0 <= k < |es| ==> log[k] == BlockOf(pb, Ag, Yg, Dg, grid0, trilinos, es[k])
  {
    seq(|es|, k requires 0 <= k < |es| => BlockOf(pb, Ag, Yg, Dg, grid0, trilinos, es[k]))
  }

  /** One more passing element adds its block at the end. */
  lemma BlocksOverSnoc(pb: Problem, Ag: Mat, Yg: Mat, Dg: Mat, grid0: Grid, trilinos: bool, es: seq<nat>, e: nat)
    requires FieldsShaped(pb, Ag, Yg, Dg) && InMesh(es, pb.mesh.nEl) && GridShaped(pb, grid0) && e < pb.mesh.nEl
    requires PassOver(pb, Ag, Yg, Dg, es) && ElementFailureAt(pb, Ag, Yg, Dg, e) == None
    ensures InMesh(es + [e], pb.mesh.nEl) && PassOver(pb, Ag, Yg, Dg, es + [e])
    ensures BlocksOver(pb, Ag, Yg, Dg, grid0, trilinos, es + [e])
         == BlocksOver(pb, Ag, Yg, Dg, grid0, trilinos, es) + [BlockOf(pb, Ag, Yg, Dg, grid0, trilinos, e)]
  {
    PassOverSnoc(pb, Ag, Yg, Dg, es, e);
    var L, L', b := BlocksOver(pb, Ag, Yg, Dg, grid0, trilinos, es + [e]), BlocksOver(pb, Ag, Yg, Dg, grid0, trilinos, es),
                    BlockOf(pb, Ag, Yg, Dg, grid0, trilinos, e);
    SnocEntries(es, e);
    SnocFrom(L, L', b);
  }

  /** The state of the element loop after the elements before n. */
  ghost predicate LoopDone(pb: Problem, st: ComState, Ag: Mat, Yg: Mat, Dg: Mat, grid0: Grid, mass0: seq<real>,
                           rows0: seq<seq<real>>, log0: seq<Assembly>, trilinos: bool, n: nat)
    requires FieldsShaped(pb, Ag, Yg, Dg) && n <= pb.mesh.nEl && GridShaped(pb, grid0)
    requires |mass0| == pb.tnNo && IsMat(rows0, 6, pb.tnNo)
    reads st, st.grInt, st.pSa, st.pSn
  {
    var es := StructuralUpTo(pb.mesh.structural, n);
    StateOver(pb, st, Ag, Yg, Dg, grid0, mass0, rows0, true, es)
    && st.assembled == log0 + BlocksOver(pb, Ag, Yg, Dg, grid0, trilinos, es)
  }

  /** A failure of the element after a passing list is the list's failure. */
  lemma FailureSnoc(pb: Problem, Ag: Mat, Yg: Mat, Dg: Mat, es: seq<nat>, e: nat)
    requires FieldsShaped(pb, Ag, Yg, Dg) && InMesh(es, pb.mesh.nEl) && e < pb.mesh.nEl
    requires PassOver(pb, Ag, Yg, Dg, es)
    ensures InMesh(es + [e], pb.mesh.nEl)
    ensures FailureOver(pb, Ag, Yg, Dg, es + [e]) == ElementFailureAt(pb, Ag, Yg, Dg, e)
  {
    assert (es + [e])[..|es|] == es;
    FailureOverIff(pb, Ag, Yg, Dg, es);
  }

  /** A failure at the k-th listed element, after k that pass, is the
      failure of the whole list. */
  lemma ListFailureAt(pb: Problem, Ag: Mat, Yg: Mat, Dg: Mat, es: seq<nat>, k: nat)
    requires FieldsShaped(pb, Ag, Yg, Dg) && Ascending(es, pb.mesh.nEl) && k < |es|
    requires PassOver(pb, Ag, Yg, Dg, es[..k]) && ElementFailureAt(pb, Ag, Yg, Dg, es[k]).Some?
    ensures FailureOver(pb, Ag, Yg, Dg, es) == ElementFailureAt(pb, Ag, Yg, Dg, es[k])
  {
    AscendingTake(es, pb.mesh.nEl, k);
    FailureSnoc(pb, Ag, Yg, Dg, es[..k], es[k]);
    FailurePrefix(pb, Ag, Yg, Dg, es, k + 1);
  }

  /** A failure at structural element e is the loop's failure. */
  lemma StopAt(pb: Problem, Ag: Mat, Yg: Mat, Dg: Mat, e: nat)
    requires FieldsShaped(pb, Ag, Yg, Dg) && e < pb.mesh.nEl && pb.mesh.structural[e]
    requires PassOver(pb, Ag, Yg, Dg, StructuralUpTo(pb.mesh.structural, e))
    requires ElementFailureAt(pb, Ag, Yg, Dg, e).Some?
    ensures FailureOver(pb, Ag, Yg, Dg, StructuralElements(pb.mesh)) == ElementFailureAt(pb, Ag, Yg, Dg, e)
  {
    var es := StructuralUpTo(pb.mesh.structural, e);
    var es' := StructuralUpTo(pb.mesh.structural, e + 1);
    var all := StructuralElements(pb.mesh);
    assert es' == es + [e];
    FailureSnoc(pb, Ag, Yg, Dg, es, e);
    StructuralPrefix(pb.mesh.structural, e + 1, pb.mesh.nEl);
    FailurePrefix(pb, Ag, Yg, Dg, all, |es'|);
  }

}
