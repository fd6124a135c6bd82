/** The solver state the structural routines update in place: the internal
    G&R variables and their saved copy, the prestress accumulators, and the
    calls made to the global assembly routines. */
module State {

  /** A value copy of a 3-D array, indexed [e][g][i]. */
  type Grid = seq<seq<seq<real>>>

  ghost predicate IsGrid(G: Grid, n0: nat, n1: nat, n2: nat)
  {
    |G| == n0 && forall e :: 0 <= e < n0 ==> |G[e]| == n1 && forall g :: 0 <= g < n1 ==> |G[e][g]| == n2
  }

  function Grid3(A: array3<real>): (G: Grid)
    reads A
    ensures IsGrid(G, A.Length0, A.Length1, A.Length2)
    ensures forall e, g, i :: 0 <= e < A.Length0 && 0 <= g < A.Length1 && 0 <= i < A.Length2 ==> G[e][g][i] == A[e, g, i]
  {
    seq(A.Length0, e requires 0 <= e < A.Length0 reads A =>
      seq(A.Length1, g requires 0 <= g < A.Length1 reads A =>
        seq(A.Length2, i requires 0 <= i < A.Length2 reads A => A[e, g, i])))
  }

  /** Row i of a 2-D array as a sequence. */
  function Row(A: array2<real>, i: nat): (r: seq<real>)
    requires i < A.Length0
    reads A
    ensures |r| == A.Length1 && forall j :: 0 <= j < A.Length1 ==> r[j] == A[i, j]
  {
    seq(A.Length1, j requires 0 <= j < A.Length1 reads A => A[i, j])
  }

  function Rows(A: array2<real>): (m: seq<seq<real>>)
    reads A
    ensures |m| == A.Length0 && forall i :: 0 <= i < A.Length0 ==> m[i] == Row(A, i)
  {
    seq(A.Length0, i requires 0 <= i < A.Length0 reads A => Row(A, i))
  }

  /** One call into the global assembly: do_assem (or the Trilinos variant)
      with a full element block, do_assem_residual with the residual only,
      or do_assem_tangent with a single tangent column. */
  datatype Assembly =
    | ElementBlock(ptr: seq<int>, lK: Grid, lR: seq<seq<real>>, trilinos: bool)
    | ResidualBlock(ptr: seq<int>, lR: seq<seq<real>>)
    | TangentColumn(ptrRow: seq<int>, ptrCol: int, lK: Grid)

  /** The parts of the solver state the structural routines touch. */
  class ComState {
    /** Internal G&R variables per (element, Gauss point, variable). */
    const grInt: array3<real>
    /** The copy saved by the last residual evaluation. */
    const grIntOrig: array3<real>
    /** Prestress denominator per node and numerator per (Voigt entry, node). */
    const pSa: array<real>
    const pSn: array2<real>
    /** The assembly calls made so far, in order. */
    var assembled: seq<Assembly>

    ghost predicate Valid(nEl: nat, nG: nat, nGrInt: nat, tnNo: nat)
    {
      grInt.Length0 == nEl && grInt.Length1 == nG && grInt.Length2 == nGrInt
      && grIntOrig.Length0 == nEl && grIntOrig.Length1 == nG && grIntOrig.Length2 == nGrInt
      && pSa.Length == tnNo && pSn.Length0 == 6 && pSn.Length1 == tnNo
      && grInt != grIntOrig
    }

    constructor (nEl: nat, nG: nat, nGrInt: nat, tnNo: nat)
      ensures Valid(nEl, nG, nGrInt, tnNo)
      ensures fresh(grInt) && fresh(grIntOrig) && fresh(pSa) && fresh(pSn)
      ensures assembled == []
    {
      grInt := new real[nEl, nG, nGrInt];
      grIntOrig := new real[nEl, nG, nGrInt];
      pSa := new real[tnNo];
      pSn := new real[6, tnNo];
      assembled := [];
    }

    /** com_mod.grInt_orig = com_mod.grInt. */
    method SaveGrid()
      requires grInt.Length0 == grIntOrig.Length0 && grInt.Length1 == grIntOrig.Length1 && grInt.Length2 == grIntOrig.Length2
      requires grInt != grIntOrig
      modifies grIntOrig
      ensures Grid3(grIntOrig) == Grid3(grInt) && unchanged(grInt)
    {
      CopyInto(grInt, grIntOrig);
    }

    /** com_mod.grInt = com_mod.grInt_orig. */
    method RestoreGrid()
      requires grInt.Length0 == grIntOrig.Length0 && grInt.Length1 == grIntOrig.Length1 && grInt.Length2 == grIntOrig.Length2
      requires grInt != grIntOrig
      modifies grInt
      ensures Grid3(grInt) == Grid3(grIntOrig) && unchanged(grIntOrig)
    {
      CopyInto(grIntOrig, grInt);
    }
  }

  /** Element-wise copy of one 3-D array into another of the same shape. */
  method CopyInto(src: array3<real>, dst: array3<real>)
    requires src != dst
    requires src.Length0 == dst.Length0 && src.Length1 == dst.Length1 && src.Length2 == dst.Length2
    modifies dst
    ensures Grid3(dst) == Grid3(src)
  {
    var e := 0;
    while e < src.Length0
      invariant 0 <= e <= src.Length0
      invariant forall e', g, i :: 0 <= e' < e && 0 <= g < src.Length1 && 0 <= i < src.Length2 ==> dst[e', g, i] == src[e', g, i]
    {
      var g := 0;
      while g < src.Length1
        invariant 0 <= g <= src.Length1
        invariant forall e', g', i :: 0 <= e' < e && 0 <= g' < src.Length1 && 0 <= i < src.Length2 ==> dst[e', g', i] == src[e', g', i]
        invariant forall g', i :: 0 <= g' < g && 0 <= i < src.Length2 ==> dst[e, g', i] == src[e, g', i]
      {
        var i := 0;
        while i < src.Length2
          invariant 0 <= i <= src.Length2
          invariant forall e', g', i' :: 0 <= e' < e && 0 <= g' < src.Length1 && 0 <= i' < src.Length2 ==> dst[e', g', i'] == src[e', g', i']
          invariant forall g', i' :: 0 <= g' < g && 0 <= i' < src.Length2 ==> dst[e, g', i'] == src[e, g', i']
          invariant forall i' :: 0 <= i' < i ==> dst[e, g, i'] == src[e, g, i']
        {
          dst[e, g, i] := src[e, g, i];
          i := i + 1;
        }
        g := g + 1;
      }
      e := e + 1;
    }
    GridExt(Grid3(dst), Grid3(src));
  }

  lemma GridExt(A: Grid, B: Grid)
    requires |A| == |B|
    requires forall e :: 0 <= e < |A| ==> |A[e]| == |B[e]|
    requires forall e, g :: 0 <= e < |A| && 0 <= g < |A[e]| ==> |A[e][g]| == |B[e][g]|
    requires forall e, g, i :: 0 <= e < |A| && 0 <= g < |A[e]| && 0 <= i < |A[e][g]| ==> A[e][g][i] == B[e][g][i]
    ensures A == B
  {
    forall e | 0 <= e < |A|
      ensures A[e] == B[e]
    {
      forall g | 0 <= g < |A[e]|
        ensures A[e][g] == B[e][g]
      {
      }
    }
  }
}
