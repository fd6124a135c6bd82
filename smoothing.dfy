/** Smoothing of the internal G&R Lagrange multiplier (entry igr = 30 of
    every Gauss point's variables) in eval_gr_fd: the average over an
    element's Gauss points, or the projection to the nodes and back over a
    set of elements. */
module GrSmoothing {
  import opened Numerics
  import opened Params
  import opened State
  import opened SolidElement
  import opened SolidAssembly

  /** Index of the Lagrange multiplier among the internal G&R variables. */
  const Igr: nat := 30

  /** The three smoothing modes of eval_gr_fd; eval_gr_fd always uses
      ElementNode. */
  datatype Smoothing = NoSmoothing | ElementMean | ElementNode

  /** Every Gauss point of the grid holds an entry Igr. */
  ghost predicate HasIgr(grid: Grid)
  {
    forall e, g :: 0 <= e < |grid| && 0 <= g < |grid[e]| ==> Igr < |grid[e][g]|
  }

  /** A grid over the mesh's elements and Gauss points with entry Igr. */
  ghost predicate LagrangeGrid(m: Mesh, grid: Grid)
  {
    |grid| == m.nEl && (forall e :: 0 <= e < m.nEl ==> |grid[e]| == m.nG) && HasIgr(grid)
  }

  // ---------------------------------------------------------------------
  // Element smoothing

  /** The sum of entry Igr over the first n Gauss points, in order. */
  function PointSum(ge: seq<seq<real>>, n: nat): real
    requires n <= |ge| && forall g :: 0 <= g < |ge| ==> Igr < |ge[g]|
  {
    if n == 0 then 0.0 else PointSum(ge, n - 1) + ge[n - 1][Igr]
  }

  /** The mean of entry Igr over the element's Gauss points. */
  function GaussMean(ge: seq<seq<real>>): real
    requires |ge| > 0 && forall g :: 0 <= g < |ge| ==> Igr < |ge[g]|
  {
    PointSum(ge, |ge|) / (|ge| as real)
  }

  /** An element's variables after element smoothing: entry Igr of every
      Gauss point holds the mean, every other entry is kept. */
  function MeanSlices(ge: seq<seq<real>>): (s: seq<seq<real>>)
    requires forall g :: 0 <= g < |ge| ==> Igr < |ge[g]|
    ensures |s| == |ge| && forall g :: 0 <= g < |ge| ==> |s[g]| == |ge[g]|
  {
    if |ge| == 0 then ge else seq(|ge|, g requires 0 <= g < |ge| => ge[g][Igr := GaussMean(ge)])
  }

  /** Entry Igr of every Gauss point now holds the mean; every other
      entry is kept. */
  lemma MeanSlicesEntries(ge: seq<seq<real>>)
    requires forall g :: 0 <= g < |ge| ==> Igr < |ge[g]|
    ensures forall g :: 0 <= g < |ge| ==> MeanSlices(ge)[g][Igr] == GaussMean(ge)
    ensures forall g, i :: 0 <= g < |ge| && 0 <= i < |ge[g]| && i != Igr ==> MeanSlices(ge)[g][i] == ge[g][i]
  {
  }

  /** The grid after element smoothing of the listed elements. */
  function MeanSmoothed(grid: Grid, es: seq<nat>): (G: Grid)
    requires HasIgr(grid)
    ensures |G| == |grid| && HasIgr(G)
    ensures forall e :: 0 <= e < |grid| ==> |G[e]| == |grid[e]|
  {
    seq(|grid|, e requires 0 <= e < |grid| => if e in es then MeanSlices(grid[e]) else grid[e])
  }

  /** Element smoothing writes the mean at entry Igr of the listed
      elements and changes nothing else. */
  lemma MeanSmoothedEntries(grid: Grid, es: seq<nat>)
    requires HasIgr(grid)
    ensures forall e, g, i :: 0 <= e < |grid| && 0 <= g < |grid[e]| && 0 <= i < |grid[e][g]| ==>
      MeanSmoothed(grid, es)[e][g][i] == if e in es && i == Igr then GaussMean(grid[e]) else grid[e][g][i]
  {
  }

  /** Summing n equal values c gives n c. */
  lemma {:induction false} SumConst(ge: seq<seq<real>>, n: nat, c: real)
    requires n <= |ge| && forall g :: 0 <= g < |ge| ==> Igr < |ge[g]|
    requires forall g :: 0 <= g < n ==> ge[g][Igr] == c
    ensures PointSum(ge, n) == (n as real) * c
    decreases n
  {
    if n > 0 {
      SumConst(ge, n - 1, c);
    }
  }

  /** The mean of values that are all c is c. */
  lemma MeanOfConstant(ge: seq<seq<real>>, c: real)
    requires |ge| > 0 && forall g :: 0 <= g < |ge| ==> Igr < |ge[g]|
    requires forall g :: 0 <= g < |ge| ==> ge[g][Igr] == c
    ensures GaussMean(ge) == c
  {
    SumConst(ge, |ge|, c);
  }

  /** Smoothing an element twice gives what smoothing it once gives. */
  lemma MeanSlicesIdempotent(ge: seq<seq<real>>)
    requires forall g :: 0 <= g < |ge| ==> Igr < |ge[g]|
    ensures MeanSlices(MeanSlices(ge)) == MeanSlices(ge)
  {
    if |ge| > 0 {
      var s := MeanSlices(ge);
      MeanOfConstant(s, GaussMean(ge));
      var t := MeanSlices(s);
      forall g | 0 <= g < |ge|
        ensures t[g] == s[g]
      {
        assert s[g][Igr := GaussMean(ge)] == s[g];
      }
    }
  }

  /** Element smoothing is idempotent. */
  lemma MeanSmoothedIdempotent(grid: Grid, es: seq<nat>)
    requires HasIgr(grid)
    ensures MeanSmoothed(MeanSmoothed(grid, es), es) == MeanSmoothed(grid, es)
  {
    var G := MeanSmoothed(grid, es);
    var H := MeanSmoothed(G, es);
    forall e | 0 <= e < |grid|
      ensures H[e] == G[e]
    {
      if e in es {
        MeanSlicesIdempotent(grid[e]);
      }
    }
  }

  /** Smoothing one more element, not yet smoothed, extends the list. */
  lemma MeanSmoothedSnoc(grid: Grid, es: seq<nat>, e: nat)
    requires HasIgr(grid) && e < |grid| && e !in es
    ensures MeanSmoothed(grid, es)[e] == grid[e]
    ensures MeanSmoothed(grid, es + [e]) == MeanSmoothed(grid, es)[e := MeanSlices(grid[e])]
  {
    var G, H := MeanSmoothed(grid, es + [e]), MeanSmoothed(grid, es)[e := MeanSlices(grid[e])];
    forall e' | 0 <= e' < |grid|
      ensures G[e'] == H[e']
    {
      assert e' in es + [e] <==> e' in es || e' == e;
    }
  }

  // ---------------------------------------------------------------------
  // Element smoothing: the loops

  /** The average of entry Igr over the Gauss points of element e, written
      back to every Gauss point of e. With no Gauss points nothing is
      written. */
  method AverageElement(A: array3<real>, e: nat)
    requires e < A.Length0 && Igr < A.Length2
    modifies A
    ensures HasIgr(old(Grid3(A)))
    ensures Grid3(A) == old(Grid3(A))[e := MeanSlices(old(Grid3(A))[e])]
  {
    ghost var G0 := Grid3(A);
    ghost var ge := G0[e];
    var nG := A.Length1;
    var avg := 0.0;
    var g := 0;
    while g < nG
      invariant 0 <= g <= nG
      invariant avg == PointSum(ge, g)
    {
      avg := avg + A[e, g, Igr];
      g := g + 1;
    }
    if nG > 0 {
      avg := avg / (nG as real);
    }
    g := 0;
    while g < nG
      invariant 0 <= g <= nG
      invariant forall e', g', i :: 0 <= e' < A.Length0 && 0 <= g' < nG && 0 <= i < A.Length2 ==>
        A[e', g', i] == if e' == e && g' < g && i == Igr then avg else G0[e'][g'][i]
    {
      A[e, g, Igr] := avg;
      g := g + 1;
    }
    MeanSlicesEntries(ge);
    GridExt(Grid3(A), G0[e := MeanSlices(ge)]);
  }

  /** Element smoothing of the listed elements, one after the other. */
  method SmoothMean(A: array3<real>, es: seq<nat>)
    requires Ascending(es, A.Length0) && Igr < A.Length2
    modifies A
    ensures HasIgr(old(Grid3(A)))
    ensures Grid3(A) == MeanSmoothed(old(Grid3(A)), es)
  {
    ghost var G0 := Grid3(A);
    TakeEnds(es);
    var k := 0;
    while k < |es|
      invariant 0 <= k <= |es|
      invariant Grid3(A) == MeanSmoothed(G0, es[..k])
    {
      var e := es[k];
      AscendingTake(es, A.Length0, k);
      MeanSmoothedSnoc(G0, es[..k], e);
      AverageElement(A, e);
      k := k + 1;
    }
    TakeEnds(es);
  }

  // ---------------------------------------------------------------------
  // Element-node smoothing: the specification

  /** grInt_a at point g after the first k listed elements, from v: each
      element node gains w(g) N(a, g), without a Jacobian factor. */
  function DenAt(m: Mesh, tnNo: nat, v: seq<real>, es: seq<nat>, g: nat, k: nat): (u: seq<real>)
    requires MeshShaped(m, tnNo) && InMesh(es, m.nEl) && g < m.nG && k <= |es| && |v| == tnNo
    ensures |u| == tnNo
  {
    if k == 0 then v
    else Scatter(DenAt(m, tnNo, v, es, g, k - 1), m.ien[es[k - 1]], MassWeights(m.w[g], m.N[g]), m.eNoN)
  }

  /** grInt_a after the first n Gauss points over all listed elements. */
  function DenUpTo(m: Mesh, tnNo: nat, es: seq<nat>, n: nat): (u: seq<real>)
    requires MeshShaped(m, tnNo) && InMesh(es, m.nEl) && n <= m.nG
    ensures |u| == tnNo
  {
    if n == 0 then seq(tnNo, j => 0.0) else DenAt(m, tnNo, DenUpTo(m, tnNo, es, n - 1), es, n - 1, |es|)
  }

  /** grInt_n at point g after the first k listed elements, from v: each
      element node gains w(g) N(a, g) times the element's multiplier. */
  function NumAt(m: Mesh, tnNo: nat, grid: Grid, v: seq<real>, es: seq<nat>, g: nat, k: nat): (u: seq<real>)
    requires MeshShaped(m, tnNo) && LagrangeGrid(m, grid) && InMesh(es, m.nEl) && g < m.nG && k <= |es| && |v| == tnNo
    ensures |u| == tnNo
  {
    if k == 0 then v
    else
      var e := es[k - 1];
      Scatter(NumAt(m, tnNo, grid, v, es, g, k - 1), m.ien[e], StressWeights(m.w[g], m.N[g], grid[e][g][Igr]), m.eNoN)
  }

  /** grInt_n after the first n Gauss points over all listed elements. */
  function NumUpTo(m: Mesh, tnNo: nat, grid: Grid, es: seq<nat>, n: nat): (u: seq<real>)
    requires MeshShaped(m, tnNo) && LagrangeGrid(m, grid) && InMesh(es, m.nEl) && n <= m.nG
    ensures |u| == tnNo
  {
    if n == 0 then seq(tnNo, j => 0.0) else NumAt(m, tnNo, grid, NumUpTo(m, tnNo, grid, es, n - 1), es, n - 1, |es|)
  }

  /** The node of the first of the first n element nodes whose weight is zero. */
  function ZeroWeight(den: seq<real>, nodes: seq<nat>, n: nat): Option<nat>
    requires n <= |nodes| && forall a :: 0 <= a < |nodes| ==> nodes[a] < |den|
  {
    if n == 0 then None
    else if ZeroWeight(den, nodes, n - 1).Some? then ZeroWeight(den, nodes, n - 1)
    else if den[nodes[n - 1]] == 0.0 then Some(nodes[n - 1])
    else None
  }

  /** The first zero weight met when the listed elements are projected
      back: element by element, node by node. */
  function ListZeroWeight(m: Mesh, tnNo: nat, den: seq<real>, es: seq<nat>, k: nat): Option<Failure>
    requires MeshShaped(m, tnNo) && InMesh(es, m.nEl) && k <= |es| && |den| == tnNo
  {
    if k == 0 then None
    else if ListZeroWeight(m, tnNo, den, es, k - 1).Some? then ListZeroWeight(m, tnNo, den, es, k - 1)
    else
      match ZeroWeight(den, m.ien[es[k - 1]], m.eNoN)
      case Some(Ac) => Some(ZeroNodalWeight(Ac))
      case None => None
  }

  /** The division by zero the back projection runs into, if any: none
      when the mesh has no Gauss points, as the loop is then not entered. */
  function NodalFailure(m: Mesh, tnNo: nat, den: seq<real>, es: seq<nat>): Option<Failure>
    requires MeshShaped(m, tnNo) && InMesh(es, m.nEl) && |den| == tnNo
  {
    if m.nG == 0 then None else ListZeroWeight(m, tnNo, den, es, |es|)
  }

  /** Every node of every listed element has a nonzero weight. */
  ghost predicate WeightsNonzero(m: Mesh, tnNo: nat, den: seq<real>, es: seq<nat>)
    requires MeshShaped(m, tnNo) && InMesh(es, m.nEl) && |den| == tnNo
  {
    forall k, a :: 0 <= k < |es| && 0 <= a < m.eNoN ==> den[m.ien[es[k]][a]] != 0.0
  }

  /** The back projection to Gauss point g of element e over its first n
      nodes: the sum of N(a, g) grInt_n / grInt_a. */
  function NodalValue(m: Mesh, tnNo: nat, num: seq<real>, den: seq<real>, e: nat, g: nat, n: nat): real
    requires MeshShaped(m, tnNo) && e < m.nEl && g < m.nG && n <= m.eNoN && |num| == tnNo && |den| == tnNo
    requires forall a :: 0 <= a < n ==> den[m.ien[e][a]] != 0.0
  {
    if n == 0 then 0.0
    else NodalValue(m, tnNo, num, den, e, g, n - 1) + m.N[g][n - 1] * num[m.ien[e][n - 1]] / den[m.ien[e][n - 1]]
  }

  /** Element e's variables after the back projection: entry Igr of every
      Gauss point holds the projected value, every other entry is kept. */
  function BackProjected(m: Mesh, tnNo: nat, ge: seq<seq<real>>, num: seq<real>, den: seq<real>, e: nat): (s: seq<seq<real>>)
    requires MeshShaped(m, tnNo) && e < m.nEl && |num| == tnNo && |den| == tnNo
    requires |ge| == m.nG && forall g :: 0 <= g < m.nG ==> Igr < |ge[g]|
    requires m.nG == 0 || forall a :: 0 <= a < m.eNoN ==> den[m.ien[e][a]] != 0.0
    ensures |s| == m.nG && forall g :: 0 <= g < m.nG ==> |s[g]| == |ge[g]|
  {
    seq(m.nG, g requires 0 <= g < m.nG => ge[g][Igr := NodalValue(m, tnNo, num, den, e, g, m.eNoN)])
  }

  /** The grid after the back projection onto the listed elements. */
  function NodeSmoothed(m: Mesh, tnNo: nat, grid: Grid, es: seq<nat>, num: seq<real>, den: seq<real>): (G: Grid)
    requires MeshShaped(m, tnNo) && LagrangeGrid(m, grid) && InMesh(es, m.nEl) && |num| == tnNo && |den| == tnNo
    requires m.nG == 0 || WeightsNonzero(m, tnNo, den, es)
    ensures LagrangeGrid(m, G)
  {
    seq(m.nEl, e requires 0 <= e < m.nEl =>
      if e in es then BackProjected(m, tnNo, grid[e], num, den, e) else grid[e])
  }

  /** Element-node smoothing of the listed elements: project the
      multiplier to the nodes (weights w N, accumulated point by point)
      and back; fails on a zero nodal weight. */
  function NodeSmoothing(m: Mesh, tnNo: nat, grid: Grid, es: seq<nat>): (r: Result<Grid>)
    requires MeshShaped(m, tnNo) && LagrangeGrid(m, grid) && InMesh(es, m.nEl)
  {
    var den := DenUpTo(m, tnNo, es, m.nG);
    var num := NumUpTo(m, tnNo, grid, es, m.nG);
    var f := NodalFailure(m, tnNo, den, es);
    if f.Some? then Err(f.value)
    else
      ZeroWeightsIff(m, tnNo, den, es);
      Ok(NodeSmoothed(m, tnNo, grid, es, num, den))
  }

  // ---------------------------------------------------------------------
  // Element-node smoothing: properties

  /** No zero weight among the first n nodes exactly when all are nonzero. */
  lemma {:induction false} ZeroWeightIff(den: seq<real>, nodes: seq<nat>, n: nat)
    requires n <= |nodes| && forall a :: 0 <= a < |nodes| ==> nodes[a] < |den|
    ensures ZeroWeight(den, nodes, n) == None <==> forall a :: 0 <= a < n ==> den[nodes[a]] != 0.0
    ensures ZeroWeight(den, nodes, n).Some? ==>
      ZeroWeight(den, nodes, n).value < |den| && den[ZeroWeight(den, nodes, n).value] == 0.0
    decreases n
  {
    if n > 0 {
      ZeroWeightIff(den, nodes, n - 1);
    }
  }

  lemma {:induction false} ListZeroWeightIff(m: Mesh, tnNo: nat, den: seq<real>, es: seq<nat>, k: nat)
    requires MeshShaped(m, tnNo) && InMesh(es, m.nEl) && k <= |es| && |den| == tnNo
    ensures ListZeroWeight(m, tnNo, den, es, k) == None <==>
      forall k', a :: 0 <= k' < k && 0 <= a < m.eNoN ==> den[m.ien[es[k']][a]] != 0.0
    ensures ListZeroWeight(m, tnNo, den, es, k).Some? ==>
      var f := ListZeroWeight(m, tnNo, den, es, k).value;
      f.ZeroNodalWeight? && f.vertex < tnNo && den[f.vertex] == 0.0
    decreases k
  {
    if k > 0 {
      ListZeroWeightIff(m, tnNo, den, es, k - 1);
      ZeroWeightIff(den, m.ien[es[k - 1]], m.eNoN);
    }
  }

  /** The back projection fails exactly when the mesh has Gauss points
      and some node of a listed element has zero weight; the failure then
      names a node of zero weight. */
  lemma ZeroWeightsIff(m: Mesh, tnNo: nat, den: seq<real>, es: seq<nat>)
    requires MeshShaped(m, tnNo) && InMesh(es, m.nEl) && |den| == tnNo
    ensures NodalFailure(m, tnNo, den, es) == None <==> m.nG == 0 || WeightsNonzero(m, tnNo, den, es)
    ensures NodalFailure(m, tnNo, den, es).Some? ==>
      var f := NodalFailure(m, tnNo, den, es).value;
      f.ZeroNodalWeight? && f.vertex < tnNo && den[f.vertex] == 0.0
  {
    ListZeroWeightIff(m, tnNo, den, es, |es|);
  }

  /** Once a zero weight is found among the first k listed elements, the
      later elements do not change what is reported. */
  lemma {:induction false} ListZeroWeightPersists(m: Mesh, tnNo: nat, den: seq<real>, es: seq<nat>, k: nat, n: nat)
    requires MeshShaped(m, tnNo) && InMesh(es, m.nEl) && k <= n <= |es| && |den| == tnNo
    requires ListZeroWeight(m, tnNo, den, es, k).Some?
    ensures ListZeroWeight(m, tnNo, den, es, n) == ListZeroWeight(m, tnNo, den, es, k)
    decreases n
  {
    if n > k {
      ListZeroWeightPersists(m, tnNo, den, es, k, n - 1);
    }
  }

  /** Back-projecting one more element, not yet projected, extends the list. */
  lemma NodeSmoothedSnoc(m: Mesh, tnNo: nat, grid: Grid, es: seq<nat>, num: seq<real>, den: seq<real>, e: nat)
    requires MeshShaped(m, tnNo) && LagrangeGrid(m, grid) && InMesh(es, m.nEl) && |num| == tnNo && |den| == tnNo
    requires e < m.nEl && e !in es
    requires m.nG == 0 || WeightsNonzero(m, tnNo, den, es)
    requires m.nG == 0 || forall a :: 0 <= a < m.eNoN ==> den[m.ien[e][a]] != 0.0
    ensures m.nG == 0 || WeightsNonzero(m, tnNo, den, es + [e])
    ensures NodeSmoothed(m, tnNo, grid, es, num, den)[e] == grid[e]
    ensures NodeSmoothed(m, tnNo, grid, es + [e], num, den)
      == NodeSmoothed(m, tnNo, grid, es, num, den)[e := BackProjected(m, tnNo, grid[e], num, den, e)]
  {
    if m.nG != 0 {
      forall k, a | 0 <= k < |es| + 1 && 0 <= a < m.eNoN
        ensures den[m.ien[(es + [e])[k]][a]] != 0.0
      {
        if k < |es| {
          assert (es + [e])[k] == es[k];
        }
      }
    }
    var G := NodeSmoothed(m, tnNo, grid, es + [e], num, den);
    var H := NodeSmoothed(m, tnNo, grid, es, num, den)[e := BackProjected(m, tnNo, grid[e], num, den, e)];
    forall e' | 0 <= e' < m.nEl
      ensures G[e'] == H[e']
    {
      assert e' in es + [e] <==> e' in es || e' == e;
    }
  }

  // ---------------------------------------------------------------------
  // Element-node smoothing: the loops

  /** Adds w N(a) val to num and w N(a) to den at the element's nodes. */
  method ProjectToNodes(num: array<real>, den: array<real>, nodes: seq<nat>, w: real, N: seq<real>, val: real)
    requires num != den && num.Length == den.Length && |N| == |nodes|
    requires forall a :: 0 <= a < |nodes| ==> nodes[a] < num.Length
    modifies num, den
    ensures num[..] == Scatter(old(num[..]), nodes, StressWeights(w, N, val), |nodes|)
    ensures den[..] == Scatter(old(den[..]), nodes, MassWeights(w, N), |nodes|)
  {
    ghost var num0, den0 := num[..], den[..];
    var a := 0;
    while a < |nodes|
      invariant 0 <= a <= |nodes|
      invariant num[..] == Scatter(num0, nodes, StressWeights(w, N, val), a)
      invariant den[..] == Scatter(den0, nodes, MassWeights(w, N), a)
    {
      var Ac := nodes[a];
      num[Ac] := num[Ac] + w * N[a] * val;
      den[Ac] := den[Ac] + w * N[a];
      a := a + 1;
    }
  }

  /** The shape of grInt makes its copy a multiplier grid of the mesh. */
  lemma ArrayLagrange(m: Mesh, A: array3<real>)
    requires A.Length0 == m.nEl && A.Length1 == m.nG && Igr < A.Length2
    ensures LagrangeGrid(m, Grid3(A))
  {
  }

  /** Gauss point g of every listed element adds to num and den. */
  method ProjectPoint(m: Mesh, tnNo: nat, A: array3<real>, ghost G: Grid, es: seq<nat>, g: nat,
                      num: array<real>, den: array<real>)
    requires MeshShaped(m, tnNo) && InMesh(es, m.nEl) && g < m.nG
    requires A.Length0 == m.nEl && A.Length1 == m.nG && Igr < A.Length2
    requires G == Grid3(A) && LagrangeGrid(m, G)
    requires num != den && num.Length == tnNo && den.Length == tnNo
    modifies num, den
    ensures num[..] == NumAt(m, tnNo, G, old(num[..]), es, g, |es|)
    ensures den[..] == DenAt(m, tnNo, old(den[..]), es, g, |es|)
  {
    ghost var numG, denG := num[..], den[..];
    var k := 0;
    while k < |es|
      invariant 0 <= k <= |es|
      invariant num[..] == NumAt(m, tnNo, G, numG, es, g, k)
      invariant den[..] == DenAt(m, tnNo, denG, es, g, k)
    {
      var e := es[k];
      var val := A[e, g, Igr];
      ProjectToNodes(num, den, m.ien[e], m.w[g], m.N[g], val);
      k := k + 1;
    }
  }

  /** The projection from the Gauss points to the nodes: for every Gauss
      point, over the listed elements, the weighted multiplier and the
      weight accumulate at the element nodes. */
  method ProjectPoints(m: Mesh, tnNo: nat, A: array3<real>, es: seq<nat>) returns (num: array<real>, den: array<real>)
    requires MeshShaped(m, tnNo) && InMesh(es, m.nEl)
    requires A.Length0 == m.nEl && A.Length1 == m.nG && Igr < A.Length2
    ensures fresh(num) && fresh(den) && num != den
    ensures LagrangeGrid(m, Grid3(A))
    ensures num[..] == NumUpTo(m, tnNo, Grid3(A), es, m.nG)
    ensures den[..] == DenUpTo(m, tnNo, es, m.nG)
  {
    ArrayLagrange(m, A);
    num := new real[tnNo](j => 0.0);
    den := new real[tnNo](j => 0.0);
    ProjectAll(m, tnNo, A, Grid3(A), es, num, den);
  }

  /** The Gauss-point loop of the projection, into zeroed num and den. */
  method ProjectAll(m: Mesh, tnNo: nat, A: array3<real>, ghost G: Grid, es: seq<nat>, num: array<real>, den: array<real>)
    requires MeshShaped(m, tnNo) && InMesh(es, m.nEl)
    requires A.Length0 == m.nEl && A.Length1 == m.nG && Igr < A.Length2
    requires G == Grid3(A) && LagrangeGrid(m, G)
    requires num != den && num.Length == tnNo && den.Length == tnNo
    requires num[..] == NumUpTo(m, tnNo, G, es, 0) && den[..] == DenUpTo(m, tnNo, es, 0)
    modifies num, den
    ensures num[..] == NumUpTo(m, tnNo, G, es, m.nG)
    ensures den[..] == DenUpTo(m, tnNo, es, m.nG)
  {
    var g := 0;
    while g < m.nG
      invariant 0 <= g <= m.nG
      invariant num[..] == NumUpTo(m, tnNo, G, es, g)
      invariant den[..] == DenUpTo(m, tnNo, es, g)
    {
      ProjectPoint(m, tnNo, A, G, es, g, num, den);
      g := g + 1;
    }
  }

  /** The first node, in element order, whose weight is zero. */
  method FindZeroWeight(den: array<real>, nodes: seq<nat>) returns (r: Option<nat>)
    requires forall a :: 0 <= a < |nodes| ==> nodes[a] < den.Length
    ensures r == ZeroWeight(den[..], nodes, |nodes|)
  {
    r := None;
    var a := 0;
    while a < |nodes|
      invariant 0 <= a <= |nodes|
      invariant r == ZeroWeight(den[..], nodes, a)
    {
      if r.None? && den[nodes[a]] == 0.0 {
        r := Some(nodes[a]);
      }
      a := a + 1;
    }
  }

  /** The projection back to the Gauss points of element e: entry Igr at
      point g becomes the sum of N(a, g) num / den over the element nodes. */
  method BackProjectElement(m: Mesh, tnNo: nat, A: array3<real>, e: nat, num: array<real>, den: array<real>)
    requires MeshShaped(m, tnNo) && e < m.nEl && num.Length == tnNo && den.Length == tnNo
    requires A.Length0 == m.nEl && A.Length1 == m.nG && Igr < A.Length2
    requires m.nG == 0 || forall a :: 0 <= a < m.eNoN ==> den[m.ien[e][a]] != 0.0
    modifies A
    ensures LagrangeGrid(m, old(Grid3(A)))
    ensures Grid3(A) == old(Grid3(A))[e := BackProjected(m, tnNo, old(Grid3(A))[e], num[..], den[..], e)]
  {
    ghost var G0 := Grid3(A);
    ghost var s := BackProjected(m, tnNo, G0[e], num[..], den[..], e);
    var g := 0;
    while g < m.nG
      invariant 0 <= g <= m.nG
      invariant forall e', g', i :: 0 <= e' < A.Length0 && 0 <= g' < A.Length1 && 0 <= i < A.Length2 ==>
        A[e', g', i] == if e' == e && g' < g then s[g'][i] else G0[e'][g'][i]
    {
      var val := 0.0;
      var a := 0;
      while a < m.eNoN
        invariant 0 <= a <= m.eNoN
        invariant val == NodalValue(m, tnNo, num[..], den[..], e, g, a)
      {
        var Ac := m.ien[e][a];
        val := val + m.N[g][a] * num[Ac] / den[Ac];
        a := a + 1;
      }
      A[e, g, Igr] := val;
      g := g + 1;
    }
    GridExt(Grid3(A), G0[e := s]);
  }

  /** The back projection has reached the first k listed elements. */
  ghost predicate BackProjectedUpTo(m: Mesh, tnNo: nat, A: array3<real>, G0: Grid, es: seq<nat>, N: seq<real>, D: seq<real>, k: nat)
    requires MeshShaped(m, tnNo) && LagrangeGrid(m, G0) && InMesh(es, m.nEl) && |N| == tnNo && |D| == tnNo
    reads A
  {
    k <= |es|
    && (m.nG == 0 || ListZeroWeight(m, tnNo, D, es, k) == None)
    && (m.nG == 0 || WeightsNonzero(m, tnNo, D, es[..k]))
    && Grid3(A) == NodeSmoothed(m, tnNo, G0, es[..k], N, D)
  }

  /** One element of the back projection: report its first zero weight,
      or project onto it. */
  method BackProjectStep(m: Mesh, tnNo: nat, A: array3<real>, es: seq<nat>, k: nat, num: array<real>, den: array<real>,
                         ghost G0: Grid)
      returns (bad: Option<nat>)
    requires MeshShaped(m, tnNo) && Ascending(es, m.nEl) && k < |es| && LagrangeGrid(m, G0)
    requires A.Length0 == m.nEl && A.Length1 == m.nG && Igr < A.Length2
    requires num.Length == tnNo && den.Length == tnNo
    requires BackProjectedUpTo(m, tnNo, A, G0, es, num[..], den[..], k)
    modifies A
    ensures bad.Some? ==> m.nG != 0 && ListZeroWeight(m, tnNo, den[..], es, |es|) == Some(ZeroNodalWeight(bad.value))
    ensures bad.None? ==> BackProjectedUpTo(m, tnNo, A, G0, es, num[..], den[..], k + 1)
  {
    var e := es[k];
    ghost var N, D := num[..], den[..];
    if m.nG > 0 {
      bad := FindZeroWeight(den, m.ien[e]);
      if bad.Some? {
        ListZeroWeightPersists(m, tnNo, D, es, k + 1, |es|);
        return;
      }
      ZeroWeightIff(D, m.ien[e], m.eNoN);
      ListZeroWeightIff(m, tnNo, D, es, k + 1);
    } else {
      bad := None;
    }
    AscendingTake(es, m.nEl, k);
    NodeSmoothedSnoc(m, tnNo, G0, es[..k], N, D, e);
    BackProjectElement(m, tnNo, A, e, num, den);
  }

  /** The back projection over the listed elements, stopping at the first
      zero nodal weight. */
  method BackProjectAll(m: Mesh, tnNo: nat, A: array3<real>, es: seq<nat>, num: array<real>, den: array<real>,
                        ghost G0: Grid)
      returns (bad: Option<nat>)
    requires MeshShaped(m, tnNo) && Ascending(es, m.nEl) && LagrangeGrid(m, G0) && Grid3(A) == G0
    requires A.Length0 == m.nEl && A.Length1 == m.nG && Igr < A.Length2
    requires num.Length == tnNo && den.Length == tnNo
    modifies A
    ensures bad.Some? ==> m.nG != 0 && ListZeroWeight(m, tnNo, den[..], es, |es|) == Some(ZeroNodalWeight(bad.value))
    ensures bad.None? ==> BackProjectedUpTo(m, tnNo, A, G0, es, num[..], den[..], |es|)
  {
    TakeEnds(es);
    var k := 0;
    while k < |es|
      invariant 0 <= k <= |es|
      invariant BackProjectedUpTo(m, tnNo, A, G0, es, num[..], den[..], k)
    {
      bad := BackProjectStep(m, tnNo, A, es, k, num, den, G0);
      if bad.Some? {
        return;
      }
      k := k + 1;
    }
    bad := None;
  }

  /** Element-node smoothing of the listed elements in place: project to
      the nodes, then back, element by element; a zero nodal weight is
      reported where the back projection would divide by it. */
  method SmoothNodes(m: Mesh, tnNo: nat, A: array3<real>, es: seq<nat>) returns (outcome: Outcome)
    requires MeshShaped(m, tnNo) && Ascending(es, m.nEl)
    requires A.Length0 == m.nEl && A.Length1 == m.nG && Igr < A.Length2
    modifies A
    ensures LagrangeGrid(m, old(Grid3(A)))
    ensures outcome == ResultOutcome(NodeSmoothing(m, tnNo, old(Grid3(A)), es))
    ensures outcome.Pass? ==> Grid3(A) == NodeSmoothing(m, tnNo, old(Grid3(A)), es).value
  {
    ghost var G0 := Grid3(A);
    var num, den := ProjectPoints(m, tnNo, A, es);
    var bad := BackProjectAll(m, tnNo, A, es, num, den, G0);
    ZeroWeightsIff(m, tnNo, den[..], es);
    TakeEnds(es);
    if bad.Some? {
      return Fail(ZeroNodalWeight(bad.value));
    }
    return Pass;
  }

  // ---------------------------------------------------------------------
  // Smoothing a constant multiplier

  /** Element smoothing leaves a multiplier that is constant over each
      listed element as it is. */
  lemma MeanKeepsConstant(grid: Grid, es: seq<nat>)
    requires HasIgr(grid)
    requires forall e, g, g' :: e in es && 0 <= e < |grid| && 0 <= g < |grid[e]| && 0 <= g' < |grid[e]| ==>
      grid[e][g][Igr] == grid[e][g'][Igr]
    ensures MeanSmoothed(grid, es) == grid
  {
    var G := MeanSmoothed(grid, es);
    forall e | 0 <= e < |grid| && e in es && |grid[e]| > 0
      ensures G[e] == grid[e]
    {
      var ge := grid[e];
      MeanOfConstant(ge, ge[0][Igr]);
      forall g | 0 <= g < |ge|
        ensures G[e][g] == ge[g]
      {
        assert ge[g][Igr := GaussMean(ge)] == ge[g];
      }
    }
  }

  /** Scattering c times the weights into c times a target gives c times
      the scattered target. */
  lemma {:induction false} ScatterScaled(v: seq<real>, u: seq<real>, nodes: seq<nat>, cv: seq<real>, cu: seq<real>, n: nat, c: real)
    requires |v| == |u| && n <= |nodes| && n <= |cv| && n <= |cu|
    requires forall a :: 0 <= a < |nodes| ==> nodes[a] < |v|
    requires forall j :: 0 <= j < |v| ==> v[j] == c * u[j]
    requires forall a :: 0 <= a < n ==> cv[a] == c * cu[a]
    ensures forall j :: 0 <= j < |v| ==> Scatter(v, nodes, cv, n)[j] == c * Scatter(u, nodes, cu, n)[j]
    decreases n
  {
    if n > 0 {
      ScatterScaled(v, u, nodes, cv, cu, n - 1, c);
    }
  }

  /** What point g of a constant multiplier c adds to num is c times what
      it adds to den. */
  lemma {:induction false} NumAtScaled(m: Mesh, tnNo: nat, grid: Grid, v: seq<real>, u: seq<real>, es: seq<nat>,
                                       g: nat, k: nat, c: real)
    requires MeshShaped(m, tnNo) && LagrangeGrid(m, grid) && InMesh(es, m.nEl) && g < m.nG && k <= |es|
    requires |v| == tnNo && |u| == tnNo && forall j :: 0 <= j < tnNo ==> v[j] == c * u[j]
    requires forall k' :: 0 <= k' < |es| ==> grid[es[k']][g][Igr] == c
    ensures forall j :: 0 <= j < tnNo ==> NumAt(m, tnNo, grid, v, es, g, k)[j] == c * DenAt(m, tnNo, u, es, g, k)[j]
    decreases k
  {
    if k > 0 {
      NumAtScaled(m, tnNo, grid, v, u, es, g, k - 1, c);
      var e := es[k - 1];
      var cv, cu := StressWeights(m.w[g], m.N[g], grid[e][g][Igr]), MassWeights(m.w[g], m.N[g]);
      ScatterScaled(NumAt(m, tnNo, grid, v, es, g, k - 1), DenAt(m, tnNo, u, es, g, k - 1), m.ien[e], cv, cu, m.eNoN, c);
    }
  }

  /** For a multiplier that is c on the listed elements, num is c den. */
  lemma {:induction false} NumUpToScaled(m: Mesh, tnNo: nat, grid: Grid, es: seq<nat>, n: nat, c: real)
    requires MeshShaped(m, tnNo) && LagrangeGrid(m, grid) && InMesh(es, m.nEl) && n <= m.nG
    requires forall k, g :: 0 <= k < |es| && 0 <= g < m.nG ==> grid[es[k]][g][Igr] == c
    ensures forall j :: 0 <= j < tnNo ==> NumUpTo(m, tnNo, grid, es, n)[j] == c * DenUpTo(m, tnNo, es, n)[j]
    decreases n
  {
    if n > 0 {
      NumUpToScaled(m, tnNo, grid, es, n - 1, c);
      NumAtScaled(m, tnNo, grid, NumUpTo(m, tnNo, grid, es, n - 1), DenUpTo(m, tnNo, es, n - 1), es, n - 1, |es|, c);
    }
  }

  lemma CancelWeight(x: real, c: real, d: real)
    requires d != 0.0
    ensures x * (c * d) / d == c * x
  {
  }

  /** With num = c den at the element's nodes, the back projection over
      the first n nodes is c times the sum of the first n shape values. */
  lemma {:induction false} NodalValueScaled(m: Mesh, tnNo: nat, num: seq<real>, den: seq<real>, e: nat, g: nat, n: nat, c: real)
    requires MeshShaped(m, tnNo) && e < m.nEl && g < m.nG && n <= m.eNoN && |num| == tnNo && |den| == tnNo
    requires forall a :: 0 <= a < n ==> den[m.ien[e][a]] != 0.0
    requires forall j :: 0 <= j < tnNo ==> num[j] == c * den[j]
    ensures NodalValue(m, tnNo, num, den, e, g, n) == c * SeqSum(m.N[g][..n])
    decreases n
  {
    if n > 0 {
      NodalValueScaled(m, tnNo, num, den, e, g, n - 1, c);
      var Ac := m.ien[e][n - 1];
      CancelWeight(m.N[g][n - 1], c, den[Ac]);
      assert m.N[g][..n][..n - 1] == m.N[g][..n - 1];
    }
  }

  /** Element-node smoothing reproduces a multiplier that is constant over
      the listed elements when the shape functions sum to one at every
      Gauss point: where it succeeds, the grid is unchanged. */
  lemma NodeKeepsConstant(m: Mesh, tnNo: nat, grid: Grid, es: seq<nat>, c: real)
    requires MeshShaped(m, tnNo) && LagrangeGrid(m, grid) && InMesh(es, m.nEl)
    requires forall k, g :: 0 <= k < |es| && 0 <= g < m.nG ==> grid[es[k]][g][Igr] == c
    requires forall g :: 0 <= g < m.nG ==> SeqSum(m.N[g]) == 1.0
    ensures NodeSmoothing(m, tnNo, grid, es).Ok? ==> NodeSmoothing(m, tnNo, grid, es).value == grid
  {
    var den := DenUpTo(m, tnNo, es, m.nG);
    var num := NumUpTo(m, tnNo, grid, es, m.nG);
    if NodeSmoothing(m, tnNo, grid, es).Ok? {
      ZeroWeightsIff(m, tnNo, den, es);
      NumUpToScaled(m, tnNo, grid, es, m.nG, c);
      var G := NodeSmoothed(m, tnNo, grid, es, num, den);
      forall e | 0 <= e < m.nEl && e in es
        ensures G[e] == grid[e]
      {
        forall g | 0 <= g < m.nG
          ensures G[e][g] == grid[e][g]
        {
          NodalValueScaled(m, tnNo, num, den, e, g, m.eNoN, c);
          assert m.N[g][..m.eNoN] == m.N[g];
          assert grid[e][g][Igr] == c;
          assert grid[e][g][Igr := c] == grid[e][g];
        }
      }
    }
  }

  // ---------------------------------------------------------------------
  // The smoothing step of eval_gr_fd

  /** The multiplier after the chosen smoothing of the listed elements;
      the shape of the grid is kept. */
  function Smoothed(smoothing: Smoothing, m: Mesh, tnNo: nat, grid: Grid, es: seq<nat>): (r: Result<Grid>)
    requires MeshShaped(m, tnNo) && InMesh(es, m.nEl)
    requires smoothing != NoSmoothing ==> LagrangeGrid(m, grid)
    ensures r.Ok? ==> |r.value| == |grid| && forall e :: 0 <= e < |grid| ==> |r.value[e]| == |grid[e]|
    ensures r.Ok? ==> forall e, g :: 0 <= e < |grid| && 0 <= g < |grid[e]| ==> |r.value[e][g]| == |grid[e][g]|
  {
    match smoothing
    case NoSmoothing => Ok(grid)
    case ElementMean => Ok(MeanSmoothed(grid, es))
    case ElementNode => NodeSmoothing(m, tnNo, grid, es)
  }

  /** Smoothing changes entry Igr of the listed elements and nothing else;
      only element-node smoothing can fail, and only on a zero weight. */
  lemma SmoothingWritesOnlyIgr(smoothing: Smoothing, m: Mesh, tnNo: nat, grid: Grid, es: seq<nat>)
    requires MeshShaped(m, tnNo) && InMesh(es, m.nEl)
    requires smoothing != NoSmoothing ==> LagrangeGrid(m, grid)
    ensures Smoothed(smoothing, m, tnNo, grid, es).Err? ==>
      smoothing == ElementNode && Smoothed(smoothing, m, tnNo, grid, es).error.ZeroNodalWeight?
    ensures Smoothed(smoothing, m, tnNo, grid, es).Ok? ==>
      forall e, g, i :: 0 <= e < |grid| && 0 <= g < |grid[e]| && 0 <= i < |grid[e][g]| && (e !in es || i != Igr) ==>
        Smoothed(smoothing, m, tnNo, grid, es).value[e][g][i] == grid[e][g][i]
  {
    match smoothing
    case NoSmoothing =>
    case ElementMean => MeanSmoothedEntries(grid, es);
    case ElementNode =>
      var den := DenUpTo(m, tnNo, es, m.nG);
      ZeroWeightsIff(m, tnNo, den, es);
  }

  /** The smoothing step in place on grInt. */
  method SmoothGrid(smoothing: Smoothing, m: Mesh, tnNo: nat, A: array3<real>, es: seq<nat>) returns (outcome: Outcome)
    requires MeshShaped(m, tnNo) && Ascending(es, m.nEl)
    requires A.Length0 == m.nEl && A.Length1 == m.nG && (smoothing != NoSmoothing ==> Igr < A.Length2)
    modifies A
    ensures smoothing != NoSmoothing ==> LagrangeGrid(m, old(Grid3(A)))
    ensures outcome == ResultOutcome(Smoothed(smoothing, m, tnNo, old(Grid3(A)), es))
    ensures outcome.Pass? ==> Grid3(A) == Smoothed(smoothing, m, tnNo, old(Grid3(A)), es).value
  {
    match smoothing
    case NoSmoothing =>
      outcome := Pass;
    case ElementMean =>
      ArrayLagrange(m, A);
      SmoothMean(A, es);
      outcome := Pass;
    case ElementNode =>
      outcome := SmoothNodes(m, tnNo, A, es);
  }
}
