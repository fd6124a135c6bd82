# Structural equation and G&R finite-difference tangent of svFSIplus

This project models the core of the structural (solid) equation in svFSIplus,
`Code/Source/svFSI/sv_struct.cpp`, and proves properties of that model.
The core has four parts:

- **The finite-difference tangent for growth and remodelling (G&R).**
  - `construct_gr_fd` keeps editable copies of the nodal acceleration,
    velocity and displacement arrays. It makes one residual call of
    `eval_gr_fd`. Then, for every node, it makes one central call and, for
    every dof of that node, three calls. Each of those three perturbs
    exactly one of the copies at `(dof, node)` by the step `1e-8` and
    restores it afterwards.
  - `eval_gr_fd` does four things in order:
    1. it picks the residual, central or perturbed mode from the sentinels
       `dAc` and `dj`;
    2. it selects the elements to evaluate and to smooth;
    3. it updates the G&R internal variables `grInt` over the smoothing set
       and smooths variable 30: not at all, as an element mean, or by
       projecting to the nodes and back;
    4. it saves `grInt` into `grInt_orig` for the residual only, assembles
       the residual or one tangent column per element, and always restores
       `grInt` from `grInt_orig`.
- **The element loop.**
  - `construct_dsolid` resets `ptr`, `lR` and `lK` for every element, skips
    elements whose domain is not structural, and assembles the rest.
  - `eval_dsolid` gathers one element:
    - its nodes, fields, fibers and properties;
    - the Gauss loop: the mapping Jacobian, a `grInt` slice copied in and
      back out around each kernel call, and the prestress sums `pSa` and
      `pSn`.
- **The 3-D point kernel `struct_3d`.** It computes:
  - the deformation gradient and the viscous stress;
  - the call to the constitutive law and the early return when `eval` is
    false;
  - the prestress slice `pSl` and the residual;
  - the material and geometric tangent, with the `T1` term on diagonal dof
    blocks only.
- **The follower-pressure face kernels `b_struct_3d` and `b_struct_2d`.**
  They compute the pressure load and its skew-paired stiffness.

How it is modelled:

- `double` is modelled as exact `real`.
- The solver state is a class, `State.ComState`. It holds:
  - `grInt` and `grInt_orig` as three-dimensional arrays;
  - `pSa` and `pSn` as arrays;
  - the global assembly as a log of the blocks handed to it.
- Every routine is a method that changes that state in place, with loop
  invariants. Each is proved against a specification function of the
  state it starts from. Lemmas about those functions state what the code
  promises.
- The constitutive law (`get_pk2cc`) and the shape-function routine
  (`nn::gnn`) are functions passed in as part of the problem. They are
  foreign code.
- The integrator coefficients are those of the generalized-alpha scheme:
  - `Afu = af·beta·dt²`;
  - `Afv = af·gam·dt`.

Modules:

- `Params`: time parameters, failures and outcomes.
- `State`: the class and its grids.
- `Numerics` and `Kinematics`: 3×3 algebra and nodal gradients.
- `SolidKernel`: `struct_3d`.
- `SolidElement`: `eval_dsolid`.
- `SolidAssembly`: element lists and their effect on the state.
- `SolidConstruct`: `construct_dsolid`.
- `GrSmoothing`: the three smoothing modes.
- `GrFiniteDifference`: `eval_gr_fd`.
- `GrTangent`: the schedule of calls of `construct_gr_fd`.
- `GrConstruct`: `construct_gr_fd` in place.
- `FollowerPressure`: `b_struct_2d` and `b_struct_3d`.

## Model

| member | source | states |
|---|---|---|
| GrConstruct.ConstructGrFd | Code/Source/svFSI/sv_struct.cpp:205-266 | construct_gr_fd fails exactly when the schedule of calls fails. On success, grInt, grInt_orig, pSa, pSn and the assembly log equal the state that running the schedule of eval_gr_fd calls from the initial state produces. The editable copies equal the original fields again after every dof (PerturbDof keeps `Ready`). |
| GrConstruct.PerturbDof | Code/Source/svFSI/sv_struct.cpp:248-262 | For one node and dof, the three perturbed evaluations run in order. Afterwards the editable copies hold the unperturbed fields again. |
| GrTangent.Weights | Code/Source/svFSI/sv_struct.cpp:216-224 | fa·eps = am, fy·eps = af·gam·dt and fd·eps = af·beta·dt², with eps = 1e-8. |
| GrTangent.PerturbEntries | Code/Source/svFSI/sv_struct.cpp:249-251 | A perturbed field differs from the original in entry (i, Ac) only, and there by eps. |
| GrTangent.ScheduleLength | Code/Source/svFSI/sv_struct.cpp:240-264 | construct_gr_fd makes 1 + tnNo·(1 + 3·dof) calls of eval_gr_fd. |
| GrTangent.NodeCallsShape | Code/Source/svFSI/sv_struct.cpp:244-263 | The calls for node Ac are its central call (unperturbed fields, coefficient fa+fy+fd) followed by perturbed calls for that node. |
| GrTangent.ScheduleShape | Code/Source/svFSI/sv_struct.cpp:240-264 | The first call is the residual call on the unperturbed fields. Every later call is, for a node of the mesh, either its central call or a call in which exactly one field is perturbed at one dof, with that field's coefficient. |
| GrTangent.ScheduleRestoresGrid | Code/Source/svFSI/sv_struct.cpp:240-264 | After any successful prefix of the schedule, grInt and grInt_orig both equal the grid the residual call left: central and perturbed calls leave grInt as the residual call set it. |
| GrFiniteDifference.EvalGrFd | Code/Source/svFSI/sv_struct.cpp:268-472 | eval_gr_fd fails exactly when its specification does. On success, the new grInt, grInt_orig, pSa, pSn and assembly log are the specification's value for the old state. |
| GrFiniteDifference.ModeOf | Code/Source/svFSI/sv_struct.cpp:275-279 | The mode is residual iff dAc = dj = -1, central iff dAc ≠ -1 and dj = -1, and perturbed iff dj ≠ -1. |
| GrFiniteDifference.SelectSets | Code/Source/svFSI/sv_struct.cpp:297-326 | ele_fd = ele_smooth. For the residual, both hold every element. Otherwise both are map_node_ele[1] at dAc for element-node smoothing and map_node_ele[0] at dAc for the other modes. A node missing from the map is the `MissingAdjacency(dAc)` error, and only then. |
| GrFiniteDifference.ElementSetsOf | Code/Source/svFSI/sv_struct.cpp:297-326 | The loop that builds the sets returns exactly `SelectSets`. |
| GrFiniteDifference.SmoothingStageOutcome | Code/Source/svFSI/sv_struct.cpp:328-410 | The update-and-smooth stage fails only for one of three reasons: a node missing from the map, the first failing element of the smoothing set, or a zero nodal weight under element-node smoothing. On success, the evaluated set is the smoothed set and pSn is unchanged, because that stage evaluates without `eval`. |
| GrFiniteDifference.CallRestoresGrid | Code/Source/svFSI/sv_struct.cpp:412-414 | Every call ends with grInt = grInt_orig (line 471). The residual call sets grInt_orig to the smoothed grid. Other calls keep grInt_orig, so a call that starts with grInt = grInt_orig leaves grInt unchanged. |
| GrFiniteDifference.CallAssembles | Code/Source/svFSI/sv_struct.cpp:435-468 | A call appends one assembly per element of ele_fd, in order. The residual call appends that element's residual with ptr = IEN(·, e). The other calls append a tangent column with column node dAc and row nodes IEN(·, e). |
| GrFiniteDifference.ColumnLayout | Code/Source/svFSI/sv_struct.cpp:449-461 | Entry (i·dof + j, a) of a central column is -lR(i, a)·coef for every j. A perturbed column holds lR(i, a)·coef where j = dj and 0 everywhere else. |
| GrFiniteDifference.FdColumnsCombine | Code/Source/svFSI/sv_struct.cpp:449-461 | The central column and the three perturbed columns of dof dj sum, at entry (i, dj), to fa(RA−Rc) + fy(RY−Rc) + fd(RD−Rc): the weighted difference quotient. |
| GrFiniteDifference.FillColumn | Code/Source/svFSI/sv_struct.cpp:449-461 | The loops write exactly the column `FdColumn` of lR into the zeroed lK. |
| GrSmoothing.SmoothMean | Code/Source/svFSI/sv_struct.cpp:354-365 | Element smoothing leaves grInt equal to `MeanSmoothed`. For every element of the set and every Gauss point, variable 30 becomes the element's mean over its nG points. Every other entry is unchanged (`MeanSmoothedEntries`). |
| GrSmoothing.MeanSmoothedEntries | Code/Source/svFSI/sv_struct.cpp:354-365 | Entry (e, g, v) after element smoothing is the mean of element e when e is in the set and v = 30, and the old value otherwise. |
| GrSmoothing.MeanSmoothedIdempotent | Code/Source/svFSI/sv_struct.cpp:354-365 | Applying element smoothing twice gives the same grid as applying it once. |
| GrSmoothing.MeanKeepsConstant | Code/Source/svFSI/sv_struct.cpp:354-365 | A variable that is constant over each element's Gauss points is left as it is. |
| GrSmoothing.SmoothNodes | Code/Source/svFSI/sv_struct.cpp:368-408 | Element-node smoothing fails exactly when a node of the set has zero weight sum. Otherwise grInt becomes `NodeSmoothed`: variable 30 at (e, g) is Σ_a N(a,g)·num(IEN(a,e))/den(IEN(a,e)), where num and den sum w·N·val and w·N over the set. |
| GrSmoothing.ZeroWeightsIff | Code/Source/svFSI/sv_struct.cpp:381-407 | The search for a zero nodal weight finds none iff nG = 0 or every node of every element of the set has den ≠ 0. A node it finds is a node of the mesh with den = 0. |
| GrSmoothing.NodeKeepsConstant | Code/Source/svFSI/sv_struct.cpp:368-408 | Suppose the shape functions sum to 1 at every Gauss point and variable 30 has one constant value over the set. Then element-node smoothing, when it succeeds, returns the grid unchanged. |
| GrSmoothing.SmoothingWritesOnlyIgr | Code/Source/svFSI/sv_struct.cpp:347-410 | Whatever the mode, smoothing changes only variable 30 of elements in the set. It can fail only under element-node smoothing, and then only with a zero nodal weight. |
| SolidConstruct.ConstructDsolid | Code/Source/svFSI/sv_struct.cpp:475-528 | construct_dsolid fails exactly at the first failing structural element. On success, grInt, pSa and pSn are those of the element-by-element evaluation of the structural elements, and the log gains their blocks in ascending element order. |
| SolidAssembly.StructuralUpTo | Code/Source/svFSI/sv_struct.cpp:496-507 | The elements the loop visits are exactly the elements whose domain is structural, in ascending order. |
| SolidAssembly.FailureOverIff | Code/Source/svFSI/sv_struct.cpp:496-527 | Evaluating a list of elements reports no failure iff every element of the list passes its Gauss loop. |
| SolidAssembly.MassOverTotal | Code/Source/svFSI/sv_struct.cpp:666-675 | With prestress on and shape functions that sum to 1, evaluating a list raises the pSa total by the sum of the elements' measures Σ_g w·Jac. |
| SolidAssembly.StressOverWithoutEval | Code/Source/svFSI/sv_struct.cpp:666-675 | Elements evaluated without `eval` leave pSn unchanged. |
| SolidAssembly.GridOverWithoutGr | Code/Source/svFSI/sv_struct.cpp:634-663 | Without G&R equilibration, evaluating elements leaves grInt unchanged. |
| SolidElement.EvalDsolid | Code/Source/svFSI/sv_struct.cpp:532-682 | eval_dsolid sets ptr(a) = IEN(a, e). It fails exactly at the first Gauss point that fails. On success, lR, lK, grInt, pSa and pSn are the point-by-point accumulation of the kernel from the old state. |
| SolidElement.FiberCount | Code/Source/svFSI/sv_struct.cpp:556-559 | nFn is at least 1 and equals the domain's fiber count when that is nonzero. |
| SolidElement.PassesIffNoPointFails | Code/Source/svFSI/sv_struct.cpp:621-645 | The Gauss loop passes iff no point has a zero mapping Jacobian or a singular deformation gradient. |
| SolidElement.JacobianFailureNamesElement | Code/Source/svFSI/sv_struct.cpp:621-628 | A zero mapping Jacobian is reported as `ZeroMappingJacobian(e)`. The condition is Jac = 0, not Jac < 0. |
| SolidElement.MassTotal | Code/Source/svFSI/sv_struct.cpp:666-675 | When the shape functions sum to 1, the sum of pSa grows by Σ_g w·Jac over the element. |
| SolidElement.PrestressWithoutEval | Code/Source/svFSI/sv_struct.cpp:666-675 | Without `eval`, pSn is not changed by the element. |
| SolidKernel.Struct3D | Code/Source/svFSI/sv_struct.cpp:1320-1709 | struct_3d fails iff det F = 0, and then changes nothing. On success, grInt_g is what the law returns. With eval false, pSl, lR and lK are unchanged. With eval true, pSl is the Voigt form of S + Svis, and lR and lK gain the point residual and stiffness. |
| SolidKernel.VoigtRoundTrip | Code/Source/svFSI/sv_struct.cpp:1485-1491 | Reading back the six-entry Voigt vector gives the symmetric tensor it came from. |
| SolidKernel.VoigtRecoversSymmetric | Code/Source/svFSI/sv_struct.cpp:1485-1491 | A tensor is recovered from its Voigt form iff it is symmetric. |
| SolidKernel.ViscousStressSymmetric | Code/Source/svFSI/sv_struct.cpp:1451-1463 | Svis = 2μJ·F⁻¹·dev(sym(∇v F⁻¹))·F⁻ᵀ is symmetric. |
| SolidKernel.ViscousStressAtRest | Code/Source/svFSI/sv_struct.cpp:1451-1463 | With zero nodal velocities, Svis is zero. |
| Numerics.Inv3Inverse | Code/Source/svFSI/sv_struct.cpp:1444-1445 | When det F ≠ 0, Fi = mat_inv(F), computed as the transposed cofactor matrix over the determinant, satisfies F·Fi = I. |
| SolidKernel.UndeformedUnitJacobian | Code/Source/svFSI/sv_struct.cpp:1389-1444 | With zero displacement, F = I and det F = 1. |
| SolidKernel.ElasticTangentSymmetric | Code/Source/svFSI/sv_struct.cpp:1563-1706 | Take a law that returns a symmetric S and a symmetric Voigt tangent Dm, and no viscosity (μ = 0). Then the point stiffness at dof pair (i, j) and nodes (a, b) equals the stiffness at (j, i) and (b, a). |
| SolidKernel.TangentSymmetric | Code/Source/svFSI/sv_struct.cpp:1563-1706 | For any point tangent with symmetric S and Dm and μ = 0, the stiffness, made of the BmDBm material part, the NxSNx geometric part and the T1 diagonal term, is symmetric under swapping (i, a) with (j, b). |
| FollowerPressure.BStruct3D | Code/Source/svFSI/sv_struct.cpp:111-202 | b_struct_3d fails iff det F = 0, and then changes nothing. Otherwise lR gains −w·J·h·N(a)·(nᵀF⁻¹) and lK gains the skew-paired load stiffness with coefficient af·beta·dt². |
| FollowerPressure.BStruct2D | Code/Source/svFSI/sv_struct.cpp:55-108 | The 2-D kernel has the same contract as the 3-D one, with coefficient af·gam·dt. |
| FollowerPressure.SkewPaired | Code/Source/svFSI/sv_struct.cpp:174-201 | Every stiffness update is a skew pair. Row p·dof+q gains Ku and row q·dof+p gains −Ku, for the pairs 1/dof, 2/2·dof and dof+2/2·dof+1 (only 1/dof in 2-D, lines 96-106). |
| FollowerPressure.DiagonalUntouched | Code/Source/svFSI/sv_struct.cpp:174-201 | The diagonal blocks 0, dof+1 and 2·dof+2 are never changed. |
| FollowerPressure.ZeroPressureNoLoad3 | Code/Source/svFSI/sv_struct.cpp:111-202 | If every nodal pressure hl(a) is 0, then h = 0 and wl = 0. Every residual and stiffness term is then 0, so b_struct_3d leaves lR and lK unchanged. |
| FollowerPressure.ZeroPressureNoLoad2 | Code/Source/svFSI/sv_struct.cpp:55-108 | The same for b_struct_2d: zero nodal pressures make every residual and stiffness term 0. |

## Left out

- Floating point: `double` is modelled as exact `real`. Rounding, and the O(eps) accuracy of the difference quotient, are not modelled.
- `is_zero` in `eval_dsolid` is modelled as exact equality with 0.
- `mat_inv`, `mat_det`, `mat_symm` and `mat_dev` are written out as closed-form 3×3 (and 2×2) algebra. The `mat_fun` code is not part of this model.
- SolidKernel.Struct3D: a singular deformation gradient (det F = 0) stops the evaluation with `SingularDefGrad`. No line of sv_struct.cpp throws there. The outcome stands for `mat_inv` of a singular matrix, which has no real inverse. The same holds for the face kernels FollowerPressure.BStruct3D and FollowerPressure.BStruct2D.
- `get_pk2cc` (the constitutive law) and `nn::gnn` (shape-function derivatives) are foreign code. They are function parameters, and only the shapes of their outputs are required.
- `do_assem_residual`, `do_assem_tangent`, `lhsa_ns::do_assem` and `trilinos_doassem_` are not modelled. Each call is an entry appended to the assembly log, and the global matrix is not formed.
- `struct_2d` (the `nsd == 2` branch of `eval_dsolid`) is not modelled. Its residual reads `Nx(2, a)` from a two-row array. The model is three-dimensional.
- `struct_3d_carray` is not modelled. It duplicates `struct_3d`, and its call is commented out.
- The NURBS stub, the `output` and debug printing, and the `#if 0` dump block are not modelled.
- `all_fun::domain` is not modelled. Which elements are structural is an input flag per element.
- Coupled and electro-mechanics inputs (`cem`, activation, `ya_g` from `cep_mod`) are not modelled. They reach the law only as parameters.
- GrFiniteDifference.EvalGrFd: the smoothing mode is a parameter. The source fixes it to element-node smoothing at sv_struct.cpp:295, and the model covers all three branches.
- GrSmoothing.SmoothNodes: a node with zero weight sum is reported as the `ZeroNodalWeight` failure, and GrFiniteDifference.EvalGrFd then stops, before the assembly pass and the restore. The source divides by zero there (line 403), writes inf/NaN into grInt, and still assembles and restores.
- GrSmoothing.SmoothNodes: the nodal accumulators have length tnNo, and the mesh is required to have IEN entries below tnNo. The source sizes them `lM.gnNo` (lines 371-372) but indexes them with the same IEN entries that index the tnNo-wide fields. When tnNo > gnNo the source can write out of range. The model does not capture that case.
- GrSmoothing.SmoothMean: with nG = 0, there is no Gauss point to write, so the source's division 0/0 is never stored.
- SolidElement.EvalDsolid: after a failure, the contract states only the failure. The state the source leaves behind a thrown exception (partially updated lR, lK, grInt and sums) is not specified.
- SolidConstruct.ConstructDsolid: after a failure, the contract states only the failure, not the partially assembled state.
- GrFiniteDifference.EvalGrFd: after a failure, the contract states only the failure. The source's exception leaves grInt unrestored.
- GrConstruct.ConstructGrFd: after a failure, the contract states only the failure, not the partly perturbed copies or state.
