/** Time-integration coefficients, the dof-block layout of local tangent
    blocks, and the failures the structural routines can raise. */
module Params {

  /** Generalized-alpha coefficients of the current equation and the step. */
  datatype TimeParams = TimeParams(am: real, af: real, beta: real, gam: real, dt: real)

  /** af * beta * dt^2: the displacement weight of the tangent. */
  function Afu(tp: TimeParams): real
  {
    tp.af * tp.beta * tp.dt * tp.dt
  }

  /** af * gam * dt: the velocity weight of the tangent. */
  function Afv(tp: TimeParams): real
  {
    tp.af * tp.gam * tp.dt
  }

  /** Row of a local tangent block (dof*dof rows) that holds the derivative
      of equation r with respect to unknown c: r*dof + c, written without a
      product of variables for r < 3. */
  function KRow(r: nat, c: nat, dof: nat): (k: nat)
    requires r < 3 && c < dof
    ensures k == r * dof + c
  {
    if r == 0 then c else if r == 1 then dof + c else dof + dof + c
  }

  /** The failures that abort an evaluation. */
  datatype Failure =
    | ZeroMappingJacobian(element: nat)   // eval_dsolid: isoparametric map degenerate
    | SingularDefGrad                     // mat_inv of a singular deformation gradient
    | MissingAdjacency(node: int)         // map_node_ele .at() on a node without entry
    | ZeroNodalWeight(vertex: nat)        // element-node projection divides by zero

  datatype Outcome = Pass | Fail(failure: Failure)

  datatype Option<T> = None | Some(value: T)

  /** A value, or the failure that aborted its computation. */
  datatype Result<T> = Ok(value: T) | Err(error: Failure)

  /** What a result reports: its failure, or success. */
  function ResultOutcome<T>(r: Result<T>): (o: Outcome)
    ensures o.Pass? <==> r.Ok?
    ensures o.Fail? ==> o.failure == r.error
  {
    match r
    case Ok(_) => Pass
    case Err(f) => Fail(f)
  }
}
