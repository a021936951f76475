/**
 * The `SimplexInput` record that `handleSubmit` posts to the solver: the
 * sense and the objective as they are, and the constraint list split into
 * three index-aligned arrays.
 */
module Request {

  import opened Numbers
  import opened Editor

  datatype SimplexInput = SimplexInput(
    maximize: bool,
    objective: seq<Coef>,
    lhsIneq: seq<seq<Coef>>,
    rhsIneq: seq<Coef>,
    desiredVariations: seq<Coef>)

  /**
   * The shape the solver's interface expects: as many right-hand sides and
   * variations as left-hand-side rows, and every row as long as the objective.
   */
  predicate Aligned(req: SimplexInput) {
    && |req.rhsIneq| == |req.lhsIneq|
    && |req.desiredVariations| == |req.lhsIneq|
    && forall k :: 0 <= k < |req.lhsIneq| ==> |req.lhsIneq[k]| == |req.objective|
  }

  /** The three `constraints.map(...)` projections of `handleSubmit`. */
  function BuildRequest(p: Problem): (req: SimplexInput)
    ensures req.maximize == p.maximize && req.objective == p.objective
    ensures |req.lhsIneq| == |p.constraints|
    ensures |req.rhsIneq| == |p.constraints|
    ensures |req.desiredVariations| == |p.constraints|
    ensures forall k :: 0 <= k < |p.constraints| ==>
      && req.lhsIneq[k] == p.constraints[k].lhs
      && req.rhsIneq[k] == p.constraints[k].rhs
      && req.desiredVariations[k] == p.constraints[k].variation
  {
    var cs := p.constraints;
    SimplexInput(
      p.maximize,
      p.objective,
      seq(|cs|, k requires 0 <= k < |cs| => cs[k].lhs),
      seq(|cs|, k requires 0 <= k < |cs| => cs[k].rhs),
      seq(|cs|, k requires 0 <= k < |cs| => cs[k].variation))
  }

  /** Puts the three aligned arrays of a request back together into constraint rows. */
  function Rows(req: SimplexInput): (cs: seq<Constraint>)
    requires |req.rhsIneq| == |req.lhsIneq| && |req.desiredVariations| == |req.lhsIneq|
  {
    seq(|req.lhsIneq|, k requires 0 <= k < |req.lhsIneq| =>
      Constraint(req.lhsIneq[k], req.rhsIneq[k], req.desiredVariations[k]))
  }

  /** Splitting the constraints into the request loses nothing: the rows come back unchanged. */
  lemma RequestRoundTrip(p: Problem)
    ensures var req := BuildRequest(p);
      |req.rhsIneq| == |req.lhsIneq| && |req.desiredVariations| == |req.lhsIneq|
      && Rows(req) == p.constraints
  {
  }

  /**
   * A problem is well shaped exactly when its objective has `numVariables`
   * entries and the request built from it has the shape the solver expects.
   */
  lemma RequestAligned(p: Problem)
    ensures WellShaped(p) <==> |p.objective| == p.numVariables && Aligned(BuildRequest(p))
  {
  }
}
