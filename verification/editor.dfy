/**
 * The problem being edited in the form of src/app/page.tsx: the number of
 * decision variables, the optimisation sense, the objective coefficients and
 * the list of `<=` constraints, each with its requested right-hand-side
 * variation, and the handlers that edit them.
 *
 * React state updates are modelled as functions from the old problem to
 * the new one.
 */
module Editor {

  import opened Numbers

  /** One constraint row: `lhs · x <= rhs`, plus the variation to analyse on `rhs`. */
  datatype Constraint = Constraint(lhs: seq<Coef>, rhs: Coef, variation: Coef)

  /** The state of the form that the request is built from. */
  datatype Problem = Problem(
    numVariables: nat,
    maximize: bool,
    objective: seq<Coef>,
    constraints: seq<Constraint>)

  /** The objective and every left-hand side have one entry per decision variable. */
  predicate WellShaped(p: Problem) {
    && |p.objective| == p.numVariables
    && forall k :: 0 <= k < |p.constraints| ==> |p.constraints[k].lhs| == p.numVariables
  }

  /** The state the form starts in: two variables, maximising, one all-zero constraint. */
  function Initial(): (p: Problem)
    ensures WellShaped(p)
    ensures p.numVariables == 2 && p.maximize
    ensures AllZero(p.objective, 2)
    ensures |p.constraints| == 1
    ensures AllZero(p.constraints[0].lhs, 2)
    ensures p.constraints[0].rhs == Num(0.0) && p.constraints[0].variation == Num(0.0)
  {
    Problem(2, true, [Num(0.0), Num(0.0)],
            [Constraint([Num(0.0), Num(0.0)], Num(0.0), Num(0.0))])
  }

  /** `handleObjectiveChange`: one objective coefficient takes a new value. */
  function SetObjective(p: Problem, index: nat, value: Coef): (q: Problem)
    requires index < |p.objective|
    ensures |q.objective| == |p.objective| && q.objective[index] == value
    ensures forall k :: 0 <= k < |p.objective| && k != index ==> q.objective[k] == p.objective[k]
    ensures q.numVariables == p.numVariables && q.maximize == p.maximize
    ensures q.constraints == p.constraints
    ensures WellShaped(p) ==> WellShaped(q)
  {
    p.(objective := p.objective[index := value])
  }

  /** `handleConstraintChange`: one left-hand-side coefficient of one constraint takes a new value. */
  function SetCoefficient(p: Problem, row: nat, column: nat, value: Coef): (q: Problem)
    requires row < |p.constraints| && column < |p.constraints[row].lhs|
    ensures |q.constraints| == |p.constraints|
    ensures forall k :: 0 <= k < |p.constraints| && k != row ==> q.constraints[k] == p.constraints[k]
    ensures q.constraints[row].rhs == p.constraints[row].rhs
    ensures q.constraints[row].variation == p.constraints[row].variation
    ensures |q.constraints[row].lhs| == |p.constraints[row].lhs|
    ensures q.constraints[row].lhs[column] == value
    ensures forall v :: 0 <= v < |p.constraints[row].lhs| && v != column ==>
      q.constraints[row].lhs[v] == p.constraints[row].lhs[v]
    ensures q.numVariables == p.numVariables && q.maximize == p.maximize && q.objective == p.objective
    ensures WellShaped(p) ==> WellShaped(q)
  {
    var c := p.constraints[row];
    p.(constraints := p.constraints[row := c.(lhs := c.lhs[column := value])])
  }

  /** `handleRhsChange`: the right-hand side of one constraint takes a new value. */
  function SetRhs(p: Problem, row: nat, value: Coef): (q: Problem)
    requires row < |p.constraints|
    ensures |q.constraints| == |p.constraints|
    ensures forall k :: 0 <= k < |p.constraints| && k != row ==> q.constraints[k] == p.constraints[k]
    ensures q.constraints[row].rhs == value
    ensures q.constraints[row].lhs == p.constraints[row].lhs
    ensures q.constraints[row].variation == p.constraints[row].variation
    ensures q.numVariables == p.numVariables && q.maximize == p.maximize && q.objective == p.objective
    ensures WellShaped(p) ==> WellShaped(q)
  {
    p.(constraints := p.constraints[row := p.constraints[row].(rhs := value)])
  }

  /** `handleVariationChange`: the requested variation of one constraint takes a new value. */
  function SetVariation(p: Problem, row: nat, value: Coef): (q: Problem)
    requires row < |p.constraints|
    ensures |q.constraints| == |p.constraints|
    ensures forall k :: 0 <= k < |p.constraints| && k != row ==> q.constraints[k] == p.constraints[k]
    ensures q.constraints[row].variation == value
    ensures q.constraints[row].lhs == p.constraints[row].lhs
    ensures q.constraints[row].rhs == p.constraints[row].rhs
    ensures q.numVariables == p.numVariables && q.maximize == p.maximize && q.objective == p.objective
    ensures WellShaped(p) ==> WellShaped(q)
  {
    p.(constraints := p.constraints[row := p.constraints[row].(variation := value)])
  }

  /**
   * `addConstraint`: a new last constraint with `numVariables` zero
   * coefficients, zero right-hand side and zero variation; the existing
   * constraints stay as they are.
   */
  function AddConstraint(p: Problem): (q: Problem)
    ensures |q.constraints| == |p.constraints| + 1
    ensures q.constraints[..|p.constraints|] == p.constraints
    ensures AllZero(q.constraints[|p.constraints|].lhs, p.numVariables)
    ensures q.constraints[|p.constraints|].rhs == Num(0.0)
    ensures q.constraints[|p.constraints|].variation == Num(0.0)
    ensures q.numVariables == p.numVariables && q.maximize == p.maximize && q.objective == p.objective
    ensures WellShaped(p) ==> WellShaped(q)
  {
    p.(constraints := p.constraints + [Constraint(Zeros(p.numVariables), Num(0.0), Num(0.0))])
  }

  /**
   * `s.filter((_, i) => i !== index)`: keeps, in order, every element whose
   * position is not `index`. Removes exactly one element when `index` is a
   * position of `s`, and none otherwise.
   */
  function Without<T>(s: seq<T>, index: int): (r: seq<T>)
    ensures 0 <= index < |s| ==> r == s[..index] + s[index + 1..]
    ensures !(0 <= index < |s|) ==> r == s
    decreases |s|
  {
    if |s| == 0 then []
    else
      var n := |s| - 1;
      Without(s[..n], index) + (if n == index then [] else [s[n]])
  }

  /** `removeConstraint`: drops the constraint at `index`, if there is one. */
  function RemoveConstraint(p: Problem, index: int): (q: Problem)
    ensures |q.constraints| == if 0 <= index < |p.constraints| then |p.constraints| - 1 else |p.constraints|
    ensures forall k :: 0 <= k < |q.constraints| ==>
      q.constraints[k] == p.constraints[if 0 <= index <= k then k + 1 else k]
    ensures !(0 <= index < |p.constraints|) ==> q.constraints == p.constraints
    ensures q.numVariables == p.numVariables && q.maximize == p.maximize && q.objective == p.objective
    ensures WellShaped(p) ==> WellShaped(q)
  {
    p.(constraints := Without(p.constraints, index))
  }

  /**
   * The handler of the variable-count selector: `num` variables, an all-zero
   * objective of that length, and every left-hand side replaced by `num`
   * zeros, while each constraint keeps its right-hand side and variation.
   */
  function Resize(p: Problem, num: nat): (q: Problem)
    ensures q.numVariables == num && q.maximize == p.maximize
    ensures AllZero(q.objective, num)
    ensures |q.constraints| == |p.constraints|
    ensures forall k :: 0 <= k < |p.constraints| ==>
      && AllZero(q.constraints[k].lhs, num)
      && q.constraints[k].rhs == p.constraints[k].rhs
      && q.constraints[k].variation == p.constraints[k].variation
    ensures WellShaped(q)
  {
    p.(numVariables := num,
       objective := Zeros(num),
       constraints := seq(|p.constraints|, k requires 0 <= k < |p.constraints| =>
         p.constraints[k].(lhs := Zeros(num))))
  }

  /** The optimisation-sense radio group: only the sense changes. */
  function SetMaximize(p: Problem, maximize: bool): (q: Problem)
    ensures q.maximize == maximize
    ensures q.numVariables == p.numVariables && q.objective == p.objective && q.constraints == p.constraints
    ensures WellShaped(p) ==> WellShaped(q)
  {
    p.(maximize := maximize)
  }

  /** Removing the constraint just added gives back the problem as it was. */
  lemma RemoveUndoesAdd(p: Problem)
    ensures RemoveConstraint(AddConstraint(p), |p.constraints|) == p
  {
    var q := AddConstraint(p);
    assert q.constraints[..|p.constraints|] + q.constraints[|p.constraints| + 1..] == p.constraints;
  }
}
