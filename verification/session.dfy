/**
 * An editing session: the form starts in its initial state and the user
 * triggers handlers one after another. Only inputs the form actually
 * renders can fire, so a point edit always addresses an existing cell and
 * the variable-count selector offers 2, 3 or 4.
 */
module Session {

  import opened Optional
  import opened Numbers
  import opened Editor
  import opened Request

  /** One user action on the form. */
  datatype Action =
    | EditObjective(index: nat, value: Coef)
    | EditCoefficient(row: nat, column: nat, value: Coef)
    | EditRhs(row: nat, value: Coef)
    | EditVariation(row: nat, value: Coef)
    | Add
    | Remove(target: int)
    | ChooseVariables(num: nat)
    | ChooseSense(maximize: bool)

  /** The form renders an input or button that fires this action. */
  predicate Offered(p: Problem, a: Action) {
    match a
    case EditObjective(i, _) => i < |p.objective|
    case EditCoefficient(r, c, _) => r < |p.constraints| && c < |p.constraints[r].lhs|
    case EditRhs(r, _) => r < |p.constraints|
    case EditVariation(r, _) => r < |p.constraints|
    case Add => true
    case Remove(i) => 0 <= i < |p.constraints|
    case ChooseVariables(num) => 2 <= num <= 4
    case ChooseSense(_) => true
  }

  /** The state after an offered action. */
  function Apply(p: Problem, a: Action): (q: Problem)
    requires Offered(p, a)
    ensures WellShaped(p) ==> WellShaped(q)
  {
    match a
    case EditObjective(i, v) => SetObjective(p, i, v)
    case EditCoefficient(r, c, v) => SetCoefficient(p, r, c, v)
    case EditRhs(r, v) => SetRhs(p, r, v)
    case EditVariation(r, v) => SetVariation(p, r, v)
    case Add => AddConstraint(p)
    case Remove(i) => RemoveConstraint(p, i)
    case ChooseVariables(num) => Resize(p, num)
    case ChooseSense(b) => SetMaximize(p, b)
  }

  /** The state after a sequence of actions, or `None` if one of them is not offered when its turn comes. */
  function Run(p: Problem, actions: seq<Action>): Option<Problem>
    decreases |actions|
  {
    if |actions| == 0 then Some(p)
    else if !Offered(p, actions[0]) then None
    else Run(Apply(p, actions[0]), actions[1..])
  }

  /** Every state reached from a well-shaped state is well shaped. */
  lemma {:induction false} RunKeepsShape(p: Problem, actions: seq<Action>)
    requires WellShaped(p)
    ensures Run(p, actions).Some? ==> WellShaped(Run(p, actions).value)
    decreases |actions|
  {
    if |actions| > 0 && Offered(p, actions[0]) {
      RunKeepsShape(Apply(p, actions[0]), actions[1..]);
    }
  }

  /**
   * Whatever the user does, the objective and every left-hand side have
   * `numVariables` entries, and the request posted to the solver has three
   * aligned arrays whose rows are as long as the objective.
   */
  lemma ReachableShape(actions: seq<Action>)
    ensures Run(Initial(), actions).Some? ==>
      var p := Run(Initial(), actions).value;
      WellShaped(p) && Aligned(BuildRequest(p)) && |BuildRequest(p).objective| == p.numVariables
  {
    RunKeepsShape(Initial(), actions);
    if Run(Initial(), actions).Some? {
      RequestAligned(Run(Initial(), actions).value);
    }
  }
}
