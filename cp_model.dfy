/**
 * The constraint model that `schedule_sessions_once` builds for the CP-SAT solver: its
 * decision variables, the forms of constraint it adds, the penalty terms of its
 * objective, and what it means for a valuation to satisfy it.
 */
module CpModel {
  import opened SchedConfig

  /** A decision variable: the `index`-th own session of `group`, or joint session `index`. */
  datatype Var = Own(group: Group, index: nat) | Joint(index: nat)

  /**
   * The constraints the source adds:
   * `NewIntVar(lo, hi)` domains, `x != y`, `x != value`, `AddAllowedAssignments`,
   * and the per-slot sum of reified indicators `x == slot` bounded by `limit`.
   */
  datatype Constraint =
    | InDomain(x: Var, lo: int, hi: int)
    | Differ(x: Var, y: Var)
    | Avoid(x: Var, value: int)
    | AllowedIn(x: Var, values: seq<int>)
    | AtMost(vars: seq<Var>, slot: int, limit: int)

  /** A reified overlap indicator `x == y` entering the objective with `weight`. */
  datatype OverlapTerm = OverlapTerm(x: Var, y: Var, weight: nat)

  /**
   * A model: the declared own variables (a count per group), the number of joint
   * variables, the hard constraints and the objective to minimise.
   */
  datatype Model = Model(
    ownVars: map<Group, nat>,
    jointVars: nat,
    constraints: seq<Constraint>,
    objective: seq<OverlapTerm>)

  /** The value a valuation gives a variable (-1, outside every domain, for an undeclared one). */
  function Value(v: Valuation, x: Var): int
  {
    match x
    case Own(g, k) => if g in v.own && k < |v.own[g]| then v.own[g][k] else -1
    case Joint(j) => if j < |v.joint| then v.joint[j] else -1
  }

  /** How many of `vars` take value `s`. */
  function CountAt(v: Valuation, vars: seq<Var>, s: int): (n: nat)
    ensures n <= |vars|
  {
    if vars == [] then 0
    else CountAt(v, vars[..|vars| - 1], s) + (if Value(v, vars[|vars| - 1]) == s then 1 else 0)
  }

  predicate Holds(v: Valuation, con: Constraint)
  {
    match con
    case InDomain(x, lo, hi) => lo <= Value(v, x) <= hi
    case Differ(x, y) => Value(v, x) != Value(v, y)
    case Avoid(x, value) => Value(v, x) != value
    case AllowedIn(x, values) => Value(v, x) in values
    case AtMost(vars, slot, limit) => CountAt(v, vars, slot) <= limit
  }

  /** The valuation gives exactly the declared variables a value. */
  ghost predicate Assigns(m: Model, v: Valuation)
  {
    && v.own.Keys == m.ownVars.Keys
    && (forall g :: g in v.own ==> |v.own[g]| == m.ownVars[g])
    && |v.joint| == m.jointVars
  }

  /** What a FEASIBLE or OPTIMAL answer of the solver guarantees. */
  ghost predicate Satisfies(m: Model, v: Valuation)
  {
    Assigns(m, v) && forall con :: con in m.constraints ==> Holds(v, con)
  }

  /** The value of the objective `sum(penalty * weight)` under `v`. */
  function Objective(terms: seq<OverlapTerm>, v: Valuation): nat
  {
    if terms == [] then 0
    else
      var t := terms[|terms| - 1];
      Objective(terms[..|terms| - 1], v) + (if Value(v, t.x) == Value(v, t.y) then t.weight else 0)
  }

  lemma {:induction false} ObjectiveAppend(a: seq<OverlapTerm>, b: seq<OverlapTerm>, v: Valuation)
    ensures Objective(a + b, v) == Objective(a, v) + Objective(b, v)
  {
    if b == [] {
      assert a + b == a;
    } else {
      assert (a + b)[..|a + b| - 1] == a + b[..|b| - 1];
      ObjectiveAppend(a, b[..|b| - 1], v);
    }
  }

  lemma CountAtAppend(v: Valuation, vars: seq<Var>, x: Var, s: int)
    ensures CountAt(v, vars + [x], s) == CountAt(v, vars, s) + (if Value(v, x) == s then 1 else 0)
  {
    assert (vars + [x])[..|vars|] == vars;
  }
}
