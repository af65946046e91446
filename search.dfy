/**
 * `schedule_sessions_once` and the search loop of `schedule_sessions`. The constraint
 * solver is a function from a seed and a model to an optional valuation; any solver must
 * only return valuations that satisfy the model.
 */
module Search {
  import opened Wrappers
  import opened SchedConfig
  import opened Rules
  import opened CpModel
  import opened ModelBuilder
  import opened AgendaAssembly
  import opened ChangeDistance

  /** A solver for one seed: no valuation (status neither FEASIBLE nor OPTIMAL), or one satisfying the model. */
  type Solver = (nat, Model) -> Option<Valuation>

  /** The solver returns only valuations that satisfy every constraint of the model. */
  ghost predicate SoundSolver(solve: Solver)
  {
    forall seed, m, v :: solve(seed, m) == Some(v) ==> Satisfies(m, v)
  }

  /** `a` is the agenda of some valuation that meets every scheduling rule. */
  ghost predicate AgendaOfValid(c: Config, a: Agenda)
  {
    exists v :: Valid(c, v) && a == AgendaOf(c, v)
  }

  /** `m` is the model of `c`: satisfied exactly by the valid valuations, with objective `Penalty`. */
  ghost predicate ModelOf(c: Config, m: Model)
  {
    && (forall v :: Satisfies(m, v) <==> Valid(c, v))
    && (forall v :: Shaped(c, v) ==> Objective(m.objective, v) == Penalty(c, v))
  }

  /**
   * `solution` is what lines 183-186 return when the solver runs on `m` with `seed`:
   * nothing when the solver finds no valuation, otherwise the agenda of the valuation it
   * found (which, for the model of `c` and a sound solver, is valid).
   */
  ghost predicate SolvedAs(c: Config, solve: Solver, seed: nat, m: Model, solution: Option<Agenda>)
  {
    && (solve(seed, m).None? ==> solution == None)
    && (solve(seed, m).Some? ==> Shaped(c, solve(seed, m).value) && solution == Some(AgendaOf(c, solve(seed, m).value)))
  }

  /** `results[i]` is what the solver, run with seed `i` on `models[i]`, gives for `c`. */
  ghost predicate SolvedRuns(c: Config, solve: Solver, results: seq<Option<Agenda>>, models: seq<Model>)
  {
    && |models| == |results|
    && forall i :: 0 <= i < |results| ==> SolvedAs(c, solve, i, models[i], results[i])
  }

  /** Run `i` solved `models[i]`, the model of `c`, with seed `i`, and returned `results[i]`. */
  ghost predicate RunsAs(c: Config, solve: Solver, results: seq<Option<Agenda>>, models: seq<Model>)
  {
    && SolvedRuns(c, solve, results, models)
    && forall i :: 0 <= i < |models| ==> ModelOf(c, models[i])
  }

  /**
   * `schedule_sessions_once` (lines 67-186): builds the model, runs the solver and, when
   * it finds a solution, returns that solution's agenda.
   */
  method ScheduleOnce(c: Config, solve: Solver, seed: nat) returns (solution: Option<Agenda>, m: Model)
    requires WellFormed(c) && SoundSolver(solve)
    ensures ModelOf(c, m)
    ensures SolvedAs(c, solve, seed, m, solution)
    ensures solve(seed, m).Some? ==> Valid(c, solve(seed, m).value)
    ensures solution.Some? ==> AgendaOfValid(c, solution.value)
  {
    m := BuildModel(c);
    var status := solve(seed, m);
    if status.Some? {
      var agenda := CollectSolution(c, status.value);
      solution := Some(agenda);
    } else {
      solution := None;
    }
  }

  /** Lines 195-196 and 199: one iteration without a previous agenda, otherwise `range(num_iterations)`. */
  function Iterations(previous: Option<Agenda>, numIterations: int): nat
  {
    if Falsy(previous) then 1 else if numIterations < 0 then 0 else numIterations
  }

  /** The change count against `previous`, as a function of the candidate agenda. */
  ghost function ChangesTo(previous: Option<Agenda>): Agenda -> nat
  {
    a => Changes(a, previous)
  }

  /**
   * The outcome of lines 191-212 on the solutions `results`, for a solution's cost `cost`:
   * no best solution exactly when every result is empty; otherwise the best is the result
   * at `index`, costing least of all, and strictly less than every earlier result.
   */
  ghost predicate BestBy(results: seq<Option<Agenda>>, cost: Agenda -> nat,
                         best: Option<Agenda>, minCost: Option<nat>, index: nat)
  {
    && (best.None? <==> minCost.None?)
    && (best.None? <==> forall i :: 0 <= i < |results| ==> Falsy(results[i]))
    && (best.Some? ==>
          && index < |results| && results[index] == best && !Falsy(best)
          && minCost == Some(cost(best.value))
          && (forall i :: 0 <= i < |results| && !Falsy(results[i]) ==> minCost.value <= cost(results[i].value))
          && (forall i :: 0 <= i < index && !Falsy(results[i]) ==> minCost.value < cost(results[i].value)))
  }

  /** The best choice by the number of changes against `previous`. */
  ghost predicate BestChoice(results: seq<Option<Agenda>>, previous: Option<Agenda>,
                             best: Option<Agenda>, minChanges: Option<nat>, index: nat)
  {
    BestBy(results, ChangesTo(previous), best, minChanges, index)
  }

  /** An empty result leaves the choice as it was. */
  lemma BestBySkip(results: seq<Option<Agenda>>, cost: Agenda -> nat,
                   best: Option<Agenda>, minCost: Option<nat>, index: nat, solution: Option<Agenda>)
    requires BestBy(results, cost, best, minCost, index) && Falsy(solution)
    ensures BestBy(results + [solution], cost, best, minCost, index)
  {
    var rs := results + [solution];
    assert forall i :: 0 <= i < |results| ==> rs[i] == results[i];
    assert (forall i :: 0 <= i < |rs| ==> Falsy(rs[i])) <==> (forall i :: 0 <= i < |results| ==> Falsy(results[i]));
    if best.Some? {
      assert forall i :: 0 <= i < |rs| && !Falsy(rs[i]) ==> i < |results|;
    }
  }

  /** A result costing less than the best so far (or the first one) becomes the best. */
  lemma BestByImprove(results: seq<Option<Agenda>>, cost: Agenda -> nat,
                      best: Option<Agenda>, minCost: Option<nat>, index: nat, solution: Option<Agenda>)
    requires BestBy(results, cost, best, minCost, index) && !Falsy(solution)
    requires minCost.None? || cost(solution.value) < minCost.value
    ensures BestBy(results + [solution], cost, solution, Some(cost(solution.value)), |results|)
  {
    var rs := results + [solution];
    assert forall i :: 0 <= i < |results| ==> rs[i] == results[i];
    assert rs[|results|] == solution && !Falsy(rs[|results|]);
  }

  /** A result costing at least as much as the best so far changes nothing. */
  lemma BestByKeep(results: seq<Option<Agenda>>, cost: Agenda -> nat,
                   best: Option<Agenda>, minCost: Option<nat>, index: nat, solution: Option<Agenda>)
    requires BestBy(results, cost, best, minCost, index) && !Falsy(solution)
    requires minCost.Some? && minCost.value <= cost(solution.value)
    ensures BestBy(results + [solution], cost, best, minCost, index)
  {
    var rs := results + [solution];
    assert forall i :: 0 <= i < |results| ==> rs[i] == results[i];
  }

  /** Lines 191-212: keeps the first solution with the fewest changes, found at `index`. */
  method SelectBest(results: seq<Option<Agenda>>, previous: Option<Agenda>)
    returns (best: Option<Agenda>, minChanges: Option<nat>, index: nat)
    ensures BestChoice(results, previous, best, minChanges, index)
  {
    ghost var cost := ChangesTo(previous);
    best := None;
    minChanges := None;
    index := 0;
    for i := 0 to |results|
      invariant BestBy(results[..i], cost, best, minChanges, index)
    {
      assert results[..i + 1] == results[..i] + [results[i]];
      var solution := results[i];
      if Falsy(solution) {
        BestBySkip(results[..i], cost, best, minChanges, index, solution);
        continue;
      }
      var changes := CalculateChanges(solution.value, previous);
      assert cost(solution.value) == changes;
      if minChanges.None? || changes < minChanges.value {
        BestByImprove(results[..i], cost, best, minChanges, index, solution);
        minChanges := Some(changes);
        best := solution;
        index := i;
      } else {
        BestByKeep(results[..i], cost, best, minChanges, index, solution);
      }
    }
    assert results[..|results|] == results;
  }

  /** The choice is determined by the results: two outcomes meeting it are the same. */
  lemma BestByUnique(results: seq<Option<Agenda>>, cost: Agenda -> nat,
                     best: Option<Agenda>, minCost: Option<nat>, index: nat,
                     best': Option<Agenda>, minCost': Option<nat>, index': nat)
    requires BestBy(results, cost, best, minCost, index)
    requires BestBy(results, cost, best', minCost', index')
    ensures best == best' && minCost == minCost'
    ensures best.Some? ==> index == index'
  {
    if best.Some? {
      assert minCost.value <= cost(results[index'].value);
      assert minCost'.value <= cost(results[index].value);
    }
  }

  /** Without a previous agenda every solution has no changes, so the first non-empty one is kept. */
  lemma BestWithoutPrevious(results: seq<Option<Agenda>>, previous: Option<Agenda>,
                            best: Option<Agenda>, minChanges: Option<nat>, index: nat)
    requires Falsy(previous) && BestChoice(results, previous, best, minChanges, index)
    ensures best.Some? ==> minChanges == Some(0) && forall i :: 0 <= i < index ==> Falsy(results[i])
  {
    var cost := ChangesTo(previous);
    assert forall a :: cost(a) == 0;
  }

  /**
   * Lines 199-200: `n` runs of the single-solution scheduler, the i-th with seed `i`;
   * `models[i]` is the model built on the i-th run.
   */
  method SolveRepeatedly(c: Config, solve: Solver, n: nat) returns (results: seq<Option<Agenda>>, ghost models: seq<Model>)
    requires WellFormed(c) && SoundSolver(solve)
    ensures |results| == n && RunsAs(c, solve, results, models)
    ensures forall i :: 0 <= i < n && results[i].Some? ==> AgendaOfValid(c, results[i].value)
  {
    results := [];
    models := [];
    for i := 0 to n
      invariant |results| == i && |models| == i
      invariant forall j :: 0 <= j < i ==> ModelOf(c, models[j]) && SolvedAs(c, solve, j, models[j], results[j])
      invariant forall j :: 0 <= j < i && results[j].Some? ==> AgendaOfValid(c, results[j].value)
    {
      var solution, m := ScheduleOnce(c, solve, i);
      results := results + [solution];
      models := models + [m];
      assert results[i] == solution && models[i] == m;
    }
  }

  /**
   * With at least one slot, the i-th result is empty exactly when the solver found no
   * valuation on run i; with no slot every result is empty, since its agenda is `{}`.
   */
  lemma EmptyResults(c: Config, solve: Solver, results: seq<Option<Agenda>>, models: seq<Model>)
    requires SolvedRuns(c, solve, results, models)
    ensures c.numSessions >= 1 ==> forall i :: 0 <= i < |results| ==> (Falsy(results[i]) <==> solve(i, models[i]).None?)
    ensures c.numSessions <= 0 ==> forall i :: 0 <= i < |results| ==> Falsy(results[i])
  {
    forall i | 0 <= i < |results| && solve(i, models[i]).Some?
      ensures c.numSessions >= 1 ==> !Falsy(results[i])
      ensures c.numSessions <= 0 ==> Falsy(results[i])
    {
      var v := solve(i, models[i]).value;
      if c.numSessions >= 1 {
        AgendaNotEmpty(c, v);
      } else {
        assert AgendaOf(c, v).Keys == {};
      }
    }
  }

  /** The kept solution is one of the results, so it is a valid agenda when they all are. */
  lemma BestAmongResults(c: Config, results: seq<Option<Agenda>>, previous: Option<Agenda>,
                         best: Option<Agenda>, minChanges: Option<nat>, index: nat)
    requires forall i :: 0 <= i < |results| && results[i].Some? ==> AgendaOfValid(c, results[i].value)
    requires BestChoice(results, previous, best, minChanges, index)
    ensures best.Some? ==> AgendaOfValid(c, best.value)
  {
    if best.Some? {
      assert results[index] == best;
    }
  }

  /**
   * What the choice of lines 201-212 means for the runs: with at least one slot there is
   * no best exactly when the solver failed on every run; with no slot every agenda is `{}`
   * and there is no best; and the single run made without a previous agenda is kept
   * unless it is empty.
   */
  lemma SelectionOutcome(c: Config, solve: Solver, results: seq<Option<Agenda>>, models: seq<Model>,
                         previous: Option<Agenda>, best: Option<Agenda>, minChanges: Option<nat>, index: nat)
    requires SolvedRuns(c, solve, results, models)
    requires BestChoice(results, previous, best, minChanges, index)
    requires Falsy(previous) ==> |results| == 1
    ensures c.numSessions >= 1 ==> (best.None? <==> forall i :: 0 <= i < |results| ==> solve(i, models[i]).None?)
    ensures c.numSessions <= 0 ==> best == None
    ensures Falsy(previous) ==> best == (if Falsy(results[0]) then None else results[0])
  {
    EmptyResults(c, solve, results, models);
    assert best.None? <==> forall i :: 0 <= i < |results| ==> Falsy(results[i]);
    if Falsy(previous) {
      if best.Some? {
        assert index == 0 && best == results[0] && !Falsy(results[0]);
      } else {
        assert Falsy(results[0]);
      }
    }
  }

  /**
   * `schedule_sessions` (lines 189-212): runs the single-solution scheduler the required
   * number of times and keeps the first solution with the fewest changes against the
   * previous agenda. `results` are the solutions of the iterations in order, and
   * `models[i]` is the model solved on iteration i, with seed i. The defaults are those
   * of line 189.
   */
  method ScheduleSessions(c: Config, solve: Solver, previous: Option<Agenda> := None, numIterations: int := 100)
    returns (best: Option<Agenda>, minChanges: Option<nat>, results: seq<Option<Agenda>>, index: nat,
             ghost models: seq<Model>)
    requires WellFormed(c) && SoundSolver(solve)
    ensures |results| == Iterations(previous, numIterations) && RunsAs(c, solve, results, models)
    ensures BestChoice(results, previous, best, minChanges, index)
    ensures best.Some? ==> AgendaOfValid(c, best.value)
    ensures c.numSessions >= 1 ==> (best.None? <==> forall i :: 0 <= i < |results| ==> solve(i, models[i]).None?)
    ensures c.numSessions <= 0 ==> best == None
    ensures Falsy(previous) ==> |results| == 1 && best == (if Falsy(results[0]) then None else results[0])
  {
    var n := if Falsy(previous) then 1 else if numIterations < 0 then 0 else numIterations;
    results, models := SolveRepeatedly(c, solve, n);
    best, minChanges, index := SelectBest(results, previous);
    SelectionOutcome(c, solve, results, models, previous, best, minChanges, index);
    BestAmongResults(c, results, previous, best, minChanges, index);
  }
}
