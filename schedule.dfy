/**
 * The driver loop of `main`: five runs over the same graph and paths, run `i` scoring
 * with perturbation factor 5 * (i + 1), each ending with one selected path index.
 *
 * The histogram each run samples from its circuit comes from the quantum simulator and
 * enters here as an input, one per run.
 */
module Schedule {
  import opened Common
  import opened StreetGraph
  import opened PathScore
  import opened Selector

  const RUNS: nat := 5

  /** `perturbation_factor=5 * (i + 1)` for run `i`. */
  function PerturbationFactor(run: nat): (f: nat)
    ensures f > 0
  {
    5 * (run + 1)
  }

  /** The five runs perturb by 5, 10, 15, 20 and 25. */
  lemma FactorsOfTheRuns()
    ensures forall run :: 0 <= run < RUNS ==> PerturbationFactor(run) == [5, 10, 15, 20, 25][run]
  {
  }

  /** A later run perturbs strictly more than an earlier one. */
  lemma FactorIncreasing(a: nat, b: nat)
    requires a < b
    ensures 0 < PerturbationFactor(a) < PerturbationFactor(b)
  {
  }

  /** What one run hands to the drawing code: its rotations and the index of the highlighted path. */
  datatype Run = Run(rotations: seq<Rotation>, selected: nat)

  /** One draw sequence per path, each as long as its path has streets. */
  predicate DrawsFit(paths: seq<Path>, draws: seq<seq<real>>) {
    |draws| == |paths| && forall i :: 0 <= i < |paths| ==> |draws[i]| == EdgeCount(paths[i])
  }

  /** Every path of the run scores without error. */
  predicate Scores(w: WeightTable, paths: seq<Path>, draws: seq<seq<real>>)
    requires DrawsFit(paths, draws)
  {
    forall i :: 0 <= i < |paths| ==> Score(w, paths[i], draws[i]).Ok?
  }

  /**
   * `run` is what one iteration of the loop of `main` computes from its draws and its
   * histogram: a rotation on qubit `i` by the score of path `i`, and the selected index.
   */
  predicate RunOf(w: WeightTable, paths: seq<Path>, draws: seq<seq<real>>, h: Histogram, run: Run)
    requires DrawsFit(paths, draws)
  {
    && Scores(w, paths, draws)
    && |run.rotations| == |paths|
    && (forall i :: 0 <= i < |paths| ==> run.rotations[i] == Rz(i, Score(w, paths[i], draws[i]).value))
    && Select(h, |paths|) == Ok(run.selected)
  }

  /** A run's selected index is a valid position in the path list, so `paths[selected_path_index]` succeeds. */
  lemma RunSelectsAPath(w: WeightTable, paths: seq<Path>, draws: seq<seq<real>>, h: Histogram, run: Run)
    requires DrawsFit(paths, draws)
    requires RunOf(w, paths, draws, h, run)
    ensures run.selected < |paths|
    ensures |h| > 0
  {
  }

  /**
   * With the draws of a run in [-p, p], the rotation angle of each path is within
   * p times its number of streets of the path's exact weight.
   */
  lemma RunAngleBounds(w: WeightTable, paths: seq<Path>, draws: seq<seq<real>>, h: Histogram, run: Run, i: nat, p: real)
    requires DrawsFit(paths, draws)
    requires RunOf(w, paths, draws, h, run)
    requires i < |paths|
    requires Bounded(draws[i], p)
    ensures PathWeight(w, paths[i]).Ok?
    ensures Within(run.rotations[i].angle, PathWeight(w, paths[i]).value as real, p * EdgeCount(paths[i]) as real)
  {
    ScoreDefined(w, paths[i], draws[i]);
    ScoreBounds(w, paths[i], draws[i], p);
  }

  /**
   * Every path of `run` whose draws lie in [-p, p] has a rotation angle within p times its
   * number of streets of the path's exact weight.
   */
  predicate AnglesWithin(w: WeightTable, paths: seq<Path>, draws: seq<seq<real>>, run: Run, p: real)
    requires DrawsFit(paths, draws)
  {
    && |run.rotations| == |paths|
    && forall i :: 0 <= i < |paths| && Bounded(draws[i], p) ==>
      && PathWeight(w, paths[i]).Ok?
      && Within(run.rotations[i].angle, PathWeight(w, paths[i]).value as real, p * EdgeCount(paths[i]) as real)
  }

  /** A run keeps the angle of each path whose draws lie in [-p, p] within the bound. */
  lemma RunAngles(w: WeightTable, paths: seq<Path>, draws: seq<seq<real>>, h: Histogram, run: Run, p: real)
    requires DrawsFit(paths, draws)
    requires RunOf(w, paths, draws, h, run)
    ensures AnglesWithin(w, paths, draws, run, p)
  {
    forall i | 0 <= i < |paths| && Bounded(draws[i], p)
      ensures PathWeight(w, paths[i]).Ok?
      ensures Within(run.rotations[i].angle, PathWeight(w, paths[i]).value as real, p * EdgeCount(paths[i]) as real)
    {
      RunAngleBounds(w, paths, draws, h, run, i, p);
    }
  }

  /**
   * Run `q` is the first run to raise, and it raises `e`. Every earlier run scores all paths
   * and selects. Within run `q`, either the first path that does not score raises `e` in
   * `create_circuit`, or every path scores and `run_circuit` raises `e`.
   */
  predicate FirstFailure(w: WeightTable, paths: seq<Path>, draws: seq<seq<seq<real>>>, histograms: seq<Histogram>, q: nat, e: Error)
    requires |draws| == RUNS && |histograms| == RUNS
    requires forall q :: 0 <= q < RUNS ==> DrawsFit(paths, draws[q])
  {
    && q < RUNS
    && DrawsFit(paths, draws[q])
    && (forall s :: 0 <= s < q ==> Scores(w, paths, draws[s]) && Select(histograms[s], |paths|).Ok?)
    && (|| (exists i :: 0 <= i < |paths| && Score(w, paths[i], draws[q][i]) == Err(e) &&
              forall j :: 0 <= j < i ==> Score(w, paths[j], draws[q][j]).Ok?)
        || (Scores(w, paths, draws[q]) && Select(histograms[q], |paths|) == Err(e)))
  }

  /**
   * The loop of `main` without the drawing: run `q` builds its rotations from `draws[q]`
   * and selects from `histograms[q]`; the first run that raises stops the loop.
   */
  method RunSchedule(g: Graph, paths: seq<Path>, draws: seq<seq<seq<real>>>, histograms: seq<Histogram>)
    returns (r: Result<seq<Run>>)
    requires |draws| == RUNS && |histograms| == RUNS
    requires forall q :: 0 <= q < RUNS ==> DrawsFit(paths, draws[q])
    ensures r.Ok? <==> |paths| > 0 && forall q :: 0 <= q < RUNS ==> Scores(g.weights, paths, draws[q]) && |histograms[q]| > 0
    ensures r.Ok? ==> |r.value| == RUNS
    ensures r.Ok? ==> forall q :: 0 <= q < RUNS ==> RunOf(g.weights, paths, draws[q], histograms[q], r.value[q])
    ensures r.Err? ==> exists q: nat :: FirstFailure(g.weights, paths, draws, histograms, q, r.error)
    ensures r.Ok? ==> forall q :: 0 <= q < RUNS ==> AnglesWithin(g.weights, paths, draws[q], r.value[q], PerturbationFactor(q) as real)
  {
    var runs: seq<Run> := [];
    for q := 0 to RUNS
      invariant |runs| == q
      invariant |paths| > 0 || q == 0
      invariant forall s :: 0 <= s < q ==> |histograms[s]| > 0 && RunOf(g.weights, paths, draws[s], histograms[s], runs[s])
    {
      var circuit := CreateCircuit(g, paths, draws[q]);
      if circuit.Err? {
        assert FirstFailure(g.weights, paths, draws, histograms, q, circuit.error);
        return Err(circuit.error);
      }
      var selected := Select(histograms[q], |paths|);
      if selected.Err? {
        assert FirstFailure(g.weights, paths, draws, histograms, q, selected.error);
        return Err(selected.error);
      }
      runs := runs + [Run(circuit.value, selected.value)];
    }
    forall q | 0 <= q < RUNS
      ensures AnglesWithin(g.weights, paths, draws[q], runs[q], PerturbationFactor(q) as real)
    {
      RunAngles(g.weights, paths, draws[q], histograms[q], runs[q], PerturbationFactor(q) as real);
    }
    return Ok(runs);
  }

  /**
   * On the paths the enumerator yields (simple, N1 to N20, along streets) no run fails
   * while scoring, so with at least one path and non-empty histograms every run selects.
   */
  lemma EnumeratedPathsScore(w: WeightTable, paths: seq<Path>, draws: seq<seq<real>>)
    requires DrawsFit(paths, draws)
    requires forall i :: 0 <= i < |paths| ==> SimplePath(w, paths[i], N(1), N(20))
    ensures Scores(w, paths, draws)
  {
    forall i | 0 <= i < |paths| ensures Score(w, paths[i], draws[i]).Ok? {
      ScoreDefined(w, paths[i], draws[i]);
    }
  }
}
