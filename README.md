# CIRQMaps route selection, modelled in Dafny

CIRQMaps picks one route from N1 to N20 in a fixed street graph. Each candidate route gets
its own qubit. The route's perturbed cumulative weight becomes a Z-rotation angle on that
qubit. The circuit is measured 100 times, and the least frequent outcome, taken modulo the
number of routes, is the selected route. `main` does this five times, with growing
perturbation.

This project models everything around the quantum step:

- `common.dfy` (module `Common`): intersections, `Option`/`Result`, and the exceptions a run can raise.
- `street_graph.dfy` (module `StreetGraph`): the street table and the undirected graph built
  from it. `Graph` is a class whose `AddNode`/`AddEdge` update its node list and weight map in
  place. `CreateGraph` runs the two loops of `create_graph`. Weights are keyed by unordered
  pair, so lookup is symmetric.
- `path_score.dfy` (module `PathScore`): the per-path score of `create_circuit`. Each
  `random.uniform(-p, p)` draw is replaced by an injected `real`, one per street of the path.
  There is also an exact weight sum to compare against, and the loop that gives path `i` an
  `rz` rotation on qubit `i`.
- `selector.dfy` (module `Selector`): `min(frequencies, key=frequencies.get) % num_paths`.
  The histogram is a sequence of `(outcome, count)` entries in the Counter's iteration order.
- `schedule.dfy` (module `Schedule`): the five runs of `main`, with perturbation factor
  `5 * (i + 1)`. Each run's histogram is an input.

Intersection `N<i>` is the value `N(i)`. Errors follow the code:
- A pair of consecutive intersections that is not a street is `NoEdge`. In the code this is the `KeyError` from `graph[u][v]`.
- An empty histogram is `EmptyHistogram`. In the code this is the `ValueError` from `min`.
- The model reports zero paths as `NoPaths`, at the `% 0` of `run_circuit`.

The empty-histogram check comes first, because `min` is evaluated before the modulo.

Behaviours of the code the model keeps:
- Tie-break: when several outcomes share the least count, the first one in the histogram's
  iteration order wins. CPython's `min` replaces its candidate only on a strictly smaller key.
- Zero paths: the model reports the error at `% num_paths` in `run_circuit`. What cirq does
  earlier, when `create_circuit` measures an empty qubit list (main.py:49), is not modelled.
- Weight checks: `add_edge` does not check that the weight is positive. Positivity is proved
  about the table the script uses, not enforced by `AddEdge`.
- Missing street: a lookup miss is the dictionary `KeyError` of `graph[u][v]`. There is no
  separate not-found operation.

## Model

| member | source | states |
|---|---|---|
| `StreetGraph.Key` | main.py:29-30 | the storage key of a street is the same unordered pair of the two endpoints, smaller index first, whichever way round they are named |
| `StreetGraph.Weight` | main.py:45 | `graph[u][v]['weight']` succeeds exactly when the pair `{u, v}` is a street, and then yields that street's weight |
| `StreetGraph.WeightSymmetric` | main.py:29-30 | in the undirected graph the weight of `(u, v)` equals the weight of `(v, u)` for every pair |
| `StreetGraph.Intersections` | main.py:12-13 | the node loop adds exactly twenty intersections N1..N20, in that order |
| `StreetGraph.IntersectionsDistinct` | main.py:12-13 | the twenty intersections are pairwise distinct, and a node is one of them exactly when its number is in 1..20 |
| `StreetGraph.Extend` | main.py:13 | a node list extended by `n` holds `n` and otherwise exactly the nodes it held before |
| `StreetGraph.Graph.constructor` | main.py:9 | `nx.Graph()` starts with no nodes and no streets |
| `StreetGraph.Graph.AddNode` | main.py:13 | `add_node` appends a node it does not yet have, leaves a present node in place, and does not change any street |
| `StreetGraph.Graph.AddEdge` | main.py:30 | `add_edge` adds the endpoints it is missing (first `u`, then `v`) and sets the weight of the unordered pair, replacing any earlier one |
| `StreetGraph.CreateGraph` | main.py:8-32 | `create_graph` yields a fresh valid graph whose nodes are exactly N1..N20 and whose weights are those the street table assigns, row by row |
| `StreetGraph.TableMap` | main.py:29-30 | every pair the edge loop stores is an unordered pair written with its smaller endpoint first |
| `StreetGraph.TableMapKeys` | main.py:29-30 | after the edge loop, a pair is a street exactly when some row of the table names it |
| `StreetGraph.TableMapValue` | main.py:29-30 | when no pair is listed twice, each row's weight is the weight stored for its pair |
| `StreetGraph.TableMapWeights` | main.py:29-30 | every stored weight is the weight of some row naming that pair |
| `StreetGraph.TableMapSize` | main.py:29-30 | when no pair is listed twice, the graph holds as many streets as the table has rows |
| `StreetGraph.StreetRows` | main.py:16-27 | every row joins two different intersections among N1..N20, names the lower-numbered one first, and has a positive weight |
| `StreetGraph.StreetKeysDistinct` | main.py:16-27 | no two rows of the table name the same unordered pair |
| `StreetGraph.StreetCount` | main.py:16-30 | the constructed graph has exactly 30 distinct undirected streets |
| `StreetGraph.StreetsWellFormed` | main.py:12-30 | every street of the constructed graph has a positive weight and joins two different intersections of N1..N20 |
| `StreetGraph.StreetLookup` | main.py:29-30 | each row of the table is found in the graph with its own weight, under either order of its endpoints |
| `PathScore.EdgeCount` | main.py:45 | `zip(path[:-1], path[1:])` yields one pair fewer than the path has nodes, and none for an empty path |
| `PathScore.PathWeight` | main.py:45 | the exact weight sum along a path succeeds exactly when every consecutive pair of the path is a street |
| `PathScore.PathWeightGap` | main.py:45 | when the exact weight sum fails, it fails with the `KeyError` of the first consecutive pair that is not a street |
| `PathScore.SimplePath` | main.py:93 | a path the enumerator yields walks streets only, so its exact weight sum succeeds |
| `PathScore.Score` | main.py:45 | the perturbed score is the exact weight of the path plus the sum of its draws, and it fails with the same error as the exact weight sum |
| `PathScore.SumZero` | main.py:45 | draws that are all 0 add nothing |
| `PathScore.SumBounds` | main.py:45 | draws that each lie in `[-p, p]` sum to within `p` times their number of 0 |
| `PathScore.SingleNodeScore` | main.py:45 | a one-node path has an empty `zip`, so it scores 0 and has weight 0 |
| `PathScore.ScoreDefined` | main.py:45 | the score raises exactly when some consecutive pair is not a street, and then with the `KeyError` of the first such pair |
| `PathScore.ZeroPerturbation` | main.py:45 | with every draw 0, the score is the exact sum of street weights along the path, and it fails exactly when that sum fails |
| `PathScore.ScoreBounds` | main.py:45 | with every draw in `[-p, p]`, the score lies within `p*(len-1)` of the exact weight of the path |
| `PathScore.RouteWeights` | main.py:16-27 | the streets N1-N2, N2-N4, N4-N19 and N19-N20 have weights 30, 20, 30 and 60 in the built graph |
| `PathScore.ExampleRoute` | main.py:16-27 | N1, N2, N4, N19, N20 is a simple path from N1 to N20 along streets of the graph, with exact weight 140 |
| `PathScore.CreateCircuit` | main.py:44-46 | one rotation per path, in path order; rotation `i` acts on qubit `i` with the score of `paths[i]` computed from its own draws; it fails exactly when some path fails to score, with the first failing path's error |
| `Selector.FirstMinIndex` | main.py:60 | `min(..., key=frequencies.get)` lands on an entry whose count is no greater than any other, and every earlier entry has a strictly greater count |
| `Selector.FirstMinUnique` | main.py:60 | the first least entry is determined uniquely by the histogram |
| `Selector.Select` | main.py:60 | empty histogram raises (from `min`), zero paths raises (from `% 0`), otherwise it always succeeds, with the first least-count outcome modulo `num_paths`, always in `[0, num_paths)` |
| `Selector.SelectSinglePath` | main.py:60 | with one path, any non-empty histogram selects index 0 |
| `Selector.SelectedOutcomeIsLeast` | main.py:57-60 | for a well-formed histogram, the selected index comes from an outcome observed at least once, whose count is no greater than any count observed, and which no other entry with that count precedes |
| `Schedule.PerturbationFactor` | main.py:103 | the perturbation factor of every run is positive |
| `Schedule.FactorsOfTheRuns` | main.py:101-103 | the five runs use perturbation factors 5, 10, 15, 20 and 25 |
| `Schedule.FactorIncreasing` | main.py:101-103 | the perturbation factor is positive and strictly increasing with the run number |
| `Schedule.RunSelectsAPath` | main.py:76 | a completed run's selected index is within the path list, so `paths[selected_path_index]` is a valid access |
| `Schedule.RunAngleBounds` | main.py:101-106 | with a run's draws for path `i` in `[-p, p]`, the rotation angle of path `i` lies within `p` times its street count of the path's exact weight |
| `Schedule.RunAngles` | main.py:101-106 | in a run, every path whose draws lie in `[-p, p]` walks streets only and gets an angle within `p` times its street count of its exact weight |
| `Schedule.RunSchedule` | main.py:101-109 | the loop completes exactly when there is at least one path, every path scores and every histogram is non-empty; each of the five runs then holds the rotations of its own draws and the selection of its own histogram. When the loop stops, it stops with the exception of the first raising run: the `KeyError` of that run's first path that does not score, or failing that, the error `run_circuit` raises. On success, in run `q` every path whose draws lie in `[-5(q+1), 5(q+1)]` has an angle within `5(q+1)` times its street count of its exact weight |
| `Schedule.EnumeratedPathsScore` | main.py:93 | paths that are simple routes from N1 to N20 along streets always score without error |

## Left out

- Circuit construction and simulation in cirq (`H.on_each`, `measure`, `Simulator.run`, `histogram`, main.py:37-57) are left out. This is a foreign library with probabilistic complex-amplitude semantics. Each run's histogram is an input to `RunSchedule`, and the model makes no claim about how `rz` biases measurement.
- What cirq does when asked to measure zero qubits (main.py:49) is not modelled. With no paths, the model fails in the selector at `% 0`, the latest point at which the code can fail.
- `random.uniform(-p, p)` is replaced by injected draws, one per street, which the lemmas assume lie in `[-p, p]`. Floating-point rounding is not modelled: scores are exact reals.
- `nx.all_simple_paths` (main.py:93) is not modelled. Its output is an input, described by the predicate `SimplePath`. Enumeration order and completeness are not modelled.
- `plot_graph`, `nx.spring_layout`, matplotlib drawing, `plt.savefig`, `print`, the colour list and `os.makedirs` (main.py:64-82, 87, 96, 99, 109) are rendering and file I/O, and are left out. Only the `paths[selected_path_index]` access is kept, as `RunSelectsAPath`.
- An intersection is modelled by its number, `N(i)`. The label string `'N' + str(i)` is not built.
- Python's `%` is modelled for non-negative outcomes and a positive number of paths. There it agrees with Dafny's `%`, and measurement outcomes are never negative.
