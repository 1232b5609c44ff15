/**
 * Scoring a candidate path (the `total_weight` expression of `create_circuit`) and the
 * loop that turns every path into one Z-rotation on its own qubit.
 *
 * `random.uniform(-p, p)` is replaced by an injected sequence of draws, one per street of
 * the path, in the order the path walks them.
 */
module PathScore {
  import opened Common
  import opened StreetGraph

  type Path = seq<Node>

  /** Number of consecutive pairs `zip(path[:-1], path[1:])` yields. */
  function EdgeCount(path: Path): (n: nat)
    ensures n + 1 == |path| || (path == [] && n == 0)
  {
    if path == [] then 0 else |path| - 1
  }

  /** Every consecutive pair of the path is a street of `w`. */
  predicate OnStreets(w: WeightTable, path: Path) {
    forall k :: 0 <= k < |path| - 1 ==> Key(path[k], path[k + 1]) in w
  }

  /** Pair `k` of the path is the first consecutive pair that is not a street of `w`. */
  predicate FirstGap(w: WeightTable, path: Path, k: nat) {
    && k < |path| - 1
    && Key(path[k], path[k + 1]) !in w
    && forall j :: 0 <= j < k ==> Key(path[j], path[j + 1]) in w
  }

  /** A path walks the streets exactly when its first pair does and the rest of it does. */
  lemma OnStreetsTail(w: WeightTable, path: Path)
    requires |path| > 1
    ensures OnStreets(w, path) <==> Key(path[0], path[1]) in w && OnStreets(w, path[1..])
  {
    if OnStreets(w, path) {
      forall k | 0 <= k < |path[1..]| - 1 ensures Key(path[1..][k], path[1..][k + 1]) in w {
        assert path[1..][k] == path[k + 1] && path[1..][k + 1] == path[k + 2];
      }
    }
    if Key(path[0], path[1]) in w && OnStreets(w, path[1..]) {
      forall k | 1 <= k < |path| - 1 ensures Key(path[k], path[k + 1]) in w {
        assert path[1..][k - 1] == path[k] && path[1..][k] == path[k + 1];
      }
    }
  }

  /** The first gap of the rest of a path, behind a first pair that is a street, is the first gap of the path. */
  lemma FirstGapTail(w: WeightTable, path: Path, k: nat)
    requires |path| > 1 && Key(path[0], path[1]) in w
    requires FirstGap(w, path[1..], k)
    ensures FirstGap(w, path, k + 1)
    ensures path[1..][k] == path[k + 1] && path[1..][k + 1] == path[k + 2]
  {
    forall j | 1 <= j < k + 1 ensures Key(path[j], path[j + 1]) in w {
      assert path[1..][j - 1] == path[j] && path[1..][j] == path[j + 1];
    }
  }

  /** Reference: the exact sum of street weights along the path, or the first pair that is not a street. */
  function PathWeight(w: WeightTable, path: Path): (r: Result<int>)
    ensures r.Ok? <==> OnStreets(w, path)
  {
    if |path| <= 1 then Ok(0)
    else
      OnStreetsTail(w, path);
      match Weight(w, path[0], path[1])
      case None => Err(NoEdge(path[0], path[1]))
      case Some(x) =>
        match PathWeight(w, path[1..])
        case Err(e) => Err(e)
        case Ok(rest) => Ok(x + rest)
  }

  /** When the weight sum fails, it fails with the `KeyError` of the first consecutive pair that is not a street. */
  lemma {:induction false} PathWeightGap(w: WeightTable, path: Path)
    requires PathWeight(w, path).Err?
    ensures exists k: nat :: FirstGap(w, path, k) && PathWeight(w, path).error == NoEdge(path[k], path[k + 1])
  {
    if Key(path[0], path[1]) !in w {
      assert FirstGap(w, path, 0);
    } else {
      PathWeightGap(w, path[1..]);
      var k: nat :| FirstGap(w, path[1..], k) && PathWeight(w, path[1..]).error == NoEdge(path[1..][k], path[1..][k + 1]);
      FirstGapTail(w, path, k);
    }
  }

  /** What the enumerator of simple paths yields: from `src` to `dst`, along streets, no intersection twice. */
  predicate SimplePath(w: WeightTable, path: Path, src: Node, dst: Node): (b: bool)
    ensures b ==> PathWeight(w, path).Ok?
  {
    && |path| >= 1
    && path[0] == src
    && path[|path| - 1] == dst
    && OnStreets(w, path)
    && Distinct(path)
  }

  /** The sum of a sequence of draws. */
  function Sum(s: seq<real>): real {
    if s == [] then 0.0 else s[0] + Sum(s[1..])
  }

  /**
   * `sum(graph[u][v]['weight'] + random.uniform(-p, p) for u, v in zip(path[:-1], path[1:]))`
   * with `draws[k]` the k-th value `random.uniform` returns: the exact weight of the path
   * plus the sum of its draws. A pair that is not a street stops the sum with the error
   * `graph[u][v]` raises there.
   */
  function Score(w: WeightTable, path: Path, draws: seq<real>): (r: Result<real>)
    requires |draws| == EdgeCount(path)
    ensures PathWeight(w, path).Ok? ==> r == Ok(PathWeight(w, path).value as real + Sum(draws))
    ensures PathWeight(w, path).Err? ==> r == Err(PathWeight(w, path).error)
  {
    if |path| <= 1 then Ok(0.0)
    else match Weight(w, path[0], path[1])
      case None => Err(NoEdge(path[0], path[1]))
      case Some(x) =>
        match Score(w, path[1..], draws[1..])
        case Err(e) => Err(e)
        case Ok(rest) => Ok(x as real + draws[0] + rest)
  }

  /** A single-node path walks no street and scores 0. */
  lemma SingleNodeScore(w: WeightTable, n: Node)
    ensures Score(w, [n], []) == Ok(0.0)
    ensures PathWeight(w, [n]) == Ok(0)
  {
  }

  /**
   * The score fails exactly when the path leaves the streets, and then with the
   * `KeyError` of the first consecutive pair that is not a street.
   */
  lemma ScoreDefined(w: WeightTable, path: Path, draws: seq<real>)
    requires |draws| == EdgeCount(path)
    ensures Score(w, path, draws).Ok? <==> OnStreets(w, path)
    ensures Score(w, path, draws).Err? ==>
      exists k: nat :: FirstGap(w, path, k) && Score(w, path, draws).error == NoEdge(path[k], path[k + 1])
  {
    if Score(w, path, draws).Err? {
      PathWeightGap(w, path);
    }
  }

  /** Draws that are all 0 sum to 0. */
  lemma {:induction false} SumZero(s: seq<real>)
    requires forall k :: 0 <= k < |s| ==> s[k] == 0.0
    ensures Sum(s) == 0.0
  {
    if s != [] {
      SumZero(s[1..]);
    }
  }

  /** With every draw 0 the score is the exact sum of street weights. */
  lemma ZeroPerturbation(w: WeightTable, path: Path, draws: seq<real>)
    requires |draws| == EdgeCount(path)
    requires forall k :: 0 <= k < |draws| ==> draws[k] == 0.0
    ensures PathWeight(w, path).Ok? ==> Score(w, path, draws) == Ok(PathWeight(w, path).value as real)
    ensures PathWeight(w, path).Err? ==> Score(w, path, draws) == Err(PathWeight(w, path).error)
  {
    SumZero(draws);
  }

  /** Every draw lies in [-p, p]. */
  predicate Bounded(draws: seq<real>, p: real) {
    forall k :: 0 <= k < |draws| ==> -p <= draws[k] <= p
  }

  /** Draws that each lie in [-p, p] sum to within p times their number of 0. */
  lemma {:induction false} SumBounds(s: seq<real>, p: real)
    requires Bounded(s, p)
    ensures Within(Sum(s), 0.0, p * |s| as real)
  {
    if s != [] {
      assert Bounded(s[1..], p) by {
        forall k | 0 <= k < |s[1..]| ensures -p <= s[1..][k] <= p {
          assert s[1..][k] == s[k + 1];
        }
      }
      SumBounds(s[1..], p);
      var n := |s[1..]| as real;
      assert |s| as real == n + 1.0;
      assert p * (n + 1.0) == p * n + p;
    }
  }

  /** `x` lies in `[center - radius, center + radius]`. */
  predicate Within(x: real, center: real, radius: real) {
    center - radius <= x <= center + radius
  }

  /**
   * With every draw in [-p, p] the score is within p times the number of streets
   * of the exact weight sum.
   */
  lemma ScoreBounds(w: WeightTable, path: Path, draws: seq<real>, p: real)
    requires |draws| == EdgeCount(path)
    requires Bounded(draws, p)
    requires PathWeight(w, path).Ok?
    ensures Score(w, path, draws).Ok?
    ensures Within(Score(w, path, draws).value, PathWeight(w, path).value as real, p * EdgeCount(path) as real)
  {
    var sum, d, radius := PathWeight(w, path).value as real, Sum(draws), p * EdgeCount(path) as real;
    assert Within(d, 0.0, radius) by {
      SumBounds(draws, p);
    }
    assert Score(w, path, draws).value == sum + d;
  }

  /** The four streets of the example route below, as the street graph stores them. */
  lemma RouteWeights(w: WeightTable)
    requires w == TableMap(STREETS)
    ensures Weight(w, N(1), N(2)) == Some(30)
    ensures Weight(w, N(2), N(4)) == Some(20)
    ensures Weight(w, N(4), N(19)) == Some(30)
    ensures Weight(w, N(19), N(20)) == Some(60)
  {
    StreetLookup(0);
    StreetLookup(2);
    StreetLookup(28);
    StreetLookup(22);
  }

  /**
   * One of the routes from N1 to N20 in the street graph: N1, N2, N4, N19, N20 is a simple
   * path along streets of weight 30, 20, 30 and 60.
   */
  lemma ExampleRoute()
    ensures SimplePath(TableMap(STREETS), [N(1), N(2), N(4), N(19), N(20)], N(1), N(20))
    ensures PathWeight(TableMap(STREETS), [N(1), N(2), N(4), N(19), N(20)]) == Ok(140)
  {
    var w, path := TableMap(STREETS), [N(1), N(2), N(4), N(19), N(20)];
    RouteWeights(w);
    assert path[1..] == [N(2), N(4), N(19), N(20)];
    assert path[1..][1..] == [N(4), N(19), N(20)];
    assert path[1..][1..][1..] == [N(19), N(20)];
    assert PathWeight(w, [N(19), N(20)]) == Ok(60);
    assert PathWeight(w, [N(4), N(19), N(20)]) == Ok(90);
    assert PathWeight(w, [N(2), N(4), N(19), N(20)]) == Ok(110);
  }

  /** `cirq.rz(angle).on(qubits[qubit])`. */
  datatype Rotation = Rz(qubit: nat, angle: real)

  /**
   * The loop of `create_circuit` that appends one rotation per path: the rotation for
   * path `i` acts on qubit `i` and its angle is the score of `paths[i]` with its own draws.
   * The first path that leaves the streets stops the loop with its error.
   */
  method CreateCircuit(g: StreetGraph.Graph, paths: seq<Path>, draws: seq<seq<real>>) returns (r: Result<seq<Rotation>>)
    requires |draws| == |paths|
    requires forall i :: 0 <= i < |paths| ==> |draws[i]| == EdgeCount(paths[i])
    ensures r.Ok? <==> forall i :: 0 <= i < |paths| ==> Score(g.weights, paths[i], draws[i]).Ok?
    ensures r.Ok? ==> |r.value| == |paths|
    ensures r.Ok? ==> forall i :: 0 <= i < |paths| ==>
      r.value[i] == Rz(i, Score(g.weights, paths[i], draws[i]).value)
    ensures r.Err? ==> exists i :: 0 <= i < |paths| && Score(g.weights, paths[i], draws[i]) == Err(r.error) &&
                                   (forall j :: 0 <= j < i ==> Score(g.weights, paths[j], draws[j]).Ok?)
  {
    var rotations: seq<Rotation> := [];
    for i := 0 to |paths|
      invariant |rotations| == i
      invariant forall j :: 0 <= j < i ==> Score(g.weights, paths[j], draws[j]).Ok?
      invariant forall j :: 0 <= j < i ==> rotations[j] == Rz(j, Score(g.weights, paths[j], draws[j]).value)
    {
      var total := Score(g.weights, paths[i], draws[i]);
      if total.Err? {
        return Err(total.error);
      }
      rotations := rotations + [Rz(i, total.value)];
    }
    return Ok(rotations);
  }
}
