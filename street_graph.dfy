/**
 * The fixed street graph of `create_graph`: twenty intersections N1..N20 and a
 * table of thirty weighted streets, stored as an undirected graph.
 */
module StreetGraph {
  import opened Common

  /** An unordered pair of intersections, kept with the smaller index first. */
  datatype Pair = Pair(lo: Node, hi: Node)

  /** One row of the street table: two endpoints and a travel cost. */
  datatype Street = Street(u: Node, v: Node, weight: int)

  /** Edge weights of an undirected graph, keyed by unordered pair. */
  type WeightTable = map<Pair, int>

  predicate Normal(p: Pair) {
    p.lo.i <= p.hi.i
  }

  /** The key under which the street between `u` and `v` is stored, whichever way round it is named. */
  function Key(u: Node, v: Node): (p: Pair)
    ensures Normal(p)
    ensures (p.lo == u && p.hi == v) || (p.lo == v && p.hi == u)
  {
    if u.i <= v.i then Pair(u, v) else Pair(v, u)
  }

  function KeyOf(s: Street): Pair {
    Key(s.u, s.v)
  }

  /** The weight of the street between `u` and `v`; None where `graph[u][v]` raises KeyError. */
  function Weight(w: WeightTable, u: Node, v: Node): (r: Option<int>)
    ensures r.Some? <==> Key(u, v) in w
    ensures r.Some? ==> r.value == w[Key(u, v)]
  {
    if Key(u, v) in w then Some(w[Key(u, v)]) else None
  }

  /** Lookup does not depend on the order in which the endpoints are named. */
  lemma WeightSymmetric(w: WeightTable, u: Node, v: Node)
    ensures Weight(w, u, v) == Weight(w, v, u)
  {
  }

  /** The street table of `create_graph`, in the order in which it adds the streets. */
  const STREETS: seq<Street> := [
    Street(N(1), N(2), 30), Street(N(1), N(3), 25), Street(N(2), N(4), 20),
    Street(N(2), N(5), 35), Street(N(3), N(6), 40), Street(N(3), N(7), 50),
    Street(N(4), N(8), 45), Street(N(4), N(9), 30), Street(N(5), N(10), 60),
    Street(N(6), N(11), 55), Street(N(7), N(12), 70), Street(N(8), N(13), 50),
    Street(N(9), N(14), 45), Street(N(10), N(15), 40), Street(N(11), N(16), 35),
    Street(N(12), N(17), 25), Street(N(13), N(18), 20), Street(N(14), N(19), 50),
    Street(N(15), N(20), 45), Street(N(16), N(18), 30), Street(N(17), N(19), 35),
    Street(N(18), N(20), 40), Street(N(19), N(20), 60), Street(N(1), N(10), 55),
    Street(N(5), N(15), 50), Street(N(3), N(12), 60), Street(N(2), N(11), 45),
    Street(N(6), N(14), 35), Street(N(4), N(19), 30), Street(N(8), N(16), 40)
  ]

  /** The intersections N1..N20 in the order `create_graph` adds them. */
  function Intersections(): (s: seq<Node>)
    ensures |s| == 20
  {
    seq(20, (j: nat) => N(j + 1))
  }

  /** `s` with `n` appended unless it is already there: how a graph records a node it is given. */
  function Extend(s: seq<Node>, n: Node): (r: seq<Node>)
    ensures n in r
    ensures forall m :: m in r <==> m in s || m == n
  {
    if n in s then s else s + [n]
  }

  predicate Distinct(s: seq<Node>) {
    forall i, j :: 0 <= i < j < |s| ==> s[i] != s[j]
  }

  /** The weights a graph holds after `add_edge` has been called for each street of `e` in turn. */
  function TableMap(e: seq<Street>): (r: WeightTable)
    ensures forall p :: p in r ==> Normal(p)
  {
    if e == [] then map[] else TableMap(e[..|e| - 1])[KeyOf(e[|e| - 1]) := e[|e| - 1].weight]
  }

  predicate DistinctKeys(e: seq<Street>) {
    forall j, k :: 0 <= j < k < |e| ==> KeyOf(e[j]) != KeyOf(e[k])
  }

  /** A pair is a street of the graph exactly when some row of the table names it, either way round. */
  lemma {:induction false} TableMapKeys(e: seq<Street>, p: Pair)
    ensures p in TableMap(e) <==> exists j :: 0 <= j < |e| && KeyOf(e[j]) == p
  {
    if e != [] {
      var init := e[..|e| - 1];
      TableMapKeys(init, p);
      if p in TableMap(init) {
        var j :| 0 <= j < |init| && KeyOf(init[j]) == p;
        assert KeyOf(e[j]) == p;
      }
      if exists j :: 0 <= j < |e| && KeyOf(e[j]) == p {
        var j :| 0 <= j < |e| && KeyOf(e[j]) == p;
        if j < |init| {
          assert KeyOf(init[j]) == p;
        }
      }
    }
  }

  /** With no street listed twice, each row's weight is the weight stored for its pair. */
  lemma {:induction false} TableMapValue(e: seq<Street>, j: nat)
    requires DistinctKeys(e)
    requires j < |e|
    ensures KeyOf(e[j]) in TableMap(e)
    ensures TableMap(e)[KeyOf(e[j])] == e[j].weight
  {
    var init := e[..|e| - 1];
    if j < |init| {
      assert init[j] == e[j];
      assert DistinctKeys(init) by {
        forall a, b | 0 <= a < b < |init| ensures KeyOf(init[a]) != KeyOf(init[b]) {
          assert init[a] == e[a] && init[b] == e[b];
        }
      }
      TableMapValue(init, j);
    }
  }

  /** With no street listed twice, the graph holds exactly as many streets as the table has rows. */
  lemma {:induction false} TableMapSize(e: seq<Street>)
    requires DistinctKeys(e)
    ensures |TableMap(e)| == |e|
  {
    if e != [] {
      var init := e[..|e| - 1];
      assert DistinctKeys(init) by {
        forall a, b | 0 <= a < b < |init| ensures KeyOf(init[a]) != KeyOf(init[b]) {
          assert init[a] == e[a] && init[b] == e[b];
        }
      }
      TableMapSize(init);
      var last := KeyOf(e[|e| - 1]);
      TableMapKeys(init, last);
      forall j | 0 <= j < |init| ensures KeyOf(init[j]) != last {
        assert init[j] == e[j];
      }
    }
  }

  /** Every weight stored is the weight of some row of the table. */
  lemma {:induction false} TableMapWeights(e: seq<Street>, p: Pair)
    requires p in TableMap(e)
    ensures exists j :: 0 <= j < |e| && KeyOf(e[j]) == p && TableMap(e)[p] == e[j].weight
  {
    var last := |e| - 1;
    if KeyOf(e[last]) != p {
      var init := e[..last];
      TableMapWeights(init, p);
      var j :| 0 <= j < |init| && KeyOf(init[j]) == p && TableMap(init)[p] == init[j].weight;
      assert e[j] == init[j];
    }
  }

  /** Facts read off the rows of the table one by one. */
  lemma StreetRows()
    ensures forall k :: 0 <= k < |STREETS| ==>
      1 <= STREETS[k].u.i < STREETS[k].v.i <= 20 && STREETS[k].weight > 0
  {
  }

  lemma StreetRow(k: nat)
    requires k < |STREETS|
    ensures 1 <= STREETS[k].u.i < STREETS[k].v.i <= 20 && STREETS[k].weight > 0
  {
    StreetRows();
  }

  /** No two rows of the table name the same pair of intersections. */
  lemma StreetKeysDistinct()
    ensures DistinctKeys(STREETS)
  {
    StreetRows();
    assert forall j, k :: 0 <= j < k < |STREETS| ==> STREETS[j].u != STREETS[k].u || STREETS[j].v != STREETS[k].v;
  }

  /** The table lists thirty streets, no pair of intersections twice, so the graph has thirty edges. */
  lemma StreetCount()
    ensures DistinctKeys(STREETS)
    ensures |TableMap(STREETS)| == 30
  {
    StreetKeysDistinct();
    TableMapSize(STREETS);
  }

  /** Every street of the graph joins two different intersections among N1..N20 and has a positive weight. */
  lemma StreetsWellFormed(p: Pair)
    requires p in TableMap(STREETS)
    ensures TableMap(STREETS)[p] > 0
    ensures p.lo in Intersections() && p.hi in Intersections() && p.lo != p.hi
  {
    StreetRows();
    TableMapWeights(STREETS, p);
    var j :| 0 <= j < |STREETS| && KeyOf(STREETS[j]) == p && TableMap(STREETS)[p] == STREETS[j].weight;
    assert STREETS[j].weight > 0 && 1 <= p.lo.i < p.hi.i <= 20;
    assert p.lo == Intersections()[p.lo.i - 1];
    assert p.hi == Intersections()[p.hi.i - 1];
  }

  /** Each row of the table is found in the graph with its own weight, whichever way round its endpoints are named. */
  lemma StreetLookup(k: nat)
    requires k < |STREETS|
    ensures Weight(TableMap(STREETS), STREETS[k].u, STREETS[k].v) == Some(STREETS[k].weight)
    ensures Weight(TableMap(STREETS), STREETS[k].v, STREETS[k].u) == Some(STREETS[k].weight)
  {
    StreetCount();
    TableMapValue(STREETS, k);
    WeightSymmetric(TableMap(STREETS), STREETS[k].u, STREETS[k].v);
  }

  /** The intersections are twenty distinct nodes. */
  lemma IntersectionsDistinct()
    ensures Distinct(Intersections())
    ensures forall n: Node :: n in Intersections() <==> 1 <= n.i <= 20
  {
    forall n: Node | 1 <= n.i <= 20 ensures n in Intersections() {
      assert Intersections()[n.i - 1] == n;
    }
  }

  /**
   * An undirected weighted graph as `create_graph` builds it: the nodes in the order they
   * were added, and the weight of each street under its unordered pair.
   */
  class Graph {
    var nodes: seq<Node>
    var weights: WeightTable

    ghost predicate Valid()
      reads this
    {
      && Distinct(nodes)
      && forall p :: p in weights ==> Normal(p) && p.lo in nodes && p.hi in nodes
    }

    constructor ()
      ensures Valid()
      ensures nodes == [] && weights == map[]
    {
      nodes := [];
      weights := map[];
    }

    /** `G.add_node(n)`: a node already present is left where it is. */
    method AddNode(n: Node)
      requires Valid()
      modifies this
      ensures Valid()
      ensures nodes == Extend(old(nodes), n)
      ensures weights == old(weights)
    {
      if n !in nodes {
        nodes := nodes + [n];
      }
    }

    /** `G.add_edge(u, v, weight=w)`: adds missing endpoints, then sets the weight of the street, replacing any earlier one. */
    method AddEdge(u: Node, v: Node, w: int)
      requires Valid()
      modifies this
      ensures Valid()
      ensures nodes == Extend(Extend(old(nodes), u), v)
      ensures weights == old(weights)[Key(u, v) := w]
    {
      AddNode(u);
      AddNode(v);
      weights := weights[Key(u, v) := w];
    }
  }

  /** `create_graph`: adds N1..N20, then every street of the table. */
  method CreateGraph() returns (g: Graph)
    ensures fresh(g) && g.Valid()
    ensures g.nodes == Intersections()
    ensures g.weights == TableMap(STREETS)
  {
    g := new Graph();
    for i := 1 to 21
      invariant g.Valid()
      invariant g.nodes == seq(i - 1, (j: nat) => N(j + 1))
      invariant g.weights == map[]
    {
      assert N(i) !in seq(i - 1, (j: nat) => N(j + 1));
      g.AddNode(N(i));
      assert g.nodes == seq(i, (j: nat) => N(j + 1));
    }
    assert Distinct(Intersections()) by { IntersectionsDistinct(); }
    for k := 0 to |STREETS|
      invariant g.Valid()
      invariant g.nodes == Intersections()
      invariant g.weights == TableMap(STREETS[..k])
    {
      var s := STREETS[k];
      StreetRow(k);
      assert s.u == Intersections()[s.u.i - 1] && s.v == Intersections()[s.v.i - 1];
      g.AddEdge(s.u, s.v, s.weight);
      assert STREETS[..k + 1][..k] == STREETS[..k];
    }
    assert STREETS[..|STREETS|] == STREETS;
  }
}
