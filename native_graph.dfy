/** The part of igraph's `Graph` the wrapper relies on, as values: a vertex
    count, a directedness flag, the edge list in insertion order and the
    optional "weight" edge attribute, together with `add_edge` and `get_eid`. */
module NativeGraph {
  import opened Wrappers

  /** An edge weight, by Python kind: bool, int, float (as a real), or any
      other object (a `str`, `None`, ...), which the model keeps as a string. */
  datatype Val = B(b: bool) | I(i: int) | F(x: real) | S(s: string)

  datatype Edge = Edge(src: nat, dst: nat)

  /** Vertices are 0 .. n-1. `weight` is the "weight" attribute column,
      one value per edge, or None when the graph has no such attribute.
      An undirected edge is kept as igraph reports it, smaller endpoint first. */
  datatype Graph = Graph(n: nat, directed: bool, edges: seq<Edge>, weight: Option<seq<Val>>)

  /** Every endpoint is a vertex, undirected edges have the smaller endpoint
      first, and the attribute column covers every edge. */
  predicate WellFormed(g: Graph) {
    && (forall k | 0 <= k < |g.edges| ::
          && g.edges[k].src < g.n && g.edges[k].dst < g.n
          && (!g.directed ==> g.edges[k].src <= g.edges[k].dst))
    && (g.weight.Some? ==> |g.weight.value| == |g.edges|)
  }

  /** igraph's `is_weighted()`: the graph carries a "weight" attribute. */
  predicate IsWeighted(g: Graph) {
    g.weight.Some?
  }

  /** The weight of edge k, or None when the graph is unweighted. */
  function WeightAt(g: Graph, k: nat): (w: Option<Val>)
    requires WellFormed(g) && k < |g.edges|
    ensures w.Some? <==> IsWeighted(g)
  {
    if g.weight.Some? then Some(g.weight.value[k]) else None
  }

  /** `igraph.Graph(n, directed=d)`: n vertices, no edges, no attributes. */
  function Empty(n: nat, directed: bool): (g: Graph)
    ensures WellFormed(g) && !IsWeighted(g) && g.n == n && g.directed == directed && g.edges == []
  {
    Graph(n, directed, [], None)
  }

  /** The edge from s to t as igraph reports it: as given in a directed
      graph, smaller endpoint first in an undirected one. */
  function Stored(directed: bool, s: nat, t: nat): (e: Edge)
    ensures (e.src == s && e.dst == t) || (!directed && e.src == t && e.dst == s)
    ensures !directed ==> e.src <= e.dst
  {
    if directed || s <= t then Edge(s, t) else Edge(t, s)
  }

  /** `g.add_edge(s, t)` or `g.add_edge(s, t, weight=w)`: appends an edge
      joining s and t and keeps every earlier edge; a weight given to the
      first edge of a graph creates the attribute. Mixing weighted and
      unweighted additions is not modelled. */
  function AddEdge(g: Graph, s: nat, t: nat, w: Option<Val>): (r: Graph)
    requires WellFormed(g) && s < g.n && t < g.n
    requires w.None? ==> g.weight.None?
    requires w.Some? ==> g.weight.Some? || g.edges == []
    ensures WellFormed(r)
    ensures r.n == g.n && r.directed == g.directed
    ensures |r.edges| == |g.edges| + 1 && r.edges[..|g.edges|] == g.edges
    ensures Joins(r, |g.edges|, s, t)
    ensures w.None? ==> r.weight == None
    ensures w.Some? ==> r.weight == Some(WeightValues(g) + [w.value])
  {
    Graph(g.n, g.directed, g.edges + [Stored(g.directed, s, t)],
          if w.Some? then Some(WeightValues(g) + [w.value]) else None)
  }

  /** `g.es["weight"]` as a list, empty when there is no attribute. */
  function WeightValues(g: Graph): seq<Val> {
    if g.weight.Some? then g.weight.value else []
  }

  /** Edge k connects s to t; in an undirected graph either way round. */
  predicate Joins(g: Graph, k: nat, s: nat, t: nat)
    requires k < |g.edges|
  {
    || (g.edges[k].src == s && g.edges[k].dst == t)
    || (!g.directed && g.edges[k].src == t && g.edges[k].dst == s)
  }

  /** The first edge at or after `from` that joins s and t. */
  function FindEdge(g: Graph, s: nat, t: nat, from: nat): (r: Option<nat>)
    requires from <= |g.edges|
    ensures r.Some? ==> from <= r.value < |g.edges| && Joins(g, r.value, s, t)
    ensures r.Some? ==> forall j | from <= j < r.value :: !Joins(g, j, s, t)
    ensures r.None? ==> forall j | from <= j < |g.edges| :: !Joins(g, j, s, t)
    decreases |g.edges| - from
  {
    if from == |g.edges| then None
    else if Joins(g, from, s, t) then Some(from)
    else FindEdge(g, s, t, from + 1)
  }

  /** `g.get_eid(s, t)`: the id of the first edge joining s and t; None
      stands for the `igraph.InternalError` raised when there is none. */
  function GetEid(g: Graph, s: nat, t: nat): (r: Option<nat>)
    ensures r.Some? ==> r.value < |g.edges| && Joins(g, r.value, s, t)
    ensures r.Some? ==> forall j | 0 <= j < r.value :: !Joins(g, j, s, t)
    ensures r.None? <==> forall j | 0 <= j < |g.edges| :: !Joins(g, j, s, t)
  {
    FindEdge(g, s, t, 0)
  }

  /** No two edges join the same pair of vertices (as ordered pairs in a
      directed graph, as unordered pairs otherwise). */
  predicate NoParallel(g: Graph) {
    forall i, j | 0 <= i < j < |g.edges| :: !Joins(g, j, g.edges[i].src, g.edges[i].dst)
  }

  /** Without parallel edges, looking an edge up by its own endpoints finds it. */
  lemma GetEidOwnEdge(g: Graph, k: nat)
    requires NoParallel(g) && k < |g.edges|
    ensures GetEid(g, g.edges[k].src, g.edges[k].dst) == Some(k)
  {
    var e := g.edges[k];
    assert Joins(g, k, e.src, e.dst);
    forall j | 0 <= j < k
      ensures !Joins(g, j, e.src, e.dst)
    {
      assert !Joins(g, k, g.edges[j].src, g.edges[j].dst);
    }
  }
}
