/** `IGraph`, the wrapper around an igraph graph: its construction, the lazy
    node index, rebuilding the graph for another node index, and the
    equality test between two wrappers. */
module IGraphType {
  import opened Wrappers
  import opened NativeGraph
  import opened NodeIndexes
  import opened Metadata

  // ---------------------------------------------------------------------
  // Rebuilding a graph for another node index
  // ---------------------------------------------------------------------

  /** `index_converter`: vertex i of the current index becomes the position
      of its label in the target index. */
  function Converter(my: NodeIndex, target: NodeIndex): (conv: seq<nat>)
    requires SameLabels(my, target)
    ensures |conv| == |my|
    ensures forall i | 0 <= i < |my| :: conv[i] < |target| && target[conv[i]] == my[i]
  {
    SameLabelsMembers(my, target);
    seq(|my|, i requires 0 <= i < |my| => Position(target, my[i]))
  }

  /** A converter covers every vertex and maps it to a vertex. */
  predicate IsConverter(conv: seq<nat>, n: nat) {
    |conv| == n && forall i | 0 <= i < n :: conv[i] < n
  }

  /** The edges, in the same order, with both endpoints renumbered and each
      edge stored as igraph reports it. */
  function RelabelEdges(edges: seq<Edge>, conv: seq<nat>, directed: bool): (r: seq<Edge>)
    requires forall k | 0 <= k < |edges| :: edges[k].src < |conv| && edges[k].dst < |conv|
    ensures |r| == |edges|
    ensures forall k | 0 <= k < |edges| ::
              r[k] == Stored(directed, conv[edges[k].src], conv[edges[k].dst])
  {
    seq(|edges|, k requires 0 <= k < |edges| =>
          Stored(directed, conv[edges[k].src], conv[edges[k].dst]))
  }

  /** The graph the rebuild produces: the same vertex count, directedness and
      weight column, every edge renumbered. The weight attribute is carried
      over even when there are no edges (see RelabelAsWritten). */
  function Relabel(data: Graph, conv: seq<nat>): (g: Graph)
    requires WellFormed(data) && IsConverter(conv, data.n)
    ensures WellFormed(g)
  {
    Graph(data.n, data.directed, RelabelEdges(data.edges, conv, data.directed), data.weight)
  }

  /** The graph `rebuild_for_node_index`'s add_edge loop builds as written:
      the weight attribute exists only once some `add_edge(..., weight=...)`
      has run, so a weighted graph without edges comes out unweighted. */
  function RelabelAsWritten(data: Graph, conv: seq<nat>): (g: Graph)
    requires WellFormed(data) && IsConverter(conv, data.n)
    ensures WellFormed(g)
  {
    Graph(data.n, data.directed, RelabelEdges(data.edges, conv, data.directed),
          if data.edges != [] then data.weight else None)
  }

  /** `rebuild_for_node_index`'s add_edge loop: a fresh graph, then one
      `add_edge` per edge of `data` in order, through the converter, with its
      weight when `data` is weighted. The fresh graph declares the weight
      attribute up front when `data` is weighted. */
  method RebuildEdges(data: Graph, conv: seq<nat>) returns (g: Graph)
    requires WellFormed(data) && IsConverter(conv, data.n)
    ensures g == Relabel(data, conv)
  {
    g := Empty(data.n, data.directed);
    if IsWeighted(data) {
      g := g.(weight := Some([]));
    }
    var k := 0;
    while k < |data.edges|
      invariant k <= |data.edges|
      invariant WellFormed(g) && g.n == data.n && g.directed == data.directed
      invariant |g.edges| == k
      invariant forall j | 0 <= j < k ::
                  g.edges[j] == Stored(data.directed, conv[data.edges[j].src], conv[data.edges[j].dst])
      invariant g.weight == if IsWeighted(data) then Some(data.weight.value[..k]) else None
    {
      var e := data.edges[k];
      var w := if IsWeighted(data) then Some(data.weight.value[k]) else None;
      if IsWeighted(data) {
        assert data.weight.value[..k + 1] == data.weight.value[..k] + [data.weight.value[k]];
      }
      g := AddEdge(g, conv[e.src], conv[e.dst], w);
      k := k + 1;
    }
    assert IsWeighted(data) ==> data.weight.value[..k] == data.weight.value;
    assert g.edges == RelabelEdges(data.edges, conv, data.directed);
  }

  /** The graph `rebuild_for_node_index` wraps, given the wrapper's graph, its
      current node index and the target index: ValueError when the target's
      size is not the vertex count or (for a different index) when the two
      indexes do not hold the same labels; the graph itself when the index is
      unchanged; the renumbered graph otherwise. */
  function RebuildGraph(data: Graph, my: NodeIndex, target: NodeIndex): (r: Result<Graph>)
    requires WellFormed(data)
    ensures r.Err? <==> |target| != data.n || (target != my && !SameLabels(my, target))
    ensures r.Err? ==> r.error == ValueError
    ensures |target| == data.n && target == my ==> r == Ok(data)
  {
    if data.n != |target| then Err(ValueError)
    else if target == my then Ok(data)
    else if !SameLabels(my, target) then Err(ValueError)
    else
      SameLabelsSameLength(my, target);
      Ok(Relabel(data, Converter(my, target)))
  }

  /** As written and corrected, the rebuild differs only for a weighted
      graph without edges. */
  lemma RelabelAsWrittenAgrees(data: Graph, conv: seq<nat>)
    requires WellFormed(data) && IsConverter(conv, data.n)
    ensures RelabelAsWritten(data, conv) == Relabel(data, conv)
            <==> data.edges != [] || !IsWeighted(data)
  {
  }

  /** Edge e under index a and edge f under index b join the same labels, in
      the same order, or in either order when the graph is undirected. */
  predicate SameLabelPair(a: NodeIndex, e: Edge, b: NodeIndex, f: Edge, directed: bool)
    requires e.src < |a| && e.dst < |a| && f.src < |b| && f.dst < |b|
  {
    || (a[e.src] == b[f.src] && a[e.dst] == b[f.dst])
    || (!directed && a[e.src] == b[f.dst] && a[e.dst] == b[f.src])
  }

  /** Joining the same labels is symmetric and transitive. */
  lemma SameLabelPairCompose(a: NodeIndex, e: Edge, b: NodeIndex, f: Edge, c: NodeIndex, h: Edge, directed: bool)
    requires e.src < |a| && e.dst < |a| && f.src < |b| && f.dst < |b| && h.src < |c| && h.dst < |c|
    requires SameLabelPair(a, e, b, f, directed) && SameLabelPair(b, f, c, h, directed)
    ensures SameLabelPair(b, f, a, e, directed) && SameLabelPair(a, e, c, h, directed)
  {
  }

  /** Under one index, two edges join the same labels exactly when the second
      joins the first one's endpoints; for edges stored as igraph reports
      them this means they are the same edge. */
  lemma SameLabelPairJoins(a: NodeIndex, e: Edge, f: Edge, directed: bool)
    requires e.src < |a| && e.dst < |a| && f.src < |a| && f.dst < |a|
    ensures SameLabelPair(a, e, a, f, directed)
            <==> (e == f || (!directed && e.src == f.dst && e.dst == f.src))
    ensures (!directed ==> e.src <= e.dst && f.src <= f.dst) ==>
              (SameLabelPair(a, e, a, f, directed) <==> e == f)
  {
  }

  /** A rebuild keeps the vertex count, directedness, edge order and weights,
      and every edge joins the same labels as before: its endpoints' labels in
      the target index are its old endpoints' labels in the old index, in
      either order when the graph is undirected. */
  lemma RebuildKeepsLabelledEdges(data: Graph, my: NodeIndex, target: NodeIndex)
    requires WellFormed(data) && RebuildGraph(data, my, target).Ok?
    ensures var g := RebuildGraph(data, my, target).value;
      && WellFormed(g)
      && |my| == |target| == g.n == data.n
      && g.directed == data.directed
      && |g.edges| == |data.edges|
      && g.weight == data.weight
      && forall k | 0 <= k < |g.edges| ::
           SameLabelPair(target, g.edges[k], my, data.edges[k], data.directed)
  {
    if target != my {
      SameLabelsSameLength(my, target);
    }
  }

  /** Converting to another index and back is the identity on positions. */
  lemma ConverterInverse(a: NodeIndex, b: NodeIndex, i: nat)
    requires SameLabels(a, b) && i < |a|
    ensures Converter(a, b)[i] < |b| && Converter(b, a)[Converter(a, b)[i]] == i
  {
    var j := Converter(a, b)[i];
    var i' := Converter(b, a)[j];
    assert a[i'] == b[j] == a[i];
  }

  /** Rebuilding for another index and then back for the original one gives
      the original graph. */
  lemma {:induction false} RebuildRoundTrip(data: Graph, a: NodeIndex, b: NodeIndex)
    requires WellFormed(data) && RebuildGraph(data, a, b).Ok?
    ensures RebuildGraph(RebuildGraph(data, a, b).value, b, a) == Ok(data)
  {
    RebuildKeepsLabelledEdges(data, a, b);
    if a != b {
      var h := RebuildGraph(data, a, b).value;
      var back := RebuildGraph(h, b, a).value;
      RebuildKeepsLabelledEdges(h, b, a);
      forall k | 0 <= k < |data.edges|
        ensures back.edges[k] == data.edges[k]
      {
        var e := data.edges[k];
        ConverterInverse(a, b, e.src);
        ConverterInverse(a, b, e.dst);
      }
      assert back.edges == data.edges;
    }
  }

  /** Passing the wrapper's own dtype and weights by name, as the rebuild
      does, gives back exactly that metadata. */
  lemma InitMetaOfNames(g: Graph, m: Meta)
    requires MetaFits(g, m)
    ensures InitMeta(g, Some(WeightsName(m.weights)), Some(DTypeName(m.dtype))) == Ok(m)
  {
    NamesRoundTrip(m.dtype, m.weights);
  }

  /** The wrapper over the rebuilt graph has the original dtype and weights. */
  lemma RebuildKeepsMeta(data: Graph, m: Meta, my: NodeIndex, target: NodeIndex)
    requires WellFormed(data) && MetaFits(data, m) && RebuildGraph(data, my, target).Ok?
    ensures InitMeta(RebuildGraph(data, my, target).value,
                     Some(WeightsName(m.weights)), Some(DTypeName(m.dtype))) == Ok(m)
  {
    RebuildKeepsLabelledEdges(data, my, target);
    InitMetaOfNames(RebuildGraph(data, my, target).value, m);
  }

  /** As written, a weighted graph with no edges loses its weight attribute
      when rebuilt for a reordered index, and the new wrapper falls back to
      "bool" and "unweighted": here a 2-vertex graph whose empty weight column
      gives "str" and "any". */
  lemma RebuildAsWrittenDropsMeta()
    ensures var data := Graph(2, true, [], Some([]));
      var my := Sequential(2);
      var target: NodeIndex := [IntLabel(1), IntLabel(0)];
      && SameLabels(my, target)
      && InitMeta(data, None, None) == Ok(Meta(Str, Any))
      && InitMeta(RelabelAsWritten(data, Converter(my, target)), Some("any"), Some("str"))
           == Ok(Meta(Bool, Unweighted))
  {
    var my := Sequential(2);
    var target: NodeIndex := [IntLabel(1), IntLabel(0)];
    assert Labels(my) == {IntLabel(0), IntLabel(1)} by {
      assert my == [IntLabel(0), IntLabel(1)];
    }
    assert Labels(target) == {IntLabel(0), IntLabel(1)};
  }

  // ---------------------------------------------------------------------
  // Comparing two wrappers
  // ---------------------------------------------------------------------

  /** Two weights, as `operator.eq` compares them. */
  predicate SameWeight(x: Option<Val>, y: Option<Val>) {
    if x.Some? && y.Some? then PyEq(x.value, y.value) else x == y
  }

  /** One step of `compare_objects`'s edge loop, for edge k of g1: `get_eid`
      finds an edge of g2 with the same endpoints and, when weights count, a
      weight equal to its own. */
  predicate EdgeMatched(g1: Graph, g2: Graph, k: nat, weighted: bool)
    requires WellFormed(g1) && WellFormed(g2) && k < |g1.edges|
  {
    var e1 := g1.edges[k];
    var eid := GetEid(g2, e1.src, e1.dst);
    && eid.Some?
    && g2.edges[eid.value] == e1
    && (weighted ==> SameWeight(WeightAt(g1, k), WeightAt(g2, eid.value)))
  }

  /** Every edge of g1 is matched in g2. */
  predicate AllMatched(g1: Graph, g2: Graph, weighted: bool)
    requires WellFormed(g1) && WellFormed(g2)
  {
    forall k | 0 <= k < |g1.edges| :: EdgeMatched(g1, g2, k, weighted)
  }

  /** `compare_objects`'s edge loop: every edge of g1, in order, must be matched;
      the first unmatched edge ends the test with False. */
  method MatchEdges(g1: Graph, g2: Graph, weighted: bool) returns (ok: bool)
    requires WellFormed(g1) && WellFormed(g2)
    ensures ok <==> AllMatched(g1, g2, weighted)
  {
    var k := 0;
    while k < |g1.edges|
      invariant k <= |g1.edges|
      invariant forall j | 0 <= j < k :: EdgeMatched(g1, g2, j, weighted)
    {
      var e1 := g1.edges[k];
      var eid := GetEid(g2, e1.src, e1.dst);
      if eid.None? {
        assert !EdgeMatched(g1, g2, k, weighted);
        return false;
      }
      var e2 := g2.edges[eid.value];
      if e1.src != e2.src || e1.dst != e2.dst {
        assert !EdgeMatched(g1, g2, k, weighted);
        return false;
      }
      if weighted && !SameWeight(WeightAt(g1, k), WeightAt(g2, eid.value)) {
        assert !EdgeMatched(g1, g2, k, weighted);
        return false;
      }
      k := k + 1;
    }
    return true;
  }

  /** What `compare_objects` answers for two wrappers, given their metadata,
      graphs and current node indexes: the metadata, directedness, vertex
      count and edge count agree, the second graph can be rebuilt for the
      first one's index, and then every edge of the first is matched in it,
      weights included unless the graphs are "unweighted". */
  predicate Equal(m1: Meta, g1: Graph, idx1: NodeIndex, m2: Meta, g2: Graph, idx2: NodeIndex)
    requires WellFormed(g1) && WellFormed(g2)
  {
    && m1 == m2
    && g1.directed == g2.directed
    && g1.n == g2.n
    && |g1.edges| == |g2.edges|
    && RebuildGraph(g2, idx2, idx1).Ok?
    && AllMatched(g1, RebuildGraph(g2, idx2, idx1).value, m1.weights != Unweighted)
  }

  /** A graph without parallel edges, under an index of the right size, is
      equal to itself. */
  lemma EqualIsReflexive(m: Meta, g: Graph, idx: NodeIndex)
    requires WellFormed(g) && NoParallel(g) && |idx| == g.n
    ensures Equal(m, g, idx, m, g, idx)
  {
    var weighted := m.weights != Unweighted;
    forall k | 0 <= k < |g.edges|
      ensures EdgeMatched(g, g, k, weighted)
    {
      GetEidOwnEdge(g, k);
    }
  }

  /** A graph rebuilt for another index, wrapped with that index, is equal to
      the original (when the original has no parallel edges). */
  lemma EqualUnderRelabelling(m: Meta, g: Graph, a: NodeIndex, b: NodeIndex)
    requires WellFormed(g) && NoParallel(g) && |a| == g.n
    requires RebuildGraph(g, a, b).Ok?
    ensures WellFormed(RebuildGraph(g, a, b).value)
    ensures Equal(m, g, a, m, RebuildGraph(g, a, b).value, b)
  {
    RebuildKeepsLabelledEdges(g, a, b);
    RebuildRoundTrip(g, a, b);
    EqualIsReflexive(m, g, a);
  }

  /** Edge j of g2 under idx2 is a counterpart of edge k of g1 under idx1:
      it joins the same labels and, when weights count, has an equal weight. */
  predicate Counterpart(g1: Graph, idx1: NodeIndex, k: nat, g2: Graph, idx2: NodeIndex, j: nat, weighted: bool)
    requires WellFormed(g1) && WellFormed(g2) && |idx1| == g1.n && |idx2| == g2.n
    requires k < |g1.edges| && j < |g2.edges|
  {
    && SameLabelPair(idx2, g2.edges[j], idx1, g1.edges[k], g1.directed)
    && (weighted ==> SameWeight(WeightAt(g2, j), WeightAt(g1, k)))
  }

  predicate HasCounterpart(g1: Graph, idx1: NodeIndex, k: nat, g2: Graph, idx2: NodeIndex, weighted: bool)
    requires WellFormed(g1) && WellFormed(g2) && |idx1| == g1.n && |idx2| == g2.n
    requires k < |g1.edges|
  {
    exists j | 0 <= j < |g2.edges| :: Counterpart(g1, idx1, k, g2, idx2, j, weighted)
  }

  predicate EveryEdgeHasCounterpart(g1: Graph, idx1: NodeIndex, g2: Graph, idx2: NodeIndex, weighted: bool)
    requires WellFormed(g1) && WellFormed(g2) && |idx1| == g1.n && |idx2| == g2.n
  {
    forall k | 0 <= k < |g1.edges| :: HasCounterpart(g1, idx1, k, g2, idx2, weighted)
  }

  /** Equality means that every edge of the first graph has a counterpart in
      the second: an edge joining the same labels (in either order when
      undirected), with an equal weight unless the graphs are "unweighted". */
  lemma EqualFindsEveryEdge(m1: Meta, g1: Graph, idx1: NodeIndex, m2: Meta, g2: Graph, idx2: NodeIndex, k: nat)
    requires WellFormed(g1) && WellFormed(g2) && Equal(m1, g1, idx1, m2, g2, idx2)
    requires k < |g1.edges|
    ensures |idx1| == g1.n && |idx2| == g2.n
    ensures HasCounterpart(g1, idx1, k, g2, idx2, m1.weights != Unweighted)
  {
    RebuildKeepsLabelledEdges(g2, idx2, idx1);
    var h := RebuildGraph(g2, idx2, idx1).value;
    assert EdgeMatched(g1, h, k, m1.weights != Unweighted);
    var j := GetEid(h, g1.edges[k].src, g1.edges[k].dst).value;
    assert h.edges[j] == g1.edges[k];
    SameLabelPairCompose(idx1, h.edges[j], idx2, g2.edges[j], idx1, g1.edges[k], g1.directed);
    assert WeightAt(h, j) == WeightAt(g2, j);
    assert Counterpart(g1, idx1, k, g2, idx2, j, m1.weights != Unweighted);
  }

  /** If edge j of a rebuilt graph joins the endpoints of its edge i, edge j
      of the original joins the endpoints of the original's edge i. */
  lemma RebuildReflectsJoins(data: Graph, my: NodeIndex, target: NodeIndex, i: nat, j: nat)
    requires WellFormed(data) && RebuildGraph(data, my, target).Ok?
    requires i < |data.edges| && j < |data.edges|
    ensures var g := RebuildGraph(data, my, target).value;
      Joins(g, j, g.edges[i].src, g.edges[i].dst)
      ==> Joins(data, j, data.edges[i].src, data.edges[i].dst)
  {
    RebuildKeepsLabelledEdges(data, my, target);
    var g := RebuildGraph(data, my, target).value;
    var d := data.directed;
    if Joins(g, j, g.edges[i].src, g.edges[i].dst) {
      SameLabelPairJoins(target, g.edges[j], g.edges[i], d);
      SameLabelPairCompose(target, g.edges[j], target, g.edges[i], my, data.edges[i], d);
      SameLabelPairCompose(my, data.edges[j], target, g.edges[j], my, data.edges[i], d);
      SameLabelPairJoins(my, data.edges[j], data.edges[i], d);
    }
  }

  /** A rebuild adds no parallel edges. */
  lemma RebuildKeepsNoParallel(data: Graph, my: NodeIndex, target: NodeIndex)
    requires WellFormed(data) && NoParallel(data) && RebuildGraph(data, my, target).Ok?
    ensures NoParallel(RebuildGraph(data, my, target).value)
  {
    RebuildKeepsLabelledEdges(data, my, target);
    var g := RebuildGraph(data, my, target).value;
    forall i, j | 0 <= i < j < |g.edges|
      ensures !Joins(g, j, g.edges[i].src, g.edges[i].dst)
    {
      RebuildReflectsJoins(data, my, target, i, j);
    }
  }

  /** The converse of EqualFindsEveryEdge: two graphs that agree in metadata,
      directedness and size, under indexes holding the same labels, are equal
      when every edge of the first has a counterpart in the second and the
      second has no parallel edges. */
  lemma EqualFromCounterparts(m: Meta, g1: Graph, idx1: NodeIndex, g2: Graph, idx2: NodeIndex)
    requires WellFormed(g1) && WellFormed(g2) && NoParallel(g2)
    requires g1.directed == g2.directed && g1.n == g2.n && |g1.edges| == |g2.edges|
    requires |idx1| == g1.n && |idx2| == g2.n && SameLabels(idx2, idx1)
    requires EveryEdgeHasCounterpart(g1, idx1, g2, idx2, m.weights != Unweighted)
    ensures Equal(m, g1, idx1, m, g2, idx2)
  {
    var weighted := m.weights != Unweighted;
    RebuildKeepsLabelledEdges(g2, idx2, idx1);
    RebuildKeepsNoParallel(g2, idx2, idx1);
    var h := RebuildGraph(g2, idx2, idx1).value;
    forall k | 0 <= k < |g1.edges|
      ensures EdgeMatched(g1, h, k, weighted)
    {
      assert HasCounterpart(g1, idx1, k, g2, idx2, weighted);
      var j :| 0 <= j < |g2.edges| && Counterpart(g1, idx1, k, g2, idx2, j, weighted);
      SameLabelPairCompose(idx1, h.edges[j], idx2, g2.edges[j], idx1, g1.edges[k], g1.directed);
      SameLabelPairJoins(idx1, h.edges[j], g1.edges[k], g1.directed);
      GetEidOwnEdge(h, j);
      assert WeightAt(h, j) == WeightAt(g2, j);
    }
  }

  /** n distinct positions below n cover every position below n. */
  lemma {:induction false} DistinctPositionsCover(f: seq<nat>, n: nat, j: nat)
    requires |f| == n && j < n
    requires forall k | 0 <= k < n :: f[k] < n
    requires forall a, b | 0 <= a < b < n :: f[a] != f[b]
    ensures exists k | 0 <= k < n :: f[k] == j
    decreases n
  {
    var last := f[n - 1];
    if last != j {
      // Drop the last position and send n - 1, if it occurs, to `last`.
      var g := seq(n - 1, k requires 0 <= k < n - 1 => if f[k] == n - 1 then last else f[k]);
      forall k | 0 <= k < n - 1
        ensures g[k] < n - 1
      {
        assert f[k] != last;
      }
      forall a, b | 0 <= a < b < n - 1
        ensures g[a] != g[b]
      {
        assert f[a] != last && f[b] != last;
      }
      var target := if j == n - 1 then last else j;
      DistinctPositionsCover(g, n - 1, target);
      var k :| 0 <= k < n - 1 && g[k] == target;
      assert f[k] != last;
    }
  }

  /** Without parallel edges in either graph, equality is symmetric: the
      matched edges of the first graph are distinct edges of the second, and
      as many as it has, so every edge of the second has a counterpart. */
  lemma EqualIsSymmetric(m1: Meta, g1: Graph, idx1: NodeIndex, m2: Meta, g2: Graph, idx2: NodeIndex)
    requires WellFormed(g1) && WellFormed(g2) && NoParallel(g1) && NoParallel(g2)
    requires Equal(m1, g1, idx1, m2, g2, idx2)
    ensures Equal(m2, g2, idx2, m1, g1, idx1)
  {
    var weighted := m1.weights != Unweighted;
    var e := |g1.edges|;
    RebuildKeepsLabelledEdges(g2, idx2, idx1);
    var h := RebuildGraph(g2, idx2, idx1).value;
    var f := seq(e, k requires 0 <= k < e =>
                   var eid := GetEid(h, g1.edges[k].src, g1.edges[k].dst);
                   if eid.Some? then eid.value else 0);
    forall k | 0 <= k < e
      ensures f[k] < e && h.edges[f[k]] == g1.edges[k]
      ensures weighted ==> SameWeight(WeightAt(g1, k), WeightAt(h, f[k]))
    {
      assert EdgeMatched(g1, h, k, weighted);
    }
    forall a, b | 0 <= a < b < e
      ensures f[a] != f[b]
    {
      assert !Joins(g1, b, g1.edges[a].src, g1.edges[a].dst);
    }
    forall j | 0 <= j < e
      ensures HasCounterpart(g2, idx2, j, g1, idx1, weighted)
    {
      DistinctPositionsCover(f, e, j);
      var k :| 0 <= k < e && f[k] == j;
      SameLabelPairCompose(idx1, h.edges[j], idx2, g2.edges[j], idx1, h.edges[j], g1.directed);
      assert WeightAt(h, j) == WeightAt(g2, j);
      assert Counterpart(g2, idx2, j, g1, idx1, k, weighted);
    }
    assert Labels(idx1) == Labels(idx2);
    EqualFromCounterparts(m2, g2, idx2, g1, idx1);
  }

  /** Without parallel edges in the second graph, and once metadata,
      directedness, sizes and label sets agree, equality is exactly: every
      edge of the first graph has a counterpart in the second. */
  lemma EqualIffCounterparts(m: Meta, g1: Graph, idx1: NodeIndex, g2: Graph, idx2: NodeIndex)
    requires WellFormed(g1) && WellFormed(g2) && NoParallel(g2)
    requires g1.directed == g2.directed && g1.n == g2.n && |g1.edges| == |g2.edges|
    requires |idx1| == g1.n && |idx2| == g2.n && SameLabels(idx2, idx1)
    ensures Equal(m, g1, idx1, m, g2, idx2)
            <==> EveryEdgeHasCounterpart(g1, idx1, g2, idx2, m.weights != Unweighted)
  {
    var weighted := m.weights != Unweighted;
    if Equal(m, g1, idx1, m, g2, idx2) {
      forall k | 0 <= k < |g1.edges|
        ensures HasCounterpart(g1, idx1, k, g2, idx2, weighted)
      {
        EqualFindsEveryEdge(m, g1, idx1, m, g2, idx2, k);
      }
    } else if EveryEdgeHasCounterpart(g1, idx1, g2, idx2, weighted) {
      EqualFromCounterparts(m, g1, idx1, g2, idx2);
    }
  }

  // ---------------------------------------------------------------------
  // The wrapper
  // ---------------------------------------------------------------------

  /** An argument to `compare_objects`: an IGraph or any other object. */
  datatype Obj = Wrapped(ig: IGraph) | Foreign

  function Footprint(a: Obj): set<object> {
    if a.Wrapped? then {a.ig} else {}
  }

  class IGraph {
    /** The wrapped igraph graph, its dtype and its weight class, fixed at construction. */
    const value: Graph
    const dtype: DType
    const weights: Weights
    /** `_node_index`: None until a node index is given or first asked for. */
    var nodeIndex: Option<NodeIndex>

    ghost predicate Valid() {
      WellFormed(value) && MetaFits(value, Meta(dtype, weights))
    }

    function EdgeMeta(): Meta {
      Meta(dtype, weights)
    }

    /** The node index the wrapper stands for: the stored one, or the
        sequential index over its vertices. */
    function CurrentIndex(): NodeIndex
      reads this
    {
      if nodeIndex.Some? then nodeIndex.value else Sequential(value.n)
    }

    constructor FromMeta(graph: Graph, meta: Meta, index: Option<NodeIndex>)
      requires WellFormed(graph) && MetaFits(graph, meta)
      ensures Valid()
      ensures value == graph && EdgeMeta() == meta && nodeIndex == index
    {
      value := graph;
      dtype := meta.dtype;
      weights := meta.weights;
      nodeIndex := index;
    }

    /** `IGraph(graph, weights=..., dtype=..., node_index=...)`: the metadata
        is settled by InitMeta, whose ValueError or TypeError is raised. */
    static method Create(graph: Graph, weights: Option<string>, dtype: Option<string>,
                         index: Option<NodeIndex>) returns (r: Result<IGraph>)
      requires WellFormed(graph)
      ensures r.Err? <==> InitMeta(graph, weights, dtype).Err?
      ensures r.Err? ==> r.error == InitMeta(graph, weights, dtype).error
      ensures r.Ok? ==> && fresh(r.value) && r.value.Valid()
                        && r.value.value == graph
                        && r.value.EdgeMeta() == InitMeta(graph, weights, dtype).value
                        && r.value.nodeIndex == index
    {
      var meta :- InitMeta(graph, weights, dtype);
      var ig := new IGraph.FromMeta(graph, meta, index);
      return Ok(ig);
    }

    /** The `node_index` property: with no index stored, the sequential index
        over the vertices is stored; the stored index is returned. */
    method GetNodeIndex() returns (idx: NodeIndex)
      modifies this
      ensures old(nodeIndex).None? ==> idx == Sequential(value.n)
      ensures old(nodeIndex).Some? ==> idx == old(nodeIndex).value
      ensures nodeIndex == Some(idx)
    {
      if nodeIndex.None? {
        nodeIndex := Some(Sequential(value.n));
      }
      idx := nodeIndex.value;
    }

    /** `rebuild_for_node_index`: ValueError when the target's size is not the
        vertex count (checked before the node index is looked at) or when the
        indexes hold different labels; otherwise a new wrapper with the same
        metadata over the graph RebuildGraph describes, holding the target. */
    method RebuildForNodeIndex(target: NodeIndex) returns (r: Result<IGraph>)
      requires Valid()
      modifies this
      ensures CurrentIndex() == old(CurrentIndex())
      ensures |target| == value.n ==> nodeIndex == Some(old(CurrentIndex()))
      ensures |target| != value.n ==> nodeIndex == old(nodeIndex)
      ensures r.Err? <==> RebuildGraph(value, old(CurrentIndex()), target).Err?
      ensures r.Err? ==> r.error == ValueError
      ensures r.Ok? ==> && fresh(r.value) && r.value.Valid()
                        && r.value.value == RebuildGraph(value, old(CurrentIndex()), target).value
                        && r.value.EdgeMeta() == EdgeMeta()
                        && r.value.nodeIndex == Some(target)
    {
      if value.n != |target| {
        return Err(ValueError);
      }
      var data := value;
      var my := GetNodeIndex();
      if target != my {
        if !SameLabels(my, target) {
          return Err(ValueError);
        }
        SameLabelsSameLength(my, target);
        var conv := Converter(my, target);
        data := RebuildEdges(value, conv);
      }
      RebuildKeepsMeta(value, EdgeMeta(), my, target);
      r := Create(data, Some(WeightsName(weights)), Some(DTypeName(dtype)), Some(target));
    }

    /** `compare_objects`: TypeError unless both arguments are IGraphs;
        otherwise the answer Equal gives for their metadata, graphs and node
        indexes. Only the lazily stored node indexes may change. */
    static method CompareObjects(a1: Obj, a2: Obj) returns (r: Result<bool>)
      requires a1.Wrapped? ==> a1.ig.Valid()
      requires a2.Wrapped? ==> a2.ig.Valid()
      modifies Footprint(a1), Footprint(a2)
      ensures a1.Foreign? || a2.Foreign? ==> r == Err(TypeError)
      ensures a1.Wrapped? && a2.Wrapped? ==>
        r == Ok(Equal(a1.ig.EdgeMeta(), a1.ig.value, old(a1.ig.CurrentIndex()),
                      a2.ig.EdgeMeta(), a2.ig.value, old(a2.ig.CurrentIndex())))
      ensures a1.Wrapped? ==> a1.ig.CurrentIndex() == old(a1.ig.CurrentIndex())
      ensures a2.Wrapped? ==> a2.ig.CurrentIndex() == old(a2.ig.CurrentIndex())
    {
      if a1.Foreign? || a2.Foreign? {
        return Err(TypeError);
      }
      var o1, o2 := a1.ig, a2.ig;
      if o1.dtype != o2.dtype || o1.weights != o2.weights {
        return Ok(false);
      }
      var g1, g2 := o1.value, o2.value;
      if g1.directed != g2.directed {
        return Ok(false);
      }
      if g1.n != g2.n {
        return Ok(false);
      }
      if |g1.edges| != |g2.edges| {
        return Ok(false);
      }
      var idx1 := o1.GetNodeIndex();
      assert o2.CurrentIndex() == old(o2.CurrentIndex());
      var rebuilt := o2.RebuildForNodeIndex(idx1);
      if rebuilt.Err? {
        return Ok(false);
      }
      g2 := rebuilt.value.value;
      var isWeighted := o1.weights != Unweighted;
      var ok := MatchEdges(g1, g2, isWeighted);
      return Ok(ok);
    }
  }
}
