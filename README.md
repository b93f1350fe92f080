# IGraph wrapper model

A Dafny model of `IGraph`, the metagraph wrapper around an igraph graph
(`metagraph_igraph/types.py`), with proofs about it. The model covers:

- **Metadata inference.** `_determine_dtype` and `_determine_weights` settle the dtype of the
  edge weights (bool, int, float or str) and their weight class (unweighted, non-negative,
  positive or any). A value the caller passes is checked against the choices and returned
  unchanged. Otherwise the value is inferred from the set of weight values. A graph without a
  weight attribute is always bool and unweighted (`__init__`).
- **The node index.** `node_index` lazily stores the sequential index `0 .. n-1`.
  `rebuild_for_node_index` renumbers every edge endpoint so that each edge joins the same labels
  under the new index.
- **Equality.** `compare_objects` fails fast on differing metadata, directedness or sizes. It
  then rebuilds the second graph in the first graph's node index and checks that every edge of
  the first is found, through igraph's first-match `get_eid`, with the same endpoints and, unless
  the graphs are unweighted, the same weight.

Modules:
- `Wrappers` holds Option and Result.
- `NativeGraph` is igraph's graph as a value: the vertex count, directedness, edge list and
  weight column, plus `add_edge` and `get_eid`.
- `NodeIndexes` is metagraph's node index: a list of distinct labels.
- `Metadata` holds dtype and weight-class inference.
- `IGraphType` holds the `IGraph` class, the rebuild and the comparison.
- `Scenarios` holds the cases from the wrapper's tests.

`IGraph` is a class. Its graph, dtype and weights are constants. Its stored node index is the one
field that methods update. The two loops of the source (the edge-by-edge rebuild and the
edge-by-edge comparison) are methods with loop invariants: `RebuildEdges` and `MatchEdges`. Each
is proved against a specification function (`Relabel` and `AllMatched`), and the lemmas are stated
about those functions and about `Equal`, the answer `compare_objects` gives.

An undirected edge is stored as igraph reports it, smaller endpoint first, so adding the edge
(1, 0) to an undirected graph gives the edge (0, 1). Weights are compared with Python's `==`,
under which `True`, `1` and `1.0` are equal.

## Model

| member | source | states |
|---|---|---|
| `Metadata.ParseDType` | metagraph_igraph/types.py:22 | A dtype string is accepted exactly when it is one of "bool", "int", "float", "str", and the parsed dtype has that name |
| `Metadata.ParseWeights` | metagraph_igraph/types.py:35 | A weights string is accepted exactly when it is one of "unweighted", "non-negative", "positive", "any", and the parsed class has that name |
| `Metadata.NamesRoundTrip` | metagraph_igraph/types.py:29-31 | The name of every dtype and weight class is accepted and parses back to it |
| `Metadata.DetermineDType` | metagraph_igraph/types.py:20-31 | A given dtype succeeds iff it is a choice and is then returned unchanged; otherwise ValueError; with none given the result is the inferred dtype, which holds every value |
| `Metadata.Kinds` | metagraph_igraph/types.py:26 | `{type(v) for v in all_values}`: a kind is present iff some value has it |
| `Metadata.InferDType` | metagraph_igraph/types.py:26-31 | The inferred dtype can hold every value (bool within int within float within str) |
| `Metadata.InferDTypeIsLeastFit` | metagraph_igraph/types.py:26-31 | The inferred dtype is the least dtype holding every value, and "str" when there are no values |
| `Metadata.PyEq` | metagraph_igraph/types.py:139-151 | `operator.eq` on weights: bools, ints and floats by numeric value, strings by content, a string never equal to a number |
| `Metadata.AllOne` | metagraph_igraph/types.py:42-52 | `all_values == {True}` and `all_values == {1}`: there is a value and every value equals 1 |
| `Metadata.MinValue` | metagraph_igraph/types.py:46 | `min` is one of the values and no value is smaller |
| `Metadata.InferWeights` | metagraph_igraph/types.py:39-54 | Inference fails exactly under a numeric dtype with no values (ValueError from `min`) or a non-numeric value (TypeError) |
| `Metadata.NumericWeightsDescribeValues` | metagraph_igraph/types.py:45-54 | Under int or float: "any" iff some value is negative; "non-negative" iff none is and one is zero; "unweighted" iff the dtype is int and every value is 1; "positive" iff all are above zero otherwise |
| `Metadata.BoolAndStrWeights` | metagraph_igraph/types.py:39-44 | Under bool: "unweighted" iff every value is True, else "non-negative"; under str: "any" |
| `Metadata.DetermineWeights` | metagraph_igraph/types.py:33-54 | A given weights string succeeds iff it is a choice and is then returned unchanged; otherwise ValueError; with none given the result, error included, is the inferred weight class |
| `Metadata.InitMeta` | metagraph_igraph/types.py:12-18 | Without a weight attribute the metadata is bool/unweighted whatever is passed; otherwise an illegal dtype is a ValueError; once the dtype is settled, a given weight class succeeds iff it is a choice (ValueError otherwise) and is kept; a given dtype is kept; a missing dtype is the inferred one, and a missing weight class is inferred for the settled dtype, failing exactly when inference fails and with its error |
| `Metadata.SameElements` | metagraph_igraph/types.py:13 | Two value lists with equal sets hold the same values |
| `Metadata.MinValueOfSameElements` | metagraph_igraph/types.py:46 | Value lists with the same members have the same minimum |
| `Metadata.InferDTypeOfSameElements` | metagraph_igraph/types.py:26-31 | The inferred dtype depends only on which values occur |
| `Metadata.InferWeightsOfSameElements` | metagraph_igraph/types.py:39-54 | The inferred weight class depends only on which values occur |
| `Metadata.InferenceDependsOnSet` | metagraph_igraph/types.py:13-15 | Inference reads the weights as a set: any two lists with the same set give the same dtype and weight class |
| `NativeGraph.Empty` | metagraph_igraph/types.py:80 | `igraph.Graph(n, directed=...)` has n vertices, the given directedness, no edges and no weight attribute |
| `NativeGraph.Stored` | metagraph_igraph/types.py:83-92 | An edge added from s to t is reported as (s, t) in a directed graph and with the smaller endpoint first in an undirected one |
| `NativeGraph.AddEdge` | metagraph_igraph/types.py:83-92 | `add_edge` keeps every earlier edge and appends one edge that joins s and t, appending its weight to the column when one is given |
| `NativeGraph.FindEdge` | metagraph_igraph/types.py:145 | The search returns the first edge from a start point that joins the two vertices, or none if no edge does |
| `NativeGraph.GetEid` | metagraph_igraph/types.py:145 | `get_eid` gives the first edge joining s and t (either way round when undirected); None, standing for InternalError, iff none does |
| `NativeGraph.GetEidOwnEdge` | metagraph_igraph/types.py:145 | Without parallel edges, an edge's own endpoints find that edge |
| `NodeIndexes.Sequential` | metagraph_igraph/types.py:63 | `SequentialNodes(n)` labels vertex i with the integer i, for n vertices |
| `NodeIndexes.SameLabels` | metagraph_igraph/types.py:78 | `_verify_valid_conversion`: the two indexes hold the same set of labels |
| `NodeIndexes.Position` | metagraph_igraph/types.py:79 | `bylabel` gives the one position holding the label |
| `NodeIndexes.DistinctCount` | metagraph_igraph/types.py:78 | A node index holds as many labels as it is long |
| `NodeIndexes.SameLabelsSameLength` | metagraph_igraph/types.py:78 | Indexes that pass the label-set check have the same length |
| `NodeIndexes.SameLabelsMembers` | metagraph_igraph/types.py:78-79 | Indexes that pass the label-set check contain the same labels, so every `bylabel` lookup succeeds |
| `IGraphType.Converter` | metagraph_igraph/types.py:79 | `index_converter` sends each vertex to a vertex of the target that carries the same label |
| `IGraphType.ConverterInverse` | metagraph_igraph/types.py:79 | Converting to another index and back returns each vertex to itself |
| `IGraphType.Relabel` | metagraph_igraph/types.py:80-94 | The graph the corrected rebuild produces is well formed: same vertex count, directedness and weight column, each edge renumbered through the converter |
| `IGraphType.RelabelAsWritten` | metagraph_igraph/types.py:80-94 | The graph the loop builds as written is well formed; it has the weight column only when there is an edge to carry it |
| `IGraphType.RelabelAsWrittenAgrees` | metagraph_igraph/types.py:80-94 | The rebuild as written and the corrected rebuild agree exactly when the graph has an edge or no weight attribute |
| `IGraphType.RebuildEdges` | metagraph_igraph/types.py:80-94 | The add_edge loop (corrected, see Findings) builds the graph Relabel describes: same vertex count, directedness and weights, each edge renumbered in order and stored as igraph reports it |
| `IGraphType.RebuildGraph` | metagraph_igraph/types.py:70-94 | ValueError iff the target size differs from the vertex count, or the index differs and the label sets differ; an unchanged index keeps the same graph |
| `IGraphType.SameLabelPairCompose` | metagraph_igraph/types.py:79-94 | Joining the same labels is symmetric and transitive across indexes |
| `IGraphType.SameLabelPairJoins` | metagraph_igraph/types.py:145-148 | Under one index, two edges join the same labels iff one joins the other's endpoints; for stored edges iff they are the same edge |
| `IGraphType.RebuildKeepsLabelledEdges` | metagraph_igraph/types.py:75-94 | A rebuilt graph (corrected) keeps vertex count, directedness, edge order and weights, and each edge joins the same labels as before, in either order when undirected |
| `IGraphType.RebuildRoundTrip` | metagraph_igraph/types.py:70-94 | Rebuilding (corrected) for another index and back gives the original graph, undirected graphs included |
| `IGraphType.RebuildReflectsJoins` | metagraph_igraph/types.py:80-94 | If one rebuilt edge joins another's endpoints, the original edges did too |
| `IGraphType.RebuildKeepsNoParallel` | metagraph_igraph/types.py:80-94 | A rebuild of a graph without parallel edges has none |
| `IGraphType.InitMetaOfNames` | metagraph_igraph/types.py:95-100 | Passing a wrapper's own dtype and weights by name reproduces them |
| `IGraphType.RebuildKeepsMeta` | metagraph_igraph/types.py:95-100 | The wrapper over a rebuilt graph has the original dtype and weights |
| `IGraphType.RebuildAsWrittenDropsMeta` | metagraph_igraph/types.py:80-100 | As written, a weighted graph with no edges, once reordered, is wrapped as bool/unweighted instead of str/any |
| `IGraphType.EdgeMatched` | metagraph_igraph/types.py:144-152 | Edge k of g1 is matched when `get_eid` finds an edge of g2 with the same endpoints and, when weights count, a weight equal under Python's `==` |
| `IGraphType.MatchEdges` | metagraph_igraph/types.py:143-153 | The loop answers True iff every edge of g1 is matched in g2 (AllMatched) |
| `IGraphType.Equal` | metagraph_igraph/types.py:121-153 | The answer of `compare_objects` for two IGraphs: metadata, directedness and sizes agree, the second is rebuilt for the first's index, and every edge of the first is matched in it |
| `IGraphType.EqualIsReflexive` | metagraph_igraph/types.py:117-153 | A graph without parallel edges, under an index of the right size, equals itself |
| `IGraphType.EqualUnderRelabelling` | metagraph_igraph/types.py:131-153 | A graph equals its rebuild for another index when wrapped with that index |
| `IGraphType.EqualFindsEveryEdge` | metagraph_igraph/types.py:131-153 | If equal, every edge of the first graph has a counterpart in the second: an edge joining the same labels (either order when undirected), with an equal weight unless unweighted |
| `IGraphType.EqualFromCounterparts` | metagraph_igraph/types.py:121-153 | Conversely, graphs agreeing in metadata, directedness and size, under indexes with the same labels, are equal when every edge of the first has a counterpart and the second has no parallel edges |
| `IGraphType.DistinctPositionsCover` | metagraph_igraph/types.py:129-153 | n distinct edge positions below n cover every position: as many matched edges as the second graph has edges reach all of them |
| `IGraphType.EqualIsSymmetric` | metagraph_igraph/types.py:117-153 | Without parallel edges in either graph, comparing in one order gives True iff comparing in the other order does |
| `IGraphType.EqualIffCounterparts` | metagraph_igraph/types.py:121-153 | Under those conditions, equality holds iff every edge of the first graph has a counterpart in the second |
| `IGraphType.IGraph.FromMeta` | metagraph_igraph/types.py:10-18 | The wrapper holds the graph, the settled metadata and the given node index |
| `IGraphType.IGraph.Create` | metagraph_igraph/types.py:9-18 | Construction fails exactly when metadata inference fails, with its error; otherwise a fresh wrapper with the inferred metadata |
| `IGraphType.IGraph.GetNodeIndex` | metagraph_igraph/types.py:60-64 | With none stored, the sequential index is stored and returned; a stored index is returned unchanged |
| `IGraphType.IGraph.RebuildForNodeIndex` | metagraph_igraph/types.py:66-100 | Fails as RebuildGraph does, with ValueError; otherwise a fresh wrapper over RebuildGraph's graph with the same dtype and weights and the target index; the effective index of this wrapper does not change |
| `IGraphType.IGraph.CompareObjects` | metagraph_igraph/types.py:116-153 | TypeError unless both are IGraphs; otherwise the answer is Equal of their metadata, graphs and effective indexes, which do not change |
| `Scenarios.NonNegativeInts` | metagraph_igraph/types.py:26-50 | Non-negative int values with a zero infer int and non-negative |
| `Scenarios.SampleMeta` | metagraph_igraph/tests/test_types.py:12-14 | The test graph's weights infer int and non-negative |
| `Scenarios.SampleDTypes` | metagraph_igraph/tests/test_types.py:12-23 | The weights of both test graphs infer dtype int |
| `Scenarios.OtherTargetMeta` | metagraph_igraph/tests/test_types.py:33-41 | The graph with the changed target infers int and non-negative |
| `Scenarios.ExtraEdgeMeta` | metagraph_igraph/tests/test_types.py:42-50 | The graph with the extra edge infers int and non-negative |
| `Scenarios.ReorderedMeta` | metagraph_igraph/tests/test_types.py:61-70 | The reordered graph infers int and non-negative |
| `Scenarios.CopyIsEqual` | metagraph_igraph/tests/test_types.py:13-15 | The test graph equals its copy |
| `Scenarios.OtherWeightIsUnequal` | metagraph_igraph/tests/test_types.py:21-27 | One differing weight makes the graphs unequal |
| `Scenarios.UnweightedIgnoresWeights` | metagraph_igraph/tests/test_types.py:28-32 | Declared unweighted, graphs that differ only in weight are equal |
| `Scenarios.OtherTargetIsUnequal` | metagraph_igraph/tests/test_types.py:33-41 | Changing one edge's target makes the graphs unequal |
| `Scenarios.ExtraEdgeIsUnequal` | metagraph_igraph/tests/test_types.py:42-50 | An extra edge makes the graphs unequal |
| `Scenarios.OtherWeightClassIsUnequal` | metagraph_igraph/tests/test_types.py:51-55 | Declaring "any" for one copy makes the graphs unequal by the fast path |
| `Scenarios.BcaToAbc` | metagraph_igraph/tests/test_types.py:62-68 | Node labels B, C, A convert to A, B, C positions 1, 2, 0 |
| `Scenarios.ReorderedRebuild` | metagraph_igraph/tests/test_types.py:63-69 | The B, C, A graph rebuilt for A, B, C is the expected graph |
| `Scenarios.ReorderedBackMatches` | metagraph_igraph/tests/test_types.py:56-70 | Every edge of the test graph is matched in the rebuilt reordered graph |
| `Scenarios.ReorderedIsEqual` | metagraph_igraph/tests/test_types.py:56-70 | The test graph under A, B, C equals the reordered graph under B, C, A |
| `Scenarios.UndirectedReversedIsEqual` | metagraph_igraph/types.py:80-94 | An undirected edge A–B under the index A, B equals the same graph under B, A |
| `Scenarios.ParallelEdgesBreakSymmetry` | metagraph_igraph/types.py:143-153 | With parallel edges, [(0,1),(0,1)] compares equal to [(0,1),(1,0)] but not the other way round |
| `Scenarios.NumericWeightsCompareByValue` | metagraph_igraph/types.py:141-151 | An int weight 1 equals a float weight 1.0 and a bool True, so such graphs are equal |

## Left out

- `IGraphType.IGraph.CompareObjects`: float weights are compared with exact equality, not `math.isclose` (types.py:139-140). So near-equal float weights (test_types.py:16-20) compare unequal in the model. Floating-point tolerance is out of scope.
- `IGraphType.MatchEdges`: compares weights with Python's exact `==` under every dtype, so the float tolerance is missing here too. Numeric weights of other Python types (Decimal, numpy scalars) are kept as strings, so they never equal a bool, int or float weight, where Python's `==` may say they do.
- `Metadata.InferWeights`: numeric weights of other Python types (Decimal, Fraction, numpy scalars) are kept as strings. Under an explicit int or float dtype the model raises TypeError for them, where Python's `min` and `<` accept them. Floats are reals, so NaN and infinities are not modelled.
- `Metadata.InferDType`: any value that is not a bool, int or float is kept as a string. The set at types.py:13 merges `True`, `1` and `1.0` and keeps whichever came first, so its types can differ from the kinds in the list; the model infers from every value in the list. Unhashable weights, which would make `set()` raise, are not modelled.
- `IGraphType.RebuildEdges`: models the corrected rebuild, which declares the weight attribute up front (see Findings). The source as written is `RelabelAsWritten`, and `RelabelAsWrittenAgrees` shows the two differ only for a weighted graph without edges.
- `IGraphType.RebuildKeepsLabelledEdges`: is stated about the corrected rebuild. As written, the weight column of a weighted graph without edges is dropped.
- `IGraphType.RebuildRoundTrip`: is stated about the corrected rebuild. As written, a weighted graph without edges comes back without its weight attribute.
- `IGraphType.IGraph.RebuildForNodeIndex`: uses the corrected rebuild, so a weighted graph without edges keeps its weight attribute, dtype and weights.
- `NativeGraph.AddEdge`: adding weighted and unweighted edges to the same graph is not modelled. The source never mixes them.
- `get_type` (types.py:102-114) only builds a framework type object.
- metagraph itself is not part of this model. `SequentialNodes`, `IndexedNodes`, `_verify_valid_conversion`, `DTYPE_CHOICES` and `WEIGHT_CHOICES` are modelled this way:
  - A node index is a list of distinct labels.
  - Index equality (types.py:76) is list equality.
  - The conversion check is equality of the two label sets.
  - The choices are the four names types.py itself produces.
- `IGraphType.Equal`: symmetry is proved only for graphs without parallel edges (`EqualIsSymmetric`), because the source is not symmetric otherwise (`Scenarios.ParallelEdgesBreakSymmetry`). Reflexivity is likewise proved only without parallel edges. Multi-edges follow igraph's first-match lookup.
- Active-vertex masks, node weights and mismatch diagnostics do not occur in types.py, so they are not modelled.
- The sharing of one igraph object between wrappers (types.py:75, 95) is not modelled, because graphs are values.
- translators.py, algorithms/*.py, registry.py and setup.py delegate to igraph or grblas, or do plugin registration.

## Findings

| source | as written | input that shows it | evidently intended | confidence | as-written member | corrected member |
|---|---|---|---|---|---|---|
| metagraph_igraph/types.py:80-100 | The rebuilt graph gets a "weight" attribute only from `add_edge(..., weight=...)`. A weighted graph with no edges is therefore rebuilt without one, and `IGraph.__init__` discards the dtype and weights passed at lines 97-98, resetting them to bool/unweighted | Directed graph on 2 vertices, no edges, an empty weight attribute (inferred str/any), rebuilt for the index [1, 0] | The rebuilt wrapper keeps the original dtype and weights | not executed; medium (relies on igraph creating the attribute only on first assignment) | IGraphType.RebuildAsWrittenDropsMeta | IGraphType.RebuildKeepsMeta |
