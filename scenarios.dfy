/** The wrapper's own test scenarios (metagraph_igraph/tests/test_types.py),
    stated as facts about the model. The graph is
        A [1 2  ]
        B [  0 3]
        C [  3  ]
    as a directed graph over vertices 0, 1, 2 with int weights. */
module Scenarios {
  import opened Wrappers
  import opened NativeGraph
  import opened NodeIndexes
  import opened Metadata
  import opened IGraphType

  function Sample(): Graph {
    Graph(3, true, [Edge(0, 0), Edge(0, 1), Edge(1, 1), Edge(1, 2), Edge(2, 1)],
          Some([I(1), I(2), I(0), I(3), I(3)]))
  }

  /** The sample graph with the weight of edge (0, 1) changed to 3. */
  function SampleOtherWeight(): Graph {
    Graph(3, true, [Edge(0, 0), Edge(0, 1), Edge(1, 1), Edge(1, 2), Edge(2, 1)],
          Some([I(1), I(3), I(0), I(3), I(3)]))
  }

  /** The sample graph with edge (2, 1) turned into (2, 0). */
  function SampleOtherTarget(): Graph {
    Graph(3, true, [Edge(0, 0), Edge(0, 1), Edge(1, 1), Edge(1, 2), Edge(2, 0)],
          Some([I(1), I(2), I(0), I(3), I(3)]))
  }

  /** The sample graph with an extra edge (2, 0) of weight 0. */
  function SampleExtraEdge(): Graph {
    Graph(3, true, [Edge(0, 0), Edge(0, 1), Edge(1, 1), Edge(1, 2), Edge(2, 1), Edge(2, 0)],
          Some([I(1), I(2), I(0), I(3), I(3), I(0)]))
  }

  /** The sample graph laid out for the node order B, C, A. */
  function SampleReordered(): Graph {
    Graph(3, true, [Edge(0, 0), Edge(0, 1), Edge(1, 0), Edge(2, 0), Edge(2, 2)],
          Some([I(0), I(3), I(3), I(2), I(1)]))
  }

  function Abc(): NodeIndex {
    [StrLabel("A"), StrLabel("B"), StrLabel("C")]
  }

  function Bca(): NodeIndex {
    [StrLabel("B"), StrLabel("C"), StrLabel("A")]
  }

  /** Int values, none negative and one zero, are "int" and "non-negative". */
  lemma NonNegativeInts(vals: seq<Val>)
    requires vals != [] && forall k | 0 <= k < |vals| :: vals[k].I? && vals[k].i >= 0
    requires exists k | 0 <= k < |vals| :: vals[k] == I(0)
    ensures InferDType(vals) == Int
    ensures InferWeights(Int, vals) == Ok(NonNegative)
  {
    assert Kinds(vals) == {Int};
    var z :| 0 <= z < |vals| && vals[z] == I(0);
    assert Magnitude(vals[z]) == 0.0;
    NumericWeightsDescribeValues(Int, vals);
  }

  /** Int weights with minimum 0 are inferred as "int" and "non-negative". */
  lemma SampleMeta()
    ensures InitMeta(Sample(), None, None) == Ok(Meta(Int, NonNegative))
    ensures InitMeta(SampleOtherWeight(), None, None) == Ok(Meta(Int, NonNegative))
  {
    assert Sample().weight.value[2] == I(0);
    NonNegativeInts(Sample().weight.value);
    assert SampleOtherWeight().weight.value[2] == I(0);
    NonNegativeInts(SampleOtherWeight().weight.value);
  }

  /** The graphs the tests compare against the sample, built without a dtype
      or weight class, are inferred "int" and "non-negative" as well. */
  lemma OtherTargetMeta()
    ensures InitMeta(SampleOtherTarget(), None, None) == Ok(Meta(Int, NonNegative))
  {
    assert SampleOtherTarget().weight.value[2] == I(0);
    NonNegativeInts(SampleOtherTarget().weight.value);
  }

  lemma ExtraEdgeMeta()
    ensures InitMeta(SampleExtraEdge(), None, None) == Ok(Meta(Int, NonNegative))
  {
    assert SampleExtraEdge().weight.value[2] == I(0);
    NonNegativeInts(SampleExtraEdge().weight.value);
  }

  lemma ReorderedMeta()
    ensures InitMeta(SampleReordered(), None, None) == Ok(Meta(Int, NonNegative))
  {
    assert SampleReordered().weight.value[0] == I(0);
    NonNegativeInts(SampleReordered().weight.value);
  }

  /** A graph compares equal to its copy. */
  lemma CopyIsEqual()
    ensures Equal(Meta(Int, NonNegative), Sample(), Sequential(3),
                  Meta(Int, NonNegative), Sample(), Sequential(3))
  {
    EqualIsReflexive(Meta(Int, NonNegative), Sample(), Sequential(3));
  }

  /** One differing weight makes the graphs unequal. */
  lemma OtherWeightIsUnequal()
    ensures !Equal(Meta(Int, NonNegative), Sample(), Sequential(3),
                   Meta(Int, NonNegative), SampleOtherWeight(), Sequential(3))
  {
    var g2 := SampleOtherWeight();
    assert Joins(g2, 1, 0, 1);
    assert GetEid(g2, 0, 1) == Some(1);
    assert !EdgeMatched(Sample(), g2, 1, true);
  }

  /** Both sample weight lists infer "int". */
  lemma SampleDTypes()
    ensures InferDType(Sample().weight.value) == Int
    ensures InferDType(SampleOtherWeight().weight.value) == Int
  {
    SampleMeta();
  }

  /** Declared "unweighted", the two graphs are equal whatever their weights. */
  lemma UnweightedIgnoresWeights()
    ensures InitMeta(Sample(), Some("unweighted"), None) == Ok(Meta(Int, Unweighted))
    ensures InitMeta(SampleOtherWeight(), Some("unweighted"), None) == Ok(Meta(Int, Unweighted))
    ensures Equal(Meta(Int, Unweighted), Sample(), Sequential(3),
                  Meta(Int, Unweighted), SampleOtherWeight(), Sequential(3))
  {
    SampleDTypes();
    var g1, g2 := Sample(), SampleOtherWeight();
    forall k | 0 <= k < |g1.edges|
      ensures EdgeMatched(g1, g2, k, false)
    {
      GetEidOwnEdge(g2, k);
    }
  }

  /** Changing the target of one edge makes the graphs unequal. */
  lemma OtherTargetIsUnequal()
    ensures !Equal(Meta(Int, NonNegative), Sample(), Sequential(3),
                   Meta(Int, NonNegative), SampleOtherTarget(), Sequential(3))
  {
    assert GetEid(SampleOtherTarget(), 2, 1) == None;
    assert !EdgeMatched(Sample(), SampleOtherTarget(), 4, true);
  }

  /** An extra edge makes the graphs unequal. */
  lemma ExtraEdgeIsUnequal()
    ensures !Equal(Meta(Int, NonNegative), Sample(), Sequential(3),
                   Meta(Int, NonNegative), SampleExtraEdge(), Sequential(3))
  {
  }

  /** Declaring "any" for one of two identical graphs makes them unequal. */
  lemma OtherWeightClassIsUnequal()
    ensures InitMeta(Sample(), Some("any"), None) == Ok(Meta(Int, Any))
    ensures !Equal(Meta(Int, NonNegative), Sample(), Sequential(3),
                   Meta(Int, Any), Sample(), Sequential(3))
  {
    SampleDTypes();
  }

  /** The reordered graph renumbered from B, C, A back to A, B, C. */
  function ReorderedBack(): Graph {
    Graph(3, true, [Edge(1, 1), Edge(1, 2), Edge(2, 1), Edge(0, 1), Edge(0, 0)],
          Some([I(0), I(3), I(3), I(2), I(1)]))
  }

  lemma BcaToAbc()
    ensures SameLabels(Bca(), Abc())
    ensures Converter(Bca(), Abc()) == [1, 2, 0]
  {
    var a, b := Abc(), Bca();
    assert Labels(a) == Labels(b);
    var conv := Converter(b, a);
    assert a[conv[0]] == b[0] && a[conv[1]] == b[1] && a[conv[2]] == b[2];
  }

  lemma ReorderedRebuild()
    ensures RebuildGraph(SampleReordered(), Bca(), Abc()) == Ok(ReorderedBack())
  {
    BcaToAbc();
    assert Bca() != Abc() by {
      assert Bca()[0] != Abc()[0];
    }
    var r := Relabel(SampleReordered(), [1, 2, 0]);
    assert r.edges == ReorderedBack().edges;
  }

  lemma ReorderedBackMatches(k: nat)
    requires k < 5
    ensures EdgeMatched(Sample(), ReorderedBack(), k, true)
  {
    var h := ReorderedBack();
    assert NoParallel(h);
    var j := if k == 0 then 4 else if k == 1 then 3 else k - 2;
    GetEidOwnEdge(h, j);
  }

  /** The sample graph under node labels A, B, C equals the reordered graph
      under B, C, A. */
  lemma ReorderedIsEqual()
    ensures Equal(Meta(Int, NonNegative), Sample(), Abc(),
                  Meta(Int, NonNegative), SampleReordered(), Bca())
  {
    ReorderedRebuild();
    forall k | 0 <= k < 5
      ensures EdgeMatched(Sample(), ReorderedBack(), k, true)
    {
      ReorderedBackMatches(k);
    }
  }

  /** An undirected edge between A and B, stored as (0, 1), describes the
      same graph under the index B, A: rebuilding for A, B adds it as (1, 0),
      which igraph reports as (0, 1) again. */
  lemma UndirectedReversedIsEqual()
    ensures var g := Graph(2, false, [Edge(0, 1)], None);
      Equal(Meta(Bool, Unweighted), g, [StrLabel("A"), StrLabel("B")],
            Meta(Bool, Unweighted), g, [StrLabel("B"), StrLabel("A")])
  {
    var g := Graph(2, false, [Edge(0, 1)], None);
    var ab: NodeIndex := [StrLabel("A"), StrLabel("B")];
    var ba: NodeIndex := [StrLabel("B"), StrLabel("A")];
    assert Labels(ab) == Labels(ba) == {StrLabel("A"), StrLabel("B")};
    assert Counterpart(g, ab, 0, g, ba, 0, false);
    EqualFromCounterparts(Meta(Bool, Unweighted), g, ab, g, ba);
  }

  /** Weights are compared with Python's `==`: an int weight 1 equals a float
      weight 1.0 and a bool True, so the graphs are equal. */
  lemma NumericWeightsCompareByValue()
    ensures Equal(Meta(Int, Positive), Graph(2, true, [Edge(0, 1)], Some([I(1)])), Sequential(2),
                  Meta(Int, Positive), Graph(2, true, [Edge(0, 1)], Some([F(1.0)])), Sequential(2))
    ensures Equal(Meta(Int, Positive), Graph(2, true, [Edge(0, 1)], Some([I(1)])), Sequential(2),
                  Meta(Int, Positive), Graph(2, true, [Edge(0, 1)], Some([B(true)])), Sequential(2))
  {
    assert GetEid(Graph(2, true, [Edge(0, 1)], Some([F(1.0)])), 0, 1) == Some(0);
    assert GetEid(Graph(2, true, [Edge(0, 1)], Some([B(true)])), 0, 1) == Some(0);
  }

  /** With parallel edges the comparison is not symmetric: every edge of
      [(0, 1), (0, 1)] is found in [(0, 1), (1, 0)], but the edge (1, 0) of the
      second is not found in the first. */
  lemma ParallelEdgesBreakSymmetry()
    ensures Equal(Meta(Bool, Unweighted), Graph(2, true, [Edge(0, 1), Edge(0, 1)], None), Sequential(2),
                  Meta(Bool, Unweighted), Graph(2, true, [Edge(0, 1), Edge(1, 0)], None), Sequential(2))
    ensures !Equal(Meta(Bool, Unweighted), Graph(2, true, [Edge(0, 1), Edge(1, 0)], None), Sequential(2),
                   Meta(Bool, Unweighted), Graph(2, true, [Edge(0, 1), Edge(0, 1)], None), Sequential(2))
  {
    var g1 := Graph(2, true, [Edge(0, 1), Edge(0, 1)], None);
    var g2 := Graph(2, true, [Edge(0, 1), Edge(1, 0)], None);
    assert GetEid(g2, 0, 1) == Some(0);
    assert GetEid(g1, 1, 0) == None;
    assert !EdgeMatched(g2, g1, 1, false);
  }
}
