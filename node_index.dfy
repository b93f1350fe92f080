/** metagraph's node index, as the wrapper uses it: an ordered list of
    distinct node labels, position i carrying the label of vertex i. */
module NodeIndexes {

  /** `SequentialNodes` labels vertex i with the integer i; `IndexedNodes`
      takes any labels, here integers or strings. */
  datatype Label = IntLabel(i: int) | StrLabel(s: string)

  predicate Distinct(s: seq<Label>) {
    forall i, j | 0 <= i < j < |s| :: s[i] != s[j]
  }

  /** A node index never holds a label twice. */
  type NodeIndex = s: seq<Label> | Distinct(s)

  /** `SequentialNodes(n)`: the labels 0 .. n-1 in order. */
  function Sequential(n: nat): (r: NodeIndex)
    ensures |r| == n
    ensures forall i | 0 <= i < n :: r[i] == IntLabel(i)
  {
    seq(n, i => IntLabel(i))
  }

  /** The set of labels an index holds. */
  function Labels(idx: seq<Label>): set<Label> {
    set l | l in idx
  }

  /** `a._verify_valid_conversion(b)` succeeds: both indexes hold the same labels. */
  predicate SameLabels(a: NodeIndex, b: NodeIndex) {
    Labels(a) == Labels(b)
  }

  /** Same label sets means the same membership, label by label. */
  lemma SameLabelsMembers(a: NodeIndex, b: NodeIndex)
    requires SameLabels(a, b)
    ensures forall l :: l in a <==> l in b
  {
    forall l
      ensures l in a <==> l in b
    {
      assert l in a <==> l in Labels(a);
      assert l in b <==> l in Labels(b);
    }
  }

  /** `idx.bylabel(l)`: the position of label l. */
  function Position(idx: NodeIndex, l: Label): (p: nat)
    requires l in idx
    ensures p < |idx| && idx[p] == l
    ensures forall q | 0 <= q < |idx| && idx[q] == l :: q == p
  {
    if idx[|idx| - 1] == l then |idx| - 1 else Position(idx[..|idx| - 1], l)
  }

  /** A list of distinct labels holds as many labels as it is long. */
  lemma {:induction false} DistinctCount(s: NodeIndex)
    ensures |Labels(s)| == |s|
  {
    if s != [] {
      var rest: NodeIndex := s[1..];
      DistinctCount(rest);
      assert Labels(s) == {s[0]} + Labels(rest);
      assert s[0] !in Labels(rest);
    }
  }

  /** Two indexes with the same labels have the same length. */
  lemma SameLabelsSameLength(a: NodeIndex, b: NodeIndex)
    requires SameLabels(a, b)
    ensures |a| == |b|
  {
    DistinctCount(a);
    DistinctCount(b);
  }
}
