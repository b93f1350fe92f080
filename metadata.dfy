/** The wrapper's edge metadata: the dtype of the weights and the class of
    weights, each either given by the caller (and then only validated) or
    inferred from the set of weight values (`IGraph._determine_dtype`,
    `IGraph._determine_weights`, and the choice made in `IGraph.__init__`). */
module Metadata {
  import opened Wrappers
  import opened NativeGraph

  datatype DType = Bool | Int | Float | Str

  datatype Weights = Unweighted | NonNegative | Positive | Any

  /** What the wrapper records about a graph's edges. */
  datatype Meta = Meta(dtype: DType, weights: Weights)

  function DTypeName(d: DType): string {
    match d
    case Bool => "bool"
    case Int => "int"
    case Float => "float"
    case Str => "str"
  }

  function WeightsName(w: Weights): string {
    match w
    case Unweighted => "unweighted"
    case NonNegative => "non-negative"
    case Positive => "positive"
    case Any => "any"
  }

  /** metagraph's DTYPE_CHOICES and WEIGHT_CHOICES: the names above. */
  const DTypeChoices: set<string> := {"bool", "int", "float", "str"}
  const WeightChoices: set<string> := {"unweighted", "non-negative", "positive", "any"}

  /** The dtype a caller's string names, if it is one of the choices. */
  function ParseDType(s: string): (r: Option<DType>)
    ensures r.Some? <==> s in DTypeChoices
    ensures r.Some? ==> DTypeName(r.value) == s
  {
    if s == "bool" then Some(Bool)
    else if s == "int" then Some(Int)
    else if s == "float" then Some(Float)
    else if s == "str" then Some(Str)
    else None
  }

  /** The weight class a caller's string names, if it is one of the choices. */
  function ParseWeights(s: string): (r: Option<Weights>)
    ensures r.Some? <==> s in WeightChoices
    ensures r.Some? ==> WeightsName(r.value) == s
  {
    if s == "unweighted" then Some(Unweighted)
    else if s == "non-negative" then Some(NonNegative)
    else if s == "positive" then Some(Positive)
    else if s == "any" then Some(Any)
    else None
  }

  /** Naming a dtype or weight class and reading the name back gives it again. */
  lemma NamesRoundTrip(d: DType, w: Weights)
    ensures ParseDType(DTypeName(d)) == Some(d)
    ensures ParseWeights(WeightsName(w)) == Some(w)
  {
  }

  /** The Python type of a value, as the dtype that names it. */
  function KindOf(v: Val): DType {
    match v
    case B(_) => Bool
    case I(_) => Int
    case F(_) => Float
    case S(_) => Str
  }

  /** The order bool < int < float < str in which each dtype can hold the values of the one before. */
  function Rank(d: DType): nat {
    match d
    case Bool => 0
    case Int => 1
    case Float => 2
    case Str => 3
  }

  predicate Fits(v: Val, d: DType) {
    Rank(KindOf(v)) <= Rank(d)
  }

  /** `{type(v) for v in all_values}`. */
  function Kinds(vals: seq<Val>): (r: set<DType>)
    ensures forall k | 0 <= k < |vals| :: KindOf(vals[k]) in r
    ensures forall d | d in r :: exists k | 0 <= k < |vals| :: KindOf(vals[k]) == d
  {
    set v | v in vals :: KindOf(v)
  }

  /** The dtype inferred from the weight values: "str" when there are none or
      one is not a bool, int or float; otherwise the first of float, int, bool
      present. */
  function InferDType(vals: seq<Val>): (r: DType)
    ensures forall k | 0 <= k < |vals| :: Fits(vals[k], r)
  {
    var kinds := Kinds(vals);
    assert Str in kinds ==> Str in kinds - {Float, Int, Bool};
    if kinds == {} || kinds - {Float, Int, Bool} != {} then Str
    else if Float in kinds then Float
    else if Int in kinds then Int
    else Bool
  }

  /** The inferred dtype is the least dtype that holds every value, and "str" for no values. */
  lemma InferDTypeIsLeastFit(vals: seq<Val>, d: DType)
    requires forall k | 0 <= k < |vals| :: Fits(vals[k], d)
    ensures vals == [] ==> InferDType(vals) == Str
    ensures vals != [] ==> Rank(InferDType(vals)) <= Rank(d)
  {
    if vals != [] {
      var r := InferDType(vals);
      assert KindOf(vals[0]) in Kinds(vals);
      if r != Bool {
        var k :| 0 <= k < |vals| && KindOf(vals[k]) == r;
        assert Fits(vals[k], d);
      }
    }
  }

  /** `_determine_dtype`: a given dtype is returned as it is when it is one of
      the choices and raises ValueError otherwise; no dtype means infer it. */
  function DetermineDType(given: Option<string>, vals: seq<Val>): (r: Result<DType>)
    ensures given.Some? ==> (r.Ok? <==> given.value in DTypeChoices)
    ensures given.Some? && r.Ok? ==> DTypeName(r.value) == given.value
    ensures r.Err? ==> r.error == ValueError
    ensures given.None? ==> r == Ok(InferDType(vals))
    ensures given.None? ==> r.Ok? && forall k | 0 <= k < |vals| :: Fits(vals[k], r.value)
  {
    match given
    case Some(s) => if s in DTypeChoices then Ok(ParseDType(s).value) else Err(ValueError)
    case None => Ok(InferDType(vals))
  }

  /** The numeric value Python compares a bool, int or float by. */
  function Magnitude(v: Val): real
    requires !v.S?
  {
    match v
    case B(b) => if b then 1.0 else 0.0
    case I(i) => i as real
    case F(x) => x
  }

  /** Python's `==` on weight values: bools, ints and floats by numeric
      value (so `True == 1 == 1.0`), strings by content, a string never equal
      to a number. */
  predicate PyEq(a: Val, b: Val) {
    if !a.S? && !b.S? then Magnitude(a) == Magnitude(b) else a == b
  }

  predicate Numeric(vals: seq<Val>) {
    forall v | v in vals :: !v.S?
  }

  /** `min(all_values)` over bools, ints and floats. */
  function MinValue(vals: seq<Val>): (m: real)
    requires vals != [] && Numeric(vals)
    ensures exists k | 0 <= k < |vals| :: Magnitude(vals[k]) == m
    ensures forall k | 0 <= k < |vals| :: m <= Magnitude(vals[k])
  {
    if |vals| == 1 then Magnitude(vals[0])
    else
      var rest := MinValue(vals[1..]);
      if Magnitude(vals[0]) < rest then Magnitude(vals[0]) else rest
  }

  /** The set of values equals `{True}`, equivalently `{1}`: there is a value
      and every value is Python-equal to 1. */
  predicate AllOne(vals: seq<Val>) {
    vals != [] && forall v | v in vals :: PyEq(v, I(1))
  }

  /** The weight class inferred for a dtype from the weight values. Under a
      numeric dtype, `min` raises ValueError on no values and a str value
      raises TypeError when compared with a number. */
  function InferWeights(dtype: DType, vals: seq<Val>): (r: Result<Weights>)
    ensures r.Err? <==> (dtype == Int || dtype == Float) && (vals == [] || !Numeric(vals))
    ensures r.Err? ==> (r.error == ValueError <==> vals == [])
  {
    if dtype == Str then Ok(Any)
    else if dtype == Bool then
      if AllOne(vals) then Ok(Unweighted) else Ok(NonNegative)
    else if vals == [] then
      assert dtype == Int || dtype == Float;
      Err(ValueError)
    else if !Numeric(vals) then Err(TypeError)
    else
      var m := MinValue(vals);
      if m < 0.0 then Ok(Any)
      else if m == 0.0 then Ok(NonNegative)
      else if dtype == Int && AllOne(vals) then Ok(Unweighted)
      else Ok(Positive)
  }

  /** Under a numeric dtype the inferred weight class describes the values:
      "any" exactly when one is negative, "non-negative" exactly when none is
      and one is zero, "unweighted" exactly when the dtype is int and every
      value equals 1 (True, 1 and 1.0 alike), and "positive" for every other case of all values above
      zero (a float dtype whose values are all 1.0 included). */
  lemma NumericWeightsDescribeValues(dtype: DType, vals: seq<Val>)
    requires (dtype == Int || dtype == Float) && vals != [] && Numeric(vals)
    ensures InferWeights(dtype, vals).Ok?
    ensures InferWeights(dtype, vals).value == Any
        <==> exists k | 0 <= k < |vals| :: Magnitude(vals[k]) < 0.0
    ensures InferWeights(dtype, vals).value == NonNegative
        <==> (forall k | 0 <= k < |vals| :: Magnitude(vals[k]) >= 0.0)
             && exists k | 0 <= k < |vals| :: Magnitude(vals[k]) == 0.0
    ensures InferWeights(dtype, vals).value == Unweighted <==> dtype == Int && AllOne(vals)
    ensures InferWeights(dtype, vals).value == Positive
        <==> (forall k | 0 <= k < |vals| :: Magnitude(vals[k]) > 0.0)
             && !(dtype == Int && AllOne(vals))
  {
    var m := MinValue(vals);
    var k0 :| 0 <= k0 < |vals| && Magnitude(vals[k0]) == m;
    if AllOne(vals) {
      assert vals[k0] in vals;
    }
  }

  /** Under a bool dtype the class is "unweighted" exactly when every value
      equals True (1 and 1.0 alike), and "non-negative" otherwise; under "str" it is always "any". */
  lemma BoolAndStrWeights(vals: seq<Val>)
    ensures InferWeights(Bool, vals) == (if AllOne(vals) then Ok(Unweighted) else Ok(NonNegative))
    ensures InferWeights(Str, vals) == Ok(Any)
  {
  }

  /** `_determine_weights`: a given class is returned as it is when it is one
      of the choices and raises ValueError otherwise; no class means infer it
      for the dtype already determined. */
  function DetermineWeights(given: Option<string>, dtype: DType, vals: seq<Val>): (r: Result<Weights>)
    ensures given.Some? ==> (r.Ok? <==> given.value in WeightChoices)
    ensures given.Some? && r.Ok? ==> WeightsName(r.value) == given.value
    ensures given.Some? && r.Err? ==> r.error == ValueError
    ensures given.None? ==> r == InferWeights(dtype, vals)
  {
    match given
    case Some(s) => if s in WeightChoices then Ok(ParseWeights(s).value) else Err(ValueError)
    case None => InferWeights(dtype, vals)
  }

  /** The metadata every wrapper satisfies: a graph without a weight attribute
      is "bool" and "unweighted". */
  predicate MetaFits(g: Graph, m: Meta) {
    !IsWeighted(g) ==> m == Meta(Bool, Unweighted)
  }

  /** The metadata `IGraph.__init__` settles on: for a graph without weights,
      "bool" and "unweighted" whatever the caller gave; otherwise the dtype,
      then the weight class determined from the set of weight values. */
  function InitMeta(g: Graph, weights: Option<string>, dtype: Option<string>): (r: Result<Meta>)
    ensures !IsWeighted(g) ==> r == Ok(Meta(Bool, Unweighted))
    ensures IsWeighted(g) && dtype.Some? && dtype.value !in DTypeChoices ==> r == Err(ValueError)
    ensures IsWeighted(g) && DetermineDType(dtype, g.weight.value).Ok? && weights.Some? ==>
              (r.Ok? <==> weights.value in WeightChoices)
    ensures IsWeighted(g) && weights.Some? && r.Err? ==> r.error == ValueError
    ensures IsWeighted(g) && r.Ok? && dtype.Some? ==> DTypeName(r.value.dtype) == dtype.value
    ensures IsWeighted(g) && r.Ok? && weights.Some? ==> WeightsName(r.value.weights) == weights.value
    ensures IsWeighted(g) && dtype.None? ==> r.Err? || r.value.dtype == InferDType(g.weight.value)
    ensures IsWeighted(g) && weights.None? && DetermineDType(dtype, g.weight.value).Ok? ==>
              var inferred := InferWeights(DetermineDType(dtype, g.weight.value).value, g.weight.value);
              && (r.Ok? <==> inferred.Ok?)
              && (r.Ok? ==> r.value.weights == inferred.value)
              && (r.Err? ==> r.error == inferred.error)
    ensures r.Ok? ==> MetaFits(g, r.value)
  {
    if !IsWeighted(g) then Ok(Meta(Bool, Unweighted))
    else
      var vals := g.weight.value;
      var d :- DetermineDType(dtype, vals);
      var w :- DetermineWeights(weights, d, vals);
      Ok(Meta(d, w))
  }

  /** The values as a Python set. */
  function ValueSet(vals: seq<Val>): set<Val> {
    set v | v in vals
  }

  /** Two lists with the same set of values hold the same values. */
  lemma SameElements(a: seq<Val>, b: seq<Val>)
    requires ValueSet(a) == ValueSet(b)
    ensures forall v :: v in a <==> v in b
  {
    forall v
      ensures v in a <==> v in b
    {
      assert v in a <==> v in ValueSet(a);
      assert v in b <==> v in ValueSet(b);
    }
  }

  /** Lists with the same values have the same minimum. */
  lemma MinValueOfSameElements(a: seq<Val>, b: seq<Val>)
    requires forall v :: v in a <==> v in b
    requires a != [] && Numeric(a) && b != [] && Numeric(b)
    ensures MinValue(a) == MinValue(b)
  {
    var ka :| 0 <= ka < |a| && Magnitude(a[ka]) == MinValue(a);
    var kb :| 0 <= kb < |b| && Magnitude(b[kb]) == MinValue(b);
    assert a[ka] in b;
    assert b[kb] in a;
  }

  lemma InferDTypeOfSameElements(a: seq<Val>, b: seq<Val>)
    requires forall v :: v in a <==> v in b
    ensures InferDType(a) == InferDType(b)
  {
    assert Kinds(a) == Kinds(b);
  }

  lemma InferWeightsOfSameElements(a: seq<Val>, b: seq<Val>, dtype: DType)
    requires forall v :: v in a <==> v in b
    ensures InferWeights(dtype, a) == InferWeights(dtype, b)
  {
    assert a != [] ==> a[0] in b;
    assert b != [] ==> b[0] in a;
    assert Numeric(a) == Numeric(b);
    if (dtype == Int || dtype == Float) && a != [] && Numeric(a) {
      MinValueOfSameElements(a, b);
      assert AllOne(a) == AllOne(b);
    } else if dtype == Bool {
      assert AllOne(a) == AllOne(b);
    }
  }

  /** Inference reads the values only as a set: order and repetition do not matter. */
  lemma InferenceDependsOnSet(a: seq<Val>, b: seq<Val>, dtype: DType)
    requires ValueSet(a) == ValueSet(b)
    ensures InferDType(a) == InferDType(b)
    ensures InferWeights(dtype, a) == InferWeights(dtype, b)
  {
    SameElements(a, b);
    InferDTypeOfSameElements(a, b);
    InferWeightsOfSameElements(a, b, dtype);
  }
}
