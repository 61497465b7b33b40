/**
 * Examples and datasets as the data utilities see them: an example maps feature names to values,
 * and a dataset carries, besides its examples, the static type and rank of every feature
 * (what `tf.data.get_output_types` and `get_output_shapes` report).
 */
module Features {

  datatype DType = String | Int64

  /** Static description of one feature: element type and rank (number of dimensions). */
  datatype FeatureSpec = FeatureSpec(dtype: DType, rank: nat)

  /** A feature value: a string scalar, a token-id vector, or an integer scalar. */
  datatype Value = Text(s: string) | Tokens(ids: seq<int>) | Scalar(n: int)

  function SpecOf(v: Value): FeatureSpec {
    match v
    case Text(_) => FeatureSpec(String, 0)
    case Tokens(_) => FeatureSpec(Int64, 1)
    case Scalar(_) => FeatureSpec(Int64, 0)
  }

  type Example = map<string, Value>

  type Spec = map<string, FeatureSpec>

  predicate Conforms(ex: Example, spec: Spec) {
    ex.Keys == spec.Keys && forall k :: k in ex ==> SpecOf(ex[k]) == spec[k]
  }

  datatype RawDataset = RawDataset(spec: Spec, examples: seq<Example>)

  predicate WellTyped(d: RawDataset) {
    forall i :: 0 <= i < |d.examples| ==> Conforms(d.examples[i], d.spec)
  }

  /** A dataset's examples always have the dataset's static types, as in the tensor runtime. */
  type Dataset = d: RawDataset | WellTyped(d) witness RawDataset(map[], [])

  /** `filter_features`: keeps exactly the keys that are listed features. */
  function FilterFeatures(ex: Example, features: seq<string>): (r: Example)
    ensures forall k :: k in r <==> k in ex && k in features
    ensures forall k :: k in r ==> r[k] == ex[k]
  {
    map k | k in ex && k in features :: ex[k]
  }

  /** `filter_features` mapped over a dataset; the static types are projected with the examples. */
  function ProjectDataset(d: Dataset, features: seq<string>): (r: Dataset)
    ensures |r.examples| == |d.examples|
    ensures forall i :: 0 <= i < |d.examples| ==> r.examples[i] == FilterFeatures(d.examples[i], features)
  {
    var spec := map k | k in d.spec && k in features :: d.spec[k];
    var examples := seq(|d.examples|, i requires 0 <= i < |d.examples| => FilterFeatures(d.examples[i], features));
    assert WellTyped(RawDataset(spec, examples)) by {
      forall i | 0 <= i < |examples| ensures Conforms(examples[i], spec) {
        assert Conforms(d.examples[i], d.spec);
      }
    }
    RawDataset(spec, examples)
  }
}
