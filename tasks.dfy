/**
 * `Task`: a TFDS dataset with its preprocessing stages, output-feature contract and the state of
 * its pre-tokenized cache; and `TaskRegistry.add`.
 */
module Tasks {
  import opened Wrappers
  import opened Strings
  import opened Features
  import opened Environment
  import opened Loader
  import opened Encoding
  import opened Registries

  const DefaultFeatureKeys: seq<string> := ["inputs", "targets"]

  /** The end-of-sequence token id. */
  const Eos: int := 1

  // ---------------------------------------------------------------------------------------------
  // Task names

  /** `[\w\d\._]`, restricted to ASCII. */
  predicate NameChar(c: char) {
    'a' <= c <= 'z' || 'A' <= c <= 'Z' || '0' <= c <= '9' || c == '_' || c == '.'
  }

  /** How many characters the greedy `[\w\d\._]+` consumes at the start of `s`. */
  function NameRun(s: string): (n: nat)
    ensures n <= |s|
    ensures forall i :: 0 <= i < n ==> NameChar(s[i])
    ensures n < |s| ==> !NameChar(s[n])
  {
    if s == [] || !NameChar(s[0]) then 0 else 1 + NameRun(s[1..])
  }

  /**
   * `_VALID_TASK_NAME_REGEX.match(name)` as written, `^[\w\d\._]+$`: Python's `$` matches at the
   * end of the string and also just before a newline that ends it.
   */
  predicate MatchesNamePatternAsWritten(s: string) {
    var n := NameRun(s);
    n >= 1 && (n == |s| || (n == |s| - 1 && s[n] == '\n'))
  }

  /** The intended rule: the whole name is one or more name characters. */
  predicate ValidTaskName(s: string) {
    NameRun(s) >= 1 && NameRun(s) == |s|
  }

  lemma ValidTaskNameChars(s: string)
    ensures ValidTaskName(s) <==> |s| > 0 && forall i :: 0 <= i < |s| ==> NameChar(s[i])
  {
  }

  /** Names holding a space or a slash are refused. */
  lemma SpaceOrSlashRejected(s: string)
    requires ' ' in s || '/' in s
    ensures !ValidTaskName(s)
  {
    var i :| 0 <= i < |s| && (s[i] == ' ' || s[i] == '/');
    assert !NameChar(s[i]);
    ValidTaskNameChars(s);
  }

  /** The written pattern accepts exactly the valid names and the valid names followed by one newline. */
  lemma AsWrittenAcceptsTrailingNewline(s: string)
    ensures MatchesNamePatternAsWritten(s) <==>
      ValidTaskName(s) || (|s| >= 2 && s[|s| - 1] == '\n' && ValidTaskName(s[..|s| - 1]))
  {
    ValidTaskNameChars(s);
    if |s| >= 2 {
      var t := s[..|s| - 1];
      ValidTaskNameChars(t);
      if s[|s| - 1] == '\n' && ValidTaskName(t) {
        assert forall i :: 0 <= i < |t| ==> NameChar(s[i]);
        assert !NameChar(s[|s| - 1]);
      }
      if MatchesNamePatternAsWritten(s) && NameRun(s) == |s| - 1 {
        assert forall i :: 0 <= i < |t| ==> NameChar(t[i]);
      }
    }
  }

  /** "glue\n" passes the written check although it is not a valid name. */
  lemma TrailingNewlineAccepted()
    ensures MatchesNamePatternAsWritten("glue\n") && !ValidTaskName("glue\n")
  {
    assert !NameChar("glue\n"[4]);
    ValidTaskNameChars("glue\n");
    AsWrittenAcceptsTrailingNewline("glue\n");
    assert "glue\n"[..4] == "glue";
    ValidTaskNameChars("glue");
  }

  /** The argument checks at the top of `Task.__init__`, in their order. */
  function CheckTaskArgs(name: string, tfdsName: string): (r: Outcome)
    ensures r.Pass? <==> ValidTaskName(name) && ':' in tfdsName
    ensures !ValidTaskName(name) ==> r == Fail(InvalidTaskName(name))
    ensures ValidTaskName(name) && ':' !in tfdsName ==> r == Fail(MissingVersion(tfdsName))
  {
    if !ValidTaskName(name) then Fail(InvalidTaskName(name))
    else if ':' !in tfdsName then Fail(MissingVersion(tfdsName))
    else Pass
  }

  /** `sorted(set(output_features or _DEFAULT_FEATURE_KEYS))`. */
  function OutputFeatures(given: Option<seq<string>>): (r: seq<string>)
    ensures StrictlySorted(r) && |r| > 0
    ensures given.Some? && given.value != [] ==> forall f :: f in r <==> f in given.value
    ensures given.None? || given.value == [] ==> forall f :: f in r <==> f == "inputs" || f == "targets"
  {
    var listed := if given.Some? && given.value != [] then given.value else DefaultFeatureKeys;
    assert listed[0] in SortedUnique(listed);
    SortedUnique(listed)
  }

  // ---------------------------------------------------------------------------------------------
  // Pipeline stages

  type Preprocessor = Dataset -> Dataset

  /** A token preprocessor also receives the sequence lengths and the vocabulary. */
  type TokenPreprocessor = (Dataset, map<string, int>, Vocabulary) -> Dataset

  /** `_preprocess_dataset`: applies the functions one after another, in list order. */
  function ApplyAll(fs: seq<Preprocessor>, d: Dataset): Dataset
    decreases |fs|
  {
    if fs == [] then d else ApplyAll(fs[1..], fs[0](d))
  }

  lemma {:induction false} ApplyAllInOrder(a: seq<Preprocessor>, b: seq<Preprocessor>, d: Dataset)
    ensures ApplyAll(a + b, d) == ApplyAll(b, ApplyAll(a, d))
    decreases |a|
  {
    if a != [] {
      assert (a + b)[0] == a[0] && (a + b)[1..] == a[1..] + b;
      ApplyAllInOrder(a[1..], b, a[0](d));
    } else {
      assert a + b == b;
    }
  }

  function BindTokenPreprocessor(tp: TokenPreprocessor, sequenceLength: map<string, int>, vocab: Vocabulary): Preprocessor {
    (d: Dataset) => tp(d, sequenceLength, vocab)
  }

  function BindTokenPreprocessors(tps: seq<TokenPreprocessor>, sequenceLength: map<string, int>, vocab: Vocabulary): seq<Preprocessor> {
    if tps == [] then [] else [BindTokenPreprocessor(tps[0], sequenceLength, vocab)] + BindTokenPreprocessors(tps[1..], sequenceLength, vocab)
  }

  /** One feature's checks in `_validate_dataset`: present, then type, then rank. */
  function FeatureCheck(f: string, spec: Spec, expected: FeatureSpec, stage: Stage): (r: Outcome)
    ensures r.Pass? <==> f in spec && spec[f] == expected
  {
    if f !in spec then Fail(MissingFeature(f, stage))
    else if spec[f].dtype != expected.dtype then Fail(WrongType(f, stage))
    else if spec[f].rank != expected.rank then Fail(WrongRank(f, stage))
    else Pass
  }

  /** Every feature before position `i` passes its checks. */
  predicate PassesBefore(features: seq<string>, spec: Spec, expected: FeatureSpec, stage: Stage, i: nat)
    requires i <= |features|
  {
    forall j :: 0 <= j < i ==> FeatureCheck(features[j], spec, expected, stage).Pass?
  }

  /** The static part of `_validate_dataset`: the output features in order; the first failure is raised. */
  function CheckSpec(features: seq<string>, spec: Spec, expected: FeatureSpec, stage: Stage): (r: Outcome)
    ensures r.Pass? <==> forall f :: f in features ==> f in spec && spec[f] == expected
    ensures r.Fail? ==>
      exists i :: 0 <= i < |features| && r == FeatureCheck(features[i], spec, expected, stage) && PassesBefore(features, spec, expected, stage, i)
  {
    if features == [] then Pass
    else
      var head := FeatureCheck(features[0], spec, expected, stage);
      if head.Fail? then head
      else
        var rest := CheckSpec(features[1..], spec, expected, stage);
        assert rest.Fail? ==>
          exists i :: 1 <= i < |features| && rest == FeatureCheck(features[i], spec, expected, stage) && PassesBefore(features, spec, expected, stage, i)
        by {
          if rest.Fail? {
            var i :| 0 <= i < |features| - 1 && rest == FeatureCheck(features[1..][i], spec, expected, stage) &&
              PassesBefore(features[1..], spec, expected, stage, i);
            assert forall j :: 1 <= j < i + 1 ==> features[j] == features[1..][j - 1];
            assert PassesBefore(features, spec, expected, stage, i + 1);
          }
        }
        rest
  }

  /** Some output feature of some example holds the EOS id. */
  predicate ContainsEos(features: seq<string>, d: Dataset) {
    exists i, f :: 0 <= i < |d.examples| && f in features && f in d.examples[i] &&
      d.examples[i][f].Tokens? && Eos in d.examples[i][f].ids
  }

  /** `_validate_dataset`: checks the output features only and passes the dataset on unchanged. */
  function Validate(features: seq<string>, d: Dataset, expected: FeatureSpec, stage: Stage, ensureNoEos: bool): (r: Result<Dataset>)
    ensures r.Success? <==> CheckSpec(features, d.spec, expected, stage).Pass? && !(ensureNoEos && ContainsEos(features, d))
    ensures r.Success? ==> r.value == d
    ensures CheckSpec(features, d.spec, expected, stage).Fail? ==> r == Failure(CheckSpec(features, d.spec, expected, stage).error)
    ensures CheckSpec(features, d.spec, expected, stage).Pass? && ensureNoEos && ContainsEos(features, d) ==>
      r == Failure(UnexpectedEos(stage))
  {
    match CheckSpec(features, d.spec, expected, stage)
    case Fail(e) => Failure(e)
    case Pass => if ensureNoEos && ContainsEos(features, d) then Failure(UnexpectedEos(stage)) else Success(d)
  }

  /** Two specs agree on the listed features. */
  predicate SameOn(features: seq<string>, s1: Spec, s2: Spec) {
    forall f :: f in features ==> (f in s1 <==> f in s2) && (f in s1 ==> s1[f] == s2[f])
  }

  lemma {:induction false} CheckSpecOnlyReadsFeatures(features: seq<string>, s1: Spec, s2: Spec, expected: FeatureSpec, stage: Stage)
    requires SameOn(features, s1, s2)
    ensures CheckSpec(features, s1, expected, stage) == CheckSpec(features, s2, expected, stage)
  {
    if features != [] {
      CheckSpecOnlyReadsFeatures(features[1..], s1, s2, expected, stage);
    }
  }

  /** Keys outside the output features are never looked at by `_validate_dataset`. */
  lemma ValidateIgnoresOtherFeatures(features: seq<string>, d1: Dataset, d2: Dataset, expected: FeatureSpec, stage: Stage, ensureNoEos: bool)
    requires SameOn(features, d1.spec, d2.spec)
    requires |d1.examples| == |d2.examples|
    requires forall i, f :: 0 <= i < |d1.examples| && f in features ==>
      (f in d1.examples[i] <==> f in d2.examples[i]) && (f in d1.examples[i] ==> d1.examples[i][f] == d2.examples[i][f])
    ensures Validate(features, d1, expected, stage, ensureNoEos).Success? == Validate(features, d2, expected, stage, ensureNoEos).Success?
    ensures Validate(features, d1, expected, stage, ensureNoEos).Failure? ==>
      Validate(features, d1, expected, stage, ensureNoEos) == Validate(features, d2, expected, stage, ensureNoEos)
  {
    CheckSpecOnlyReadsFeatures(features, d1.spec, d2.spec, expected, stage);
    assert ContainsEos(features, d1) == ContainsEos(features, d2) by {
      if ContainsEos(features, d1) {
        var i, f :| 0 <= i < |d1.examples| && f in features && f in d1.examples[i] &&
          d1.examples[i][f].Tokens? && Eos in d1.examples[i][f].ids;
        assert f in d2.examples[i] && d2.examples[i][f] == d1.examples[i][f];
      }
      if ContainsEos(features, d2) {
        var i, f :| 0 <= i < |d2.examples| && f in features && f in d2.examples[i] &&
          d2.examples[i][f].Tokens? && Eos in d2.examples[i][f].ids;
        assert f in d1.examples[i] && d2.examples[i][f] == d1.examples[i][f];
      }
    }
  }

  /** `v[:stop]` with Python's slicing rules: a negative `stop` counts from the end. */
  function SliceTo(v: seq<int>, stop: int): (r: seq<int>)
    ensures |r| <= |v| && r == v[..|r|]
    ensures stop >= 0 ==> |r| == if stop <= |v| then stop else |v|
    ensures stop < 0 ==> |r| == if |v| + stop >= 0 then |v| + stop else 0
  {
    if stop >= 0 then (if stop <= |v| then v[..stop] else v)
    else if |v| + stop >= 0 then v[..|v| + stop]
    else []
  }

  /** `tf.concat([v[:length-1], [1]], axis=0)`. */
  function TrimAndAppendEos(v: seq<int>, length: int): (r: seq<int>)
    ensures 1 <= |r| <= |v| + 1 && r[|r| - 1] == Eos && r[..|r| - 1] == v[..|r| - 1]
    ensures length >= 1 ==> |r| == if |v| + 1 <= length then |v| + 1 else length
  {
    SliceTo(v, length - 1) + [Eos]
  }

  /** A sequence that already has the full length and ends with EOS is left as it is. */
  lemma {:induction false} TrimKeepsFinishedSequence(v: seq<int>, length: int)
    requires length >= 1 && |v| == length && v[length - 1] == Eos
    ensures TrimAndAppendEos(v, length) == v
  {
    assert v == v[..length - 1] + [v[length - 1]];
  }

  /** With a length below 1 the slice counts from the end: the result is longer than the length asked for. */
  lemma {:induction false} TrimWithNonPositiveLength(v: seq<int>, length: int)
    requires length <= 0
    ensures |TrimAndAppendEos(v, length)| == (if |v| + length - 1 >= 0 then |v| + length - 1 else 0) + 1
    ensures |TrimAndAppendEos(v, length)| > length
  {
  }

  /** `_trim_and_append_eos` applied to every key of one example. */
  function TrimExample(features: seq<string>, sequenceLength: map<string, int>, ex: Example): (r: Example)
    requires forall f :: f in features ==> f in sequenceLength
    ensures r.Keys == ex.Keys
    ensures forall k :: k in ex && k !in features ==> r[k] == ex[k]
    ensures forall k :: k in ex && k in features && ex[k].Tokens? ==> r[k] == Tokens(TrimAndAppendEos(ex[k].ids, sequenceLength[k]))
  {
    map k | k in ex :: if k in features && ex[k].Tokens? then Tokens(TrimAndAppendEos(ex[k].ids, sequenceLength[k])) else ex[k]
  }

  function TrimDataset(features: seq<string>, sequenceLength: map<string, int>, d: Dataset): (r: Dataset)
    requires forall f :: f in features ==> f in sequenceLength
    ensures r.spec == d.spec && |r.examples| == |d.examples|
    ensures forall i :: 0 <= i < |d.examples| ==> r.examples[i] == TrimExample(features, sequenceLength, d.examples[i])
  {
    var examples := seq(|d.examples|, i requires 0 <= i < |d.examples| => TrimExample(features, sequenceLength, d.examples[i]));
    assert WellTyped(RawDataset(d.spec, examples)) by {
      forall i | 0 <= i < |examples| ensures Conforms(examples[i], d.spec) {
        assert Conforms(d.examples[i], d.spec);
      }
    }
    RawDataset(d.spec, examples)
  }

  /** The KeyError of `sequence_length[feat]`, raised for the first output feature without a length. */
  function CheckLengths(features: seq<string>, sequenceLength: map<string, int>): (r: Outcome)
    ensures r.Pass? <==> forall f :: f in features ==> f in sequenceLength
    ensures r.Fail? ==> exists f :: f in features && f !in sequenceLength && r.error == MissingSequenceLength(f)
  {
    if features == [] then Pass
    else if features[0] !in sequenceLength then Fail(MissingSequenceLength(features[0]))
    else CheckLengths(features[1..], sequenceLength)
  }

  /** What `preprocess_tokens` promises of every example it emits. */
  predicate TokenOutput(features: seq<string>, sequenceLength: map<string, int>, d: Dataset) {
    forall i, f :: 0 <= i < |d.examples| && f in features ==>
      && f in d.examples[i] && f in sequenceLength
      && d.examples[i][f].Tokens?
      && |d.examples[i][f].ids| >= 1
      && d.examples[i][f].ids[|d.examples[i][f].ids| - 1] == Eos
      && (sequenceLength[f] >= 1 ==> |d.examples[i][f].ids| <= sequenceLength[f])
  }

  // ---------------------------------------------------------------------------------------------
  // The task

  class Task {
    const name: string
    const tfds: LazyTfdsLoader
    const textPreprocessors: seq<Preprocessor>
    const tokenPreprocessors: seq<TokenPreprocessor>
    const sentencepieceModelPath: string
    const postprocessFn: Option<string -> string>
    const outputFeatures: seq<string>
    const explicitSplits: Option<seq<string>>
    var cacheDir: Option<string>
    var stats: map<string, Stats>

    ghost predicate Valid()
      reads this
    {
      && ValidTaskName(name)
      && StrictlySorted(outputFeatures) && |outputFeatures| > 0
      && (cacheDir.Some? ==> cacheDir.value != "")
    }

    /** The assignments of `Task.__init__`, once its checks have passed. */
    constructor (name: string, tfds: LazyTfdsLoader, textPreprocessors: seq<Preprocessor>,
                 sentencepieceModelPath: string, postprocessFn: Option<string -> string>,
                 tokenPreprocessors: seq<TokenPreprocessor>, outputFeatures: Option<seq<string>>,
                 splits: Option<seq<string>>)
      requires ValidTaskName(name)
      ensures Valid()
      ensures this.name == name && this.tfds == tfds && this.textPreprocessors == textPreprocessors
      ensures this.sentencepieceModelPath == sentencepieceModelPath && this.postprocessFn == postprocessFn
      ensures this.tokenPreprocessors == tokenPreprocessors && this.explicitSplits == splits
      ensures this.outputFeatures == OutputFeatures(outputFeatures)
      ensures cacheDir == None && stats == map[]
    {
      this.name := name;
      this.tfds := tfds;
      this.textPreprocessors := textPreprocessors;
      this.tokenPreprocessors := tokenPreprocessors;
      this.sentencepieceModelPath := sentencepieceModelPath;
      this.postprocessFn := postprocessFn;
      this.outputFeatures := OutputFeatures(outputFeatures);
      this.explicitSplits := splits;
      cacheDir := None;
      stats := map[];
    }

    /** `postprocess_fn`: the given function, or the identity when none was given. */
    function Postprocess(output: string): (r: string)
      ensures postprocessFn.None? ==> r == output
      ensures postprocessFn.Some? ==> r == postprocessFn.value(output)
    {
      if postprocessFn.Some? then postprocessFn.value(output) else output
    }

    function Vocabulary(storage: Storage): Vocabulary {
      storage.vocabularyFor(sentencepieceModelPath)
    }

    /** `splits`: the explicit list unless it is missing or empty, else the dataset's splits. */
    function Splits(cfg: Config, storage: Storage): (r: set<string>)
      ensures explicitSplits.Some? && explicitSplits.value != [] ==> forall s :: s in r <==> s in explicitSplits.value
      ensures explicitSplits.None? || explicitSplits.value == [] ==> r == tfds.Splits(cfg, storage).Keys
    {
      if explicitSplits.Some? && explicitSplits.value != [] then set s | s in explicitSplits.value
      else tfds.Splits(cfg, storage).Keys
    }

    /** `preprocess_text`: the text preprocessors, then string scalars required for every output feature. */
    function PreprocessText(d: Dataset): (r: Result<Dataset>)
      ensures r == Validate(outputFeatures, ApplyAll(textPreprocessors, d), FeatureSpec(String, 0), TextPreprocessing, false)
      ensures r.Success? ==> forall f :: f in outputFeatures ==> f in r.value.spec && r.value.spec[f] == FeatureSpec(String, 0)
    {
      Validate(outputFeatures, ApplyAll(textPreprocessors, d), FeatureSpec(String, 0), TextPreprocessing, false)
    }

    function TokenPreprocessed(d: Dataset, sequenceLength: map<string, int>, vocab: Vocabulary): Dataset {
      ApplyAll(BindTokenPreprocessors(tokenPreprocessors, sequenceLength, vocab), d)
    }

    /**
     * `preprocess_tokens`: the token preprocessors; then every output feature must be an int64
     * vector, must have a sequence length, and must not contain EOS; then every output feature is
     * cut to `length - 1` ids and EOS is appended, and all other features pass through.
     */
    function PreprocessTokens(d: Dataset, sequenceLength: map<string, int>, vocab: Vocabulary): (r: Result<Dataset>)
      ensures var pre := TokenPreprocessed(d, sequenceLength, vocab);
        r.Success? <==>
          && CheckSpec(outputFeatures, pre.spec, FeatureSpec(Int64, 1), TokenPreprocessing).Pass?
          && (forall f :: f in outputFeatures ==> f in sequenceLength)
          && !ContainsEos(outputFeatures, pre)
      ensures var pre := TokenPreprocessed(d, sequenceLength, vocab);
        CheckSpec(outputFeatures, pre.spec, FeatureSpec(Int64, 1), TokenPreprocessing).Pass? &&
        (forall f :: f in outputFeatures ==> f in sequenceLength) && ContainsEos(outputFeatures, pre) ==>
          r == Failure(UnexpectedEos(TokenPreprocessing))
      ensures r.Success? ==> TokenOutput(outputFeatures, sequenceLength, r.value)
      ensures var pre := TokenPreprocessed(d, sequenceLength, vocab);
        r.Success? ==> (|r.value.examples| == |pre.examples| &&
          forall i, k :: 0 <= i < |pre.examples| && k in pre.examples[i] ==>
            && k in r.value.examples[i]
            && (k !in outputFeatures ==> r.value.examples[i][k] == pre.examples[i][k])
            && (k in outputFeatures ==> r.value.examples[i][k] == Tokens(TrimAndAppendEos(pre.examples[i][k].ids, sequenceLength[k]))))
    {
      var pre := TokenPreprocessed(d, sequenceLength, vocab);
      match CheckSpec(outputFeatures, pre.spec, FeatureSpec(Int64, 1), TokenPreprocessing)
      case Fail(e) => Failure(e)
      case Pass =>
        match CheckLengths(outputFeatures, sequenceLength)
        case Fail(e) => Failure(e)
        case Pass =>
          var checked :- Validate(outputFeatures, pre, FeatureSpec(Int64, 1), TokenPreprocessing, true);
          var r := TrimDataset(outputFeatures, sequenceLength, checked);
          assert TokenOutput(outputFeatures, sequenceLength, r) by {
            forall i, f | 0 <= i < |r.examples| && f in outputFeatures
              ensures f in r.examples[i] && r.examples[i][f].Tokens?
            {
              assert Conforms(pre.examples[i], pre.spec);
            }
          }
          Success(r)
    }

    /**
     * `get_dataset` without the cache: load the split, preprocess the text, encode the output
     * features keeping `_plaintext` copies, then preprocess the tokens.
     */
    function OnTheFly(raw: Dataset, sequenceLength: map<string, int>, vocab: Vocabulary): (r: Result<Dataset>)
      ensures r.Success? ==> TokenOutput(outputFeatures, sequenceLength, r.value)
    {
      var text :- PreprocessText(raw);
      PreprocessTokens(EncodeDataset(text, vocab, outputFeatures, true), sequenceLength, vocab)
    }

    /** The first global cache directory holding this task's `COMPLETED` marker. */
    function FirstCompleted(roots: seq<string>, paths: set<string>): (r: Option<string>)
      decreases |roots|
    {
      if roots == [] then None
      else if Completed(roots[0], paths) then Some(Join(roots[0], name))
      else FirstCompleted(roots[1..], paths)
    }

    predicate Completed(root: string, paths: set<string>) {
      Join(Join(root, name), "COMPLETED") in paths
    }

    /** The search returns the directory under the earliest root whose `root/name/COMPLETED` exists. */
    lemma {:induction false} FirstCompletedIsEarliest(roots: seq<string>, paths: set<string>, i: nat)
      requires i < |roots| && Completed(roots[i], paths)
      requires forall j :: 0 <= j < i ==> !Completed(roots[j], paths)
      ensures FirstCompleted(roots, paths) == Some(Join(roots[i], name))
      decreases i
    {
      if i > 0 {
        var rest := roots[1..];
        assert !Completed(roots[0], paths);
        assert FirstCompleted(roots, paths) == FirstCompleted(rest, paths);
        assert rest[i - 1] == roots[i];
        forall j | 0 <= j < i - 1
          ensures !Completed(rest[j], paths)
        {
          assert rest[j] == roots[j + 1];
        }
        FirstCompletedIsEarliest(rest, paths, i - 1);
      }
    }

    /** The search finds nothing exactly when no root holds the marker. */
    lemma {:induction false} FirstCompletedNone(roots: seq<string>, paths: set<string>)
      ensures FirstCompleted(roots, paths).None? <==> forall i :: 0 <= i < |roots| ==> !Completed(roots[i], paths)
      decreases |roots|
    {
      if roots != [] {
        var rest := roots[1..];
        FirstCompletedNone(rest, paths);
        assert forall i :: 1 <= i < |roots| ==> roots[i] == rest[i - 1];
        if !Completed(roots[0], paths) {
          assert FirstCompleted(roots, paths) == FirstCompleted(rest, paths);
        }
      }
    }

    /** `initialize`: keeps a found cache directory, otherwise searches the roots in order. */
    method Initialize(cfg: Config, paths: set<string>)
      requires Valid()
      modifies this`cacheDir
      ensures Valid()
      ensures old(cacheDir).Some? ==> cacheDir == old(cacheDir)
      ensures old(cacheDir).None? ==> cacheDir == FirstCompleted(cfg.cacheDirs, paths)
    {
      if cacheDir.Some? {
        return;
      }
      var roots := cfg.cacheDirs;
      ValidTaskNameChars(name);
      var i := 0;
      while i < |roots|
        invariant 0 <= i <= |roots|
        invariant cacheDir.None?
        invariant FirstCompleted(roots, paths) == FirstCompleted(roots[i..], paths)
      {
        var candidate := Join(roots[i], name);
        if Join(candidate, "COMPLETED") in paths {
          cacheDir := Some(candidate);
          return;
        }
        assert roots[i..][1..] == roots[i + 1..];
        i := i + 1;
      }
    }

    /** `cached`: initializes, then reports whether a cache directory is known. */
    method Cached(cfg: Config, paths: set<string>) returns (b: bool)
      requires Valid()
      modifies this`cacheDir
      ensures Valid()
      ensures cacheDir == if old(cacheDir).Some? then old(cacheDir) else FirstCompleted(cfg.cacheDirs, paths)
      ensures b <==> cacheDir.Some?
    {
      Initialize(cfg, paths);
      b := cacheDir.Some?;
    }

    /** `assert_cached`. */
    method AssertCached(cfg: Config, paths: set<string>) returns (r: Outcome)
      requires Valid()
      modifies this`cacheDir
      ensures Valid()
      ensures cacheDir == if old(cacheDir).Some? then old(cacheDir) else FirstCompleted(cfg.cacheDirs, paths)
      ensures r == if cacheDir.Some? then Pass else Fail(NotCached(name))
    {
      var b := Cached(cfg, paths);
      r := if b then Pass else Fail(NotCached(name));
    }

    /** `cache_dir`: the resolved directory, or the failure of `assert_cached`. */
    method CacheDirectory(cfg: Config, paths: set<string>) returns (r: Result<string>)
      requires Valid()
      modifies this`cacheDir
      ensures Valid()
      ensures cacheDir == if old(cacheDir).Some? then old(cacheDir) else FirstCompleted(cfg.cacheDirs, paths)
      ensures r == if cacheDir.Some? then Success(cacheDir.value) else Failure(NotCached(name))
    {
      var ok := AssertCached(cfg, paths);
      if ok.Fail? {
        return Failure(ok.error);
      }
      r := Success(cacheDir.value);
    }

    /** `get_cached_stats`: the statistics of a split, read once from `stats.{split}.json`. */
    method GetCachedStats(split: string, cfg: Config, storage: Storage) returns (r: Result<Stats>)
      requires Valid()
      modifies this`cacheDir, this`stats
      ensures Valid()
      ensures cacheDir == if old(cacheDir).Some? then old(cacheDir) else FirstCompleted(cfg.cacheDirs, storage.paths)
      ensures cacheDir.None? ==> r == Failure(NotCached(name)) && stats == old(stats)
      ensures cacheDir.Some? && split in old(stats) ==> r == Success(old(stats)[split]) && stats == old(stats)
      ensures cacheDir.Some? && split !in old(stats) && StatsPath(cacheDir.value, split) !in storage.paths ==>
        r == Failure(MissingStats(name, split)) && stats == old(stats)
      ensures cacheDir.Some? && split !in old(stats) && StatsPath(cacheDir.value, split) in storage.paths ==>
        r == Success(storage.statsFile(StatsPath(cacheDir.value, split))) && stats == old(stats)[split := r.value]
    {
      var ok := AssertCached(cfg, storage.paths);
      if ok.Fail? {
        return Failure(ok.error);
      }
      if split !in stats {
        var path := StatsPath(cacheDir.value, split);
        if path !in storage.paths {
          return Failure(MissingStats(name, split));
        }
        stats := stats[split := storage.statsFile(path)];
      }
      r := Success(stats[split]);
    }

    /**
     * `get_dataset`: from the cache (after `assert_cached` and reading the split's statistics) or
     * computed on the fly (after the dataset checks the split), then `preprocess_tokens`.
     */
    method GetDataset(sequenceLength: map<string, int>, split: string, useCached: bool, cfg: Config, storage: Storage)
      returns (r: Result<Dataset>)
      requires Valid()
      modifies this`cacheDir, this`stats
      ensures Valid()
      ensures old(cacheDir).Some? ==> cacheDir == old(cacheDir)
      ensures forall s :: s in old(stats) ==> s in stats && stats[s] == old(stats)[s]
      ensures !useCached ==> cacheDir == old(cacheDir) && stats == old(stats)
      ensures !useCached && split !in tfds.Splits(cfg, storage) ==> r == Failure(InvalidSplit(tfds.name, split))
      ensures !useCached && split in tfds.Splits(cfg, storage) ==>
        r == OnTheFly(storage.tfdsSplit(tfds.name, tfds.DataDir(cfg), split), sequenceLength, Vocabulary(storage))
      ensures useCached ==> cacheDir == if old(cacheDir).Some? then old(cacheDir) else FirstCompleted(cfg.cacheDirs, storage.paths)
      ensures useCached && cacheDir.None? ==> r == Failure(NotCached(name)) && stats == old(stats)
      ensures useCached && cacheDir.Some? && split in old(stats) ==> stats == old(stats)
      ensures useCached && cacheDir.Some? && split !in old(stats) && StatsPath(cacheDir.value, split) !in storage.paths ==>
        r == Failure(MissingStats(name, split)) && stats == old(stats)
      ensures useCached && cacheDir.Some? && split !in old(stats) && StatsPath(cacheDir.value, split) in storage.paths ==>
        stats == old(stats)[split := storage.statsFile(StatsPath(cacheDir.value, split))]
      ensures useCached && cacheDir.Some? && split in stats && "examples" !in stats[split] ==>
        r == Failure(MissingStatsKey("examples"))
      ensures useCached && cacheDir.Some? && split in stats && "examples" in stats[split] ==>
        r == PreprocessTokens(storage.cachedSplit(cacheDir.value, split), sequenceLength, Vocabulary(storage))
      ensures useCached && r.Success? ==> cacheDir.Some? && split in stats && "examples" in stats[split]
      ensures r.Success? ==> TokenOutput(outputFeatures, sequenceLength, r.value)
    {
      var vocab := Vocabulary(storage);
      var d: Dataset;
      if useCached {
        var dir :- CacheDirectory(cfg, storage.paths);
        d := storage.cachedSplit(dir, split);
        var splitStats :- GetCachedStats(split, cfg, storage);
        if "examples" !in splitStats {
          return Failure(MissingStatsKey("examples"));
        }
      } else {
        var ok := tfds.VerifySplit(cfg, storage, split);
        if ok.Fail? {
          return Failure(ok.error);
        }
        var raw := storage.tfdsSplit(tfds.name, tfds.DataDir(cfg), split);
        var text :- PreprocessText(raw);
        d := EncodeDataset(text, vocab, outputFeatures, true);
      }
      r := PreprocessTokens(d, sequenceLength, vocab);
    }
  }

  /**
   * Without preprocessors, the on-the-fly pipeline turns every output feature's string into its
   * trimmed, EOS-terminated token ids, keeps a plaintext copy where the name is free, and leaves
   * every other feature as loaded.
   */
  /** Without preprocessors, the pipeline is the token stage applied to the encoded raw split. */
  lemma OnTheFlyEncodesRaw(t: Task, raw: Dataset, sequenceLength: map<string, int>, vocab: Vocabulary)
    requires t.textPreprocessors == [] && t.tokenPreprocessors == []
    requires t.OnTheFly(raw, sequenceLength, vocab).Success?
    ensures var encoded := EncodeDataset(raw, vocab, t.outputFeatures, true);
      && t.TokenPreprocessed(encoded, sequenceLength, vocab) == encoded
      && t.OnTheFly(raw, sequenceLength, vocab) == t.PreprocessTokens(encoded, sequenceLength, vocab)
  {
    var text := t.PreprocessText(raw);
    assert text == Validate(t.outputFeatures, raw, FeatureSpec(String, 0), TextPreprocessing, false);
    assert text == Success(raw);
  }

  lemma OnTheFlyWithoutPreprocessors(t: Task, raw: Dataset, sequenceLength: map<string, int>, vocab: Vocabulary)
    requires t.textPreprocessors == [] && t.tokenPreprocessors == []
    requires t.OnTheFly(raw, sequenceLength, vocab).Success?
    ensures var out := t.OnTheFly(raw, sequenceLength, vocab).value;
      |out.examples| == |raw.examples| &&
      forall i, f :: 0 <= i < |raw.examples| && f in t.outputFeatures ==>
        && f in raw.examples[i] && raw.examples[i][f].Text?
        && out.examples[i][f] == Tokens(TrimAndAppendEos(vocab(raw.examples[i][f].s), sequenceLength[f]))
    ensures var out := t.OnTheFly(raw, sequenceLength, vocab).value;
      forall i, k :: 0 <= i < |raw.examples| && k in raw.examples[i] && k !in t.outputFeatures ==>
        k in out.examples[i] && out.examples[i][k] == raw.examples[i][k]
    ensures var out := t.OnTheFly(raw, sequenceLength, vocab).value;
      forall i, f :: (0 <= i < |raw.examples| && f in t.outputFeatures &&
                      f + PlaintextSuffix !in raw.examples[i] && f + PlaintextSuffix !in t.outputFeatures) ==>
          f + PlaintextSuffix in out.examples[i] && out.examples[i][f + PlaintextSuffix] == raw.examples[i][f]
  {
    var encoded := EncodeDataset(raw, vocab, t.outputFeatures, true);
    OnTheFlyEncodesRaw(t, raw, sequenceLength, vocab);
    forall i, f | 0 <= i < |raw.examples| && f in t.outputFeatures
      ensures f in raw.examples[i] && raw.examples[i][f].Text? && Encodes(raw.examples[i], t.outputFeatures, f)
    {
      assert Conforms(raw.examples[i], raw.spec);
    }
  }

  /**
   * The output of `preprocess_tokens` cannot be fed through it again: every output feature now ends
   * in EOS, which the EOS check rejects (only the trimming step itself leaves such data unchanged).
   */
  lemma TokenOutputRejectedAgain(t: Task, d: Dataset, sequenceLength: map<string, int>, vocab: Vocabulary)
    requires t.Valid() && t.tokenPreprocessors == []
    requires |d.examples| > 0 && TokenOutput(t.outputFeatures, sequenceLength, d)
    ensures t.PreprocessTokens(d, sequenceLength, vocab) == Failure(UnexpectedEos(TokenPreprocessing))
  {
    assert t.TokenPreprocessed(d, sequenceLength, vocab) == d;
    var ex := d.examples[0];
    assert Conforms(ex, d.spec);
    forall f | f in t.outputFeatures ensures f in d.spec && d.spec[f] == FeatureSpec(Int64, 1) {
      assert f in ex && SpecOf(ex[f]) == d.spec[f];
    }
    var f := t.outputFeatures[0];
    assert f in t.outputFeatures;
    assert f in ex && ex[f].Tokens? && |ex[f].ids| >= 1;
    var n := |ex[f].ids| - 1;
    assert ex[f].ids[n] == Eos;
    assert Eos in ex[f].ids;
    assert ContainsEos(t.outputFeatures, d);
  }

  /** `get_stats_path`: the file `stats.{split}.json` inside `dir`. */
  function StatsPath(dir: string, split: string): (r: string)
    ensures |r| >= |"stats." + split + ".json"|
    ensures r[|r| - |"stats." + split + ".json"|..] == "stats." + split + ".json"
  {
    Join(dir, "stats." + split + ".json")
  }

  /** Different splits of one directory have different statistics files. */
  lemma StatsPathInjective(dir: string, a: string, b: string)
    ensures StatsPath(dir, a) == StatsPath(dir, b) ==> a == b
  {
    var fa, fb := "stats." + a + ".json", "stats." + b + ".json";
    assert fa[0] == 's' && fb[0] == 's';
    var p := if dir == [] || dir[|dir| - 1] == '/' then dir else dir + "/";
    assert StatsPath(dir, a) == p + fa && StatsPath(dir, b) == p + fb;
    if p + fa == p + fb {
      assert fa == (p + fa)[|p|..] == (p + fb)[|p|..] == fb;
      assert a == fa[6..|fa| - 5] == fb[6..|fb| - 5] == b;
    }
  }

  /** Repeated `get_cached_stats` calls answer from memory, whatever the files say by then. */
  method StatsAreMemoized(t: Task, split: string, cfg: Config, before: Storage, after: Storage)
    returns (first: Result<Stats>, second: Result<Stats>)
    requires t.Valid()
    modifies t
    ensures first.Success? ==> second == first
  {
    first := t.GetCachedStats(split, cfg, before);
    second := t.GetCachedStats(split, cfg, after);
  }

  /** A found cache directory survives later searches, whatever the roots and files are by then. */
  method CacheDirIsStable(t: Task, cfg1: Config, paths1: set<string>, cfg2: Config, paths2: set<string>)
    returns (first: bool, second: bool)
    requires t.Valid()
    modifies t
    ensures first ==> second
    ensures old(t.cacheDir).None? && first ==> t.cacheDir == t.FirstCompleted(cfg1.cacheDirs, paths1)
  {
    first := t.Cached(cfg1, paths1);
    ghost var found := t.cacheDir;
    second := t.Cached(cfg2, paths2);
    assert first ==> t.cacheDir == found;
  }

  /** `Task(...)`: the argument checks, then the memoized dataset handle, then the task. */
  method NewTask(loaders: LoaderCache, name: string, tfdsName: string, textPreprocessors: seq<Preprocessor>,
                 sentencepieceModelPath: string, postprocessFn: Option<string -> string>,
                 tokenPreprocessors: seq<TokenPreprocessor>, tfdsDataDir: Option<string>,
                 outputFeatures: Option<seq<string>>, splits: Option<seq<string>>)
    returns (r: Result<Task>)
    requires loaders.Valid()
    modifies loaders
    ensures loaders.Valid()
    ensures r.Failure? <==> CheckTaskArgs(name, tfdsName).Fail?
    ensures r.Failure? ==> r.error == CheckTaskArgs(name, tfdsName).error && loaders.instances == old(loaders.instances)
    ensures r.Success? ==> fresh(r.value) && r.value.Valid() && r.value.name == name
    ensures r.Success? ==> r.value.outputFeatures == OutputFeatures(outputFeatures)
    ensures r.Success? ==> r.value.tfds.name == tfdsName && r.value.tfds.dataDir == tfdsDataDir
    ensures r.Success? ==> r.value.explicitSplits == splits && r.value.sentencepieceModelPath == sentencepieceModelPath
    ensures r.Success? ==> r.value.textPreprocessors == textPreprocessors && r.value.tokenPreprocessors == tokenPreprocessors
    ensures r.Success? ==> r.value.postprocessFn == postprocessFn
    ensures r.Success? ==> r.value.cacheDir == None && r.value.stats == map[]
    ensures r.Success? ==> (tfdsName, tfdsDataDir) in loaders.instances && r.value.tfds == loaders.instances[(tfdsName, tfdsDataDir)]
    ensures r.Success? && (tfdsName, tfdsDataDir) in old(loaders.instances) ==>
      r.value.tfds == old(loaders.instances[(tfdsName, tfdsDataDir)]) && loaders.instances == old(loaders.instances)
    ensures r.Success? && (tfdsName, tfdsDataDir) !in old(loaders.instances) ==>
      fresh(r.value.tfds) && loaders.instances == old(loaders.instances)[(tfdsName, tfdsDataDir) := r.value.tfds]
  {
    var ok := CheckTaskArgs(name, tfdsName);
    if ok.Fail? {
      return Failure(ok.error);
    }
    var handle := loaders.Get(tfdsName, tfdsDataDir);
    var t := new Task(name, handle, textPreprocessors, sentencepieceModelPath, postprocessFn,
                      tokenPreprocessors, outputFeatures, splits);
    r := Success(t);
  }

  /** Two tasks built on the same dataset name and data directory share one dataset handle. */
  method SameDatasetSameHandle(loaders: LoaderCache, name1: string, name2: string, tfdsName: string,
                               tfdsDataDir: Option<string>, sentencepieceModelPath: string)
    returns (first: Result<Task>, second: Result<Task>)
    requires loaders.Valid()
    modifies loaders
    ensures first.Success? && second.Success? ==> first.value.tfds == second.value.tfds
  {
    first := NewTask(loaders, name1, tfdsName, [], sentencepieceModelPath, None, [], tfdsDataDir, None, None);
    second := NewTask(loaders, name2, tfdsName, [], sentencepieceModelPath, None, [], tfdsDataDir, None, None);
  }

  /** `TaskRegistry.add`: the duplicate check comes before the task is built. */
  method AddTask(registry: Registry<Task>, loaders: LoaderCache, name: string, tfdsName: string,
                 textPreprocessors: seq<Preprocessor>, sentencepieceModelPath: string,
                 postprocessFn: Option<string -> string>, tokenPreprocessors: seq<TokenPreprocessor>,
                 tfdsDataDir: Option<string>, outputFeatures: Option<seq<string>>, splits: Option<seq<string>>)
    returns (r: Outcome)
    requires loaders.Valid()
    modifies registry, loaders
    ensures loaders.Valid()
    ensures name in old(registry.entries) ==>
      r == Fail(DuplicateProvider(name)) && registry.entries == old(registry.entries) && loaders.instances == old(loaders.instances)
    ensures name !in old(registry.entries) && CheckTaskArgs(name, tfdsName).Fail? ==>
      r == Fail(CheckTaskArgs(name, tfdsName).error) && registry.entries == old(registry.entries) &&
      loaders.instances == old(loaders.instances)
    ensures r.Pass? <==> name !in old(registry.entries) && CheckTaskArgs(name, tfdsName).Pass?
    ensures r.Pass? ==> name in registry.entries && registry.entries == old(registry.entries)[name := registry.entries[name]]
    ensures r.Pass? ==> var t := registry.entries[name];
      && fresh(t) && t.Valid() && t.name == name && t.outputFeatures == OutputFeatures(outputFeatures)
      && t.explicitSplits == splits && t.sentencepieceModelPath == sentencepieceModelPath
      && t.textPreprocessors == textPreprocessors && t.tokenPreprocessors == tokenPreprocessors
      && t.postprocessFn == postprocessFn && t.cacheDir == None && t.stats == map[]
      && (tfdsName, tfdsDataDir) in loaders.instances && t.tfds == loaders.instances[(tfdsName, tfdsDataDir)]
      && loaders.instances == old(loaders.instances)[(tfdsName, tfdsDataDir) := t.tfds]
  {
    if name in registry.entries {
      return Fail(DuplicateProvider(name));
    }
    var t := NewTask(loaders, name, tfdsName, textPreprocessors, sentencepieceModelPath, postprocessFn,
                     tokenPreprocessors, tfdsDataDir, outputFeatures, splits);
    if t.Failure? {
      return Fail(t.error);
    }
    r := registry.Add(name, t.value);
  }
}
