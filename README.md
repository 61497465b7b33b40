# T5 data utilities: registries, tasks and mixtures

This project models the core of `t5/data/utils.py`. That file defines the data layer of a
sequence-to-sequence training system. It covers:

- **Registries** (`DatasetProviderRegistry`, `TaskRegistry`, `MixtureRegistry`): write-once tables
  from names to dataset providers.
- **`LazyTfdsLoader`**: a handle on a named TFDS dataset. There is one shared instance per
  `(name, data_dir)`. A global data-directory override takes precedence over the handle's own
  directory.
- **`Task`**: a dataset plus two preprocessing stages, text and then tokens.
  - Construction checks the task name and the dataset version.
  - It fixes a sorted, duplicate-free list of output features.
  - Each stage is validated: every output feature must be present, with the expected type and
    rank. The token stage also rejects the EOS id 1.
  - The token stage then cuts every output feature to `length - 1` ids and appends EOS.
  - A task can also be served from a pre-tokenized cache. It finds the cache by searching the
    global cache roots for a `COMPLETED` marker, and it reads per-split statistics once and
    keeps them.
- **`encode_string_features`**: turns string features into token ids, optionally keeping a
  `_plaintext` copy.
- **`Mixture`**: a list of registered tasks that share output features and a vocabulary, each
  with a mixing rate.
  - A rate is a number, or a function of the task such as `rate_num_examples` or
    `rate_unsupervised`.
  - `get_dataset` keeps the tasks that have the requested split, in order, and projects every
    example onto the output features.

## How the model is built

- The data a pipeline carries is modelled in `features.dfy`.
  - An example is a map from feature names to a value: a string scalar, a token-id vector or an
    integer scalar.
  - A dataset is a list of examples plus the static type and rank of every feature. These are
    what the tensor runtime reports before any example is produced. Every example conforms to
    them, which is a subset-type invariant.
- The outside world is passed in explicitly, in `environment.dfy`.
  - `Config` holds the module-level settings: the TFDS data-dir override and the global cache
    roots.
  - `Storage` holds the file system, as the set of paths that exist and the contents of the
    statistics files. It also holds what the dataset library reports and loads, and the
    tokenizer for a model path.
- State that the source updates in place is held in classes:
  - `Registries.Registry` has the `_REGISTRY` dict, as a `map` field.
  - `Loader.LoaderCache` is `_MEMOIZED_INSTANCES`.
  - `Tasks.Task` has `_cache_dir` and `_stats`.
  - `Mixtures.Mixture` has `_tasks` and `_task_to_rate`.
- Pure computations are functions, and the loops of the source are methods with loop
  invariants:
  - the key loop of `my_fn` (`Encoding.EncodeFeatures`);
  - the cache-root search (`Tasks.Task.Initialize`);
  - the entry loop of `Mixture.__init__` (`Mixtures.Mixture.Init`);
  - the split filter of `Mixture.get_dataset` (`Mixtures.Mixture.SelectTasks`);
  - its list comprehensions of datasets and rates (`Mixtures.TaskDatasets`, `Mixtures.Mixture.Rates`).
- Each method is proved against a specification function, and the properties are lemmas about
  that function.
- Raised exceptions are modelled as `Result`/`Outcome` failures. There is one `Error`
  constructor per raise site.
- Errors from the pipeline are raised at different moments, and the model uses that order:
  1. The static type and rank checks of `_validate_dataset`.
  2. The `KeyError` of `sequence_length[feat]`, raised when the trimming map is traced.
  3. The runtime EOS assertion.

  A runtime assertion that some element of a lazy stream would fail is modelled as a failure of
  the whole call.
- `my_fn` visits `features.items()` in the dictionary's own order, which the code does not fix.
  `Encoding.EncodeFeatures` takes that order as a parameter and is proved for every order
  against `Encoding.EncodedInOrder`. The order matters only when a key `k_plaintext` already
  exists next to an encoded `k`: whichever of the two is visited last wins
  (`Encoding.OrderDecidesCollision`). In increasing key order (`Strings.Less` is Python's `str`
  order), or when no such collision exists, the result is `Encoding.EncodedExample`, where the
  original feature wins.

Two consequences of the code are worth stating:

- **`preprocess_tokens` refuses its own output.** It first rejects any output feature that
  contains EOS, so feeding the stage its own output fails (`Tasks.TokenOutputRejectedAgain`).
  Only the trimming step `_trim_and_append_eos` leaves a trimmed, EOS-terminated sequence of the
  full length unchanged (`Tasks.TrimKeepsFinishedSequence`).
- **Appending EOS is not idempotent for short sequences.** A sequence shorter than `length - 1`
  gains one more EOS on every pass.

## Model

| member | source | states |
|---|---|---|
| `Registries.Registry.constructor` | t5/data/utils.py:687 | a registry starts empty |
| `Registries.Registry.Add` | t5/data/utils.py:96-107 | a registered name is refused and the table stays as it was; otherwise the name maps to the provider, `get` then returns it, and every other name's `get` is unchanged |
| `Registries.Registry.Get` | t5/data/utils.py:110-114 | succeeds exactly for registered names, with the stored provider; fails with "not registered" otherwise |
| `Registries.Registry.Names` | t5/data/utils.py:117-119 | the names are exactly those `get` accepts |
| `Loader.ResolveDataDir` | t5/data/utils.py:170-177 | a truthy global override wins; otherwise the handle's own directory |
| `Loader.LazyTfdsLoader.DataDir` | t5/data/utils.py:170-177 | the directory the handle reads from: the override rule of `ResolveDataDir` applied to its own directory |
| `Loader.LazyTfdsLoader.Splits` | t5/data/utils.py:185-187 | the split table the dataset reports for the handle's name at its resolved directory |
| `Loader.LazyTfdsLoader.constructor` | t5/data/utils.py:145-154 | the handle records its dataset name and data directory |
| `Loader.LazyTfdsLoader.VerifySplit` | t5/data/utils.py:240-243 | passes exactly when the dataset reports the split, else fails naming the dataset and split |
| `Loader.LazyTfdsLoader.Size` | t5/data/utils.py:245-252 | fails exactly for an unknown split; a count at or below 0 becomes infinite, a positive count is returned |
| `Loader.LoaderCache.constructor` | t5/data/utils.py:136 | the memo table starts empty and consistent |
| `Loader.LoaderCache.Get` | t5/data/utils.py:138-143 | a known key returns the stored instance and leaves the table alone; a new key stores a fresh instance under that key only; the instance carries the key's name and directory |
| `Loader.SameKeySameInstance` | t5/data/utils.py:138-143 | two constructions with the same key give the same object |
| `Strings.LessIrreflexive` | t5/data/utils.py:423-424 | Python's string order is irreflexive |
| `Strings.LessTransitive` | t5/data/utils.py:423-424 | Python's string order is transitive |
| `Strings.LessTotal` | t5/data/utils.py:423-424 | any two distinct strings are ordered one way |
| `Strings.LessAsymmetric` | t5/data/utils.py:423-424 | no two strings are ordered both ways |
| `Strings.LessThanExtension` | t5/data/utils.py:272-286 | a key sorts before the same key with a suffix, so `k` is visited before `k_plaintext` |
| `Strings.Insert` | t5/data/utils.py:423-424 | inserting into a sorted duplicate-free list keeps it so and adds exactly the new element |
| `Strings.SortedUnique` | t5/data/utils.py:423-424 | `sorted(set(xs))` is strictly increasing and has exactly the elements of `xs` |
| `Strings.StrictlySortedUnique` | t5/data/utils.py:423-424 | two strictly sorted lists with the same elements are equal |
| `Strings.SortedUniqueCanonical` | t5/data/utils.py:423-424 | two feature lists give the same `sorted(set(...))` exactly when they have the same elements |
| `Strings.Join` | t5/data/utils.py:566-569 | `os.path.join` ends with its second part and is non-empty when that part is |
| `Features.FilterFeatures` | t5/data/utils.py:796-797 | keeps exactly the keys that are listed features, with their values |
| `Features.ProjectDataset` | t5/data/utils.py:796-802 | the projected dataset has as many examples, each one filtered, and stays well typed |
| `Encoding.EncodedExample` | t5/data/utils.py:255-288 | the keys are the original ones plus a `_plaintext` key per encoded feature; listed string features become `vocab(s)`; all others are unchanged; a free `_plaintext` name holds the original string |
| `Encoding.EncodeFeatures` | t5/data/utils.py:272-286 | the key-by-key loop, for any duplicate-free visiting order of the example's keys, builds exactly `EncodedInOrder` for that order |
| `Encoding.EncodedInOrder` | t5/data/utils.py:272-286 | the same keys as `EncodedExample`; every name agrees with it except a feature name whose plaintext copy is visited after it, which then holds the copied original string |
| `Encoding.SortedOrderKeepsFeatures` | t5/data/utils.py:272-286 | visiting the keys in increasing order gives `EncodedExample` |
| `Encoding.AnyOrderWithoutCollision` | t5/data/utils.py:272-286 | without a `k_plaintext` key beside an encoded `k`, every visiting order gives `EncodedExample` |
| `Encoding.OrderDecidesCollision` | t5/data/utils.py:281-286 | with `a` and `a_plaintext` both present, the key visited last decides the value of `a_plaintext` |
| `Encoding.EncodedConforms` | t5/data/utils.py:255-288 | encoded examples conform to the encoded static types |
| `Encoding.EncodeDataset` | t5/data/utils.py:287-288 | every example is encoded and the static types change the same way |
| `Tasks.NameRun` | t5/data/utils.py:38 | the greedy run of name characters at the start of a string |
| `Tasks.MatchesNamePatternAsWritten` | t5/data/utils.py:38 | the pattern as Python applies it: a run of name characters that ends the string or is followed by one final newline |
| `Tasks.ValidTaskName` | t5/data/utils.py:38 | the intended rule: the whole name is a non-empty run of name characters |
| `Tasks.ValidTaskNameChars` | t5/data/utils.py:38 | a valid name is non-empty and made only of letters, digits, `_` and `.` |
| `Tasks.SpaceOrSlashRejected` | t5/data/utils.py:404-407 | a name holding a space or a slash is refused |
| `Tasks.AsWrittenAcceptsTrailingNewline` | t5/data/utils.py:38 | the written pattern accepts exactly the valid names, and the valid names followed by one newline |
| `Tasks.TrailingNewlineAccepted` | t5/data/utils.py:404 | `"glue\n"` passes the written check although it is not a valid name |
| `Tasks.CheckTaskArgs` | t5/data/utils.py:404-410 | construction passes exactly when the name is valid and the TFDS name has `:`; the name is checked first |
| `Tasks.OutputFeatures` | t5/data/utils.py:423-424 | strictly sorted, non-empty, with exactly the given features, or `inputs` and `targets` when none or an empty list is given |
| `Tasks.ApplyAll` | t5/data/utils.py:459-464 | `_preprocess_dataset`: each preprocessor in turn, the first applied first |
| `Tasks.ApplyAllInOrder` | t5/data/utils.py:459-464 | preprocessors run in list order: applying `a + b` is applying `a` and then `b` |
| `Tasks.FeatureCheck` | t5/data/utils.py:489-505 | one feature passes exactly when it is present with the expected type and rank |
| `Tasks.CheckSpec` | t5/data/utils.py:489-505 | passes exactly when every output feature passes; a failure is the first failing feature's error |
| `Tasks.CheckSpecOnlyReadsFeatures` | t5/data/utils.py:489-505 | the static checks depend only on the output features' types |
| `Tasks.Validate` | t5/data/utils.py:466-521 | succeeds, returning the dataset unchanged, exactly when the static checks pass and, if asked, no output feature contains EOS; each failure is the right error |
| `Tasks.ValidateIgnoresOtherFeatures` | t5/data/utils.py:507-520 | features outside the output features never affect validation |
| `Tasks.CheckLengths` | t5/data/utils.py:554 | passes exactly when every output feature has a sequence length, else names a missing one |
| `Tasks.SliceTo` | t5/data/utils.py:554 | Python's `v[:stop]`, a prefix whose length follows the rules for a positive and a negative stop |
| `Tasks.TrimAndAppendEos` | t5/data/utils.py:551-554 | the result is a prefix of `v` followed by EOS; for `length >= 1` its length is `min(|v| + 1, length)` |
| `Tasks.TrimKeepsFinishedSequence` | t5/data/utils.py:551-554 | a sequence of exactly `length` ending in EOS is left unchanged |
| `Tasks.TrimWithNonPositiveLength` | t5/data/utils.py:554 | with a length below 1 the slice counts from the end, so the result is longer than the length |
| `Tasks.TrimExample` | t5/data/utils.py:551-558 | output token features are trimmed, every other key is unchanged, no key is added or lost |
| `Tasks.TrimDataset` | t5/data/utils.py:556-558 | every example is trimmed and the static types are kept |
| `Tasks.Task.constructor` | t5/data/utils.py:411-425 | the task records its arguments, sorted unique output features, no cache directory and no statistics |
| `Tasks.Task.Postprocess` | t5/data/utils.py:419-420 | the given postprocessing function, or the identity when none is given |
| `Tasks.Task.Vocabulary` | t5/data/utils.py:608-611 | the tokenizer built for the task's model path |
| `Tasks.Task.Splits` | t5/data/utils.py:455-457 | the explicit splits unless missing or empty, else the splits the dataset reports |
| `Tasks.Task.PreprocessText` | t5/data/utils.py:523-529 | the text preprocessors followed by validation for string scalars; on success every output feature is a string scalar |
| `Tasks.Task.PreprocessTokens` | t5/data/utils.py:531-558 | fails exactly when a check, a sequence length or the EOS check fails; on success each output feature is cut and ends in EOS within its length, and other features pass through |
| `Tasks.Task.OnTheFly` | t5/data/utils.py:636-645 | the on-the-fly pipeline's result meets the token-stage promise |
| `Tasks.Task.FirstCompleted` | t5/data/utils.py:560-572 | the first global cache root holding `<root>/<task name>/COMPLETED`, as `<root>/<task name>` |
| `Tasks.Task.FirstCompletedIsEarliest` | t5/data/utils.py:560-572 | the search returns the directory under the earliest root with a `COMPLETED` marker |
| `Tasks.Task.FirstCompletedNone` | t5/data/utils.py:560-577 | the search finds nothing exactly when no root has the marker |
| `Tasks.Task.Initialize` | t5/data/utils.py:560-577 | a known cache directory is kept; otherwise it becomes the result of the ordered search |
| `Tasks.Task.Cached` | t5/data/utils.py:579-583 | initializes, then reports whether a cache directory is known |
| `Tasks.Task.AssertCached` | t5/data/utils.py:591-594 | fails with "not cached" exactly when no cache directory is found |
| `Tasks.Task.CacheDirectory` | t5/data/utils.py:585-589 | the resolved directory, or the "not cached" failure |
| `Tasks.Task.GetCachedStats` | t5/data/utils.py:596-606 | fails when not cached, or when the split's statistics file is absent; a known split is answered from memory; otherwise the file is read and remembered |
| `Tasks.Task.GetDataset` | t5/data/utils.py:613-683 | on the cached path: fails "not cached" and leaves the statistics alone without a cache; fails naming the split when its statistics file is absent; otherwise the statistics gain exactly that file's contents, or stay as they were when already known; fails on a missing `examples` entry; otherwise returns exactly the token stage on the cached split; a known cache directory and known statistics never change. On the on-the-fly path: verifies the split and runs the pipeline, leaving the cache state alone. Success meets the token-stage promise |
| `Tasks.StatsAreMemoized` | t5/data/utils.py:596-606 | a second call returns the first successful answer whatever the files say by then |
| `Tasks.StatsPath` | t5/data/utils.py:347-348 | the path ends with the file name `stats.{split}.json` |
| `Tasks.StatsPathInjective` | t5/data/utils.py:347-348 | two splits of one directory never share a statistics file |
| `Tasks.CacheDirIsStable` | t5/data/utils.py:560-583 | once a task is cached it stays cached, at the directory the first search found |
| `Tasks.OnTheFlyWithoutPreprocessors` | t5/data/utils.py:636-645 | with no preprocessors, every output string becomes its trimmed, EOS-terminated encoding, keeps a plaintext copy where the name is free, and other features stay as loaded |
| `Tasks.TokenOutputRejectedAgain` | t5/data/utils.py:544-549 | the token stage's output fed to it again fails with the EOS error |
| `Tasks.NewTask` | t5/data/utils.py:404-425 | fails with the first argument error and leaves the loader memo alone; otherwise a fresh valid task recording every argument, whose handle is the memo's entry for `(tfds_name, data_dir)`: the stored one when the key was known, leaving the memo unchanged, else a fresh one added under that key only |
| `Tasks.SameDatasetSameHandle` | t5/data/utils.py:138-143 | two tasks built on the same TFDS name and data directory share one loader handle |
| `Tasks.AddTask` | t5/data/utils.py:686-692 | a duplicate name is refused before any task is built, and the loader memo is unchanged; a bad argument is refused, memo unchanged; otherwise exactly the new task is added under its name, with every field `NewTask` promises and the memo changed only at its key |
| `Mixtures.RateNumExamples` | t5/data/utils.py:815-823 | examples times scale, capped by a truthy maximum: the result is the smaller of the two; unchanged when the maximum is unset or 0 |
| `Mixtures.MaximumOnlyCaps` | t5/data/utils.py:819-820 | a maximum only lowers the rate and leaves a rate below it alone |
| `Mixtures.RateUnsupervised` | t5/data/utils.py:827-830 | the configured value, whatever the task |
| `Mixtures.EntryError` | t5/data/utils.py:724-732 | an entry fails with "need a rate" when it is a bare name without a default, else with "not registered" for an unknown task |
| `Mixtures.FirstEntryError` | t5/data/utils.py:724-733 | no error exactly when every entry passes; otherwise the first failing entry's error |
| `Mixtures.FirstErrorAt` | t5/data/utils.py:724-733 | the error raised is that of the first failing entry |
| `Mixtures.LookedUp` | t5/data/utils.py:724-732 | one registered task per entry, in entry order, each the one registered under the entry's name |
| `Mixtures.RateMap` | t5/data/utils.py:733 | `_task_to_rate`, filled entry by entry (see `RateMapKeys` and `RateMapLastWins`) |
| `Mixtures.RateOf` | t5/data/utils.py:747-749 | the value `get_rate` computes for a stored rate: a literal, the unsupervised constant, the callable's value, or the example-count rate of the `train` statistics; none for a `None` rate, on which `float(None)` raises |
| `Mixtures.RateOfKept` | t5/data/utils.py:596-606 | a rate that could be computed from a task's statistics keeps its value when the statistics only gain entries, as memoized statistics do |
| `Mixtures.ResolvedDir` | t5/data/utils.py:560-577 | the cache directory a task ends up with: the known one, else the first global root holding its `COMPLETED` marker |
| `Mixtures.StatsFor` | t5/data/utils.py:596-606 | what `get_cached_stats(split)` answers: nothing without a directory, the remembered statistics of a known split, else the contents of an existing statistics file |
| `Mixtures.Evolved` | t5/data/utils.py:560-606 | a task's cache state as `initialize` and `get_cached_stats` change it: a known directory and known statistics are kept, the resolved directory stays the same, and every statistics lookup gets the same answer |
| `Mixtures.EvolvedTrans` | t5/data/utils.py:596-606 | two evolutions in a row are one |
| `Mixtures.StatsCallOutcome` | t5/data/utils.py:596-606 | `get_cached_stats` succeeds exactly when `StatsFor` on the state before the call answers, with that answer, which it then remembers; the state evolves |
| `Mixtures.CachedSucceeds` | t5/data/utils.py:613-683 | the cached `get_dataset` succeeds: a directory is found, the split's statistics exist and count its examples, and the token stage succeeds on the cached split |
| `Mixtures.CachedCallOutcome` | t5/data/utils.py:613-683 | the cached `get_dataset` succeeds exactly when `CachedSucceeds` holds on the state before the call, and then returns the token stage on the resolved directory's split; the state evolves |
| `Mixtures.RateSucceeds` | t5/data/utils.py:747-749 | `get_rate` succeeds: never on `None`, on an example-count rate only when the `train` statistics count examples, always on the other rates |
| `Mixtures.EvolvedKeepsRate` | t5/data/utils.py:747-749 | memoizing statistics never changes whether a rate succeeds |
| `Mixtures.DatasetSucceeds` | t5/data/utils.py:798-802 | a kept task's dataset is built on the path asked for: `CachedSucceeds`, or the split exists and the pipeline succeeds |
| `Mixtures.BuiltComponent` | t5/data/utils.py:798-802 | the dataset built for a kept task: the token stage on the split cached in the resolved directory, or the pipeline on the loaded split, then projected |
| `Mixtures.BuiltIsMixed` | t5/data/utils.py:796-802 | a built component has exactly the output features, each ending in EOS within its length |
| `Mixtures.EvolvedKeepsBuilt` | t5/data/utils.py:798-802 | memoizing never changes whether a task's dataset succeeds, nor which dataset it is |
| `Mixtures.TaskSucceeds` | t5/data/utils.py:798-803 | a kept task lets `get_dataset` succeed: its dataset does, and it has a stored rate that `get_rate` accepts |
| `Mixtures.OnTheFlyTaskSucceeds` | t5/data/utils.py:798-803 | on the on-the-fly path and with no example-count rate, a task lets `get_dataset` succeed exactly when it has a stored rate other than `None` and its pipeline succeeds |
| `Mixtures.RateMapKeys` | t5/data/utils.py:733 | the rate map names exactly the listed tasks |
| `Mixtures.RateMapLastWins` | t5/data/utils.py:733 | a task listed more than once keeps the rate of its last entry |
| `Mixtures.OneDistinctValue` | t5/data/utils.py:734-741 | `len(set(...)) == 1` exactly when the list is non-empty and all values agree, so an empty mixture fails |
| `Mixtures.WithSplit` | t5/data/utils.py:786-793 | keeps exactly the tasks that have the split |
| `Mixtures.WithSplitKeepsOrder` | t5/data/utils.py:786-793 | filtering distributes over concatenation, so the kept tasks stay in their order |
| `Mixtures.ProjectTokenOutput` | t5/data/utils.py:796-802 | after projection every example has exactly the output features, each ending in EOS within its length |
| `Mixtures.Mixture.constructor` | t5/data/utils.py:722-723 | a mixture starts with no tasks and no rates |
| `Mixtures.LookUpEntries` | t5/data/utils.py:724-733 | the entry loop: the first entry error, else `LookedUp` of the entries with the `RateMap` |
| `Mixtures.Mixture.Init` | t5/data/utils.py:699-741 | fails with the first entry error, else keeps exactly `LookedUp` of the entries, in order, with the last-wins rate map; then demands one feature list and then one model path; success gives a valid mixture; an empty list fails |
| `Mixtures.Mixture.OutputFeatures` | t5/data/utils.py:751-755 | the output features, shared by every task |
| `Mixtures.Mixture.SentencepieceModelPath` | t5/data/utils.py:757-761 | the model path, shared by every task |
| `Mixtures.Mixture.Vocabulary` | t5/data/utils.py:763-765 | the vocabulary, the same one every task would build |
| `Mixtures.Mixture.SelectTasks` | t5/data/utils.py:786-795 | the tasks with the split in their order, or "no datasets" when none has it |
| `Mixtures.Mixture.Rates` | t5/data/utils.py:803 | one `get_rate` per kept task, in order, each `RateOf` that task's stored rate; it succeeds exactly when every kept task has a stored rate that `RateSucceeds` accepts on the task's cache state before the call; every task's cache state only evolves |
| `Mixtures.Mixture.KeptTaskRate` | t5/data/utils.py:747-749 | `get_rate` as the list of rates relies on it: `RateOf` the stored rate, success exactly on `RateSucceeds`, a cache state that only evolves |
| `Mixtures.Component` | t5/data/utils.py:798-802 | one task's dataset on the path asked for, projected: exactly the `BuiltComponent` of the task's cache state before the call; it succeeds exactly when `DatasetSucceeds` holds for that state, which then only evolves |
| `Mixtures.ComponentSince` | t5/data/utils.py:798-802 | `Component`, judged by an earlier cache state from which the task's state has evolved |
| `Mixtures.TaskDatasets` | t5/data/utils.py:798-802 | one projected dataset per kept task, in order, each the `BuiltComponent` of that task's cache state before the list was begun; it succeeds exactly when `DatasetSucceeds` holds for every kept task; every task's cache state only evolves |
| `Mixtures.Mixture.DatasetsAndRates` | t5/data/utils.py:798-803 | both list comprehensions, zipped: per kept task its `BuiltComponent`, projected onto the output features, and `RateOf` its stored rate; it succeeds exactly when every kept task `TaskSucceeds` on its cache state before the call |
| `Mixtures.Mixture.GetRate` | t5/data/utils.py:747-749 | an unknown task fails; a `None` rate fails with the `TypeError` of `float(None)`; a literal or fixed rate is returned without touching the task; a callable is applied to the task; an example-count rate reads the cached `train` statistics, with exactly the cache and statistics changes of `get_cached_stats`, and fails without a cache, a stats file or an `examples` entry; it succeeds exactly when `RateSucceeds` holds on the state before the call, and every success is `RateOf` the stored rate |
| `Mixtures.Mixture.GetDataset` | t5/data/utils.py:767-803 | fails when no task has the split; otherwise one pair per kept task, in order: the task's own dataset projected onto the output features, each ending in EOS (its on-the-fly pipeline, or the token stage on the split cached in the directory the task resolves to), and `RateOf` that task's stored rate; it succeeds exactly when some task has the split and every kept task `TaskSucceeds` on its cache state before the call; every kept task's cache state only evolves |
| `Mixtures.NewMixture` | t5/data/utils.py:699-741 | fails with the first entry error; then with "incompatible output features" unless the looked-up tasks have one feature list, then "incompatible model paths" unless they have one model path; succeeds exactly when both hold, so an empty list fails; success gives a fresh valid mixture of `LookedUp` with the rate map |
| `Mixtures.AddMixture` | t5/data/utils.py:912-918 | a duplicate name is refused before the mixture is built; otherwise the errors and the success condition of `NewMixture`; on success exactly the new mixture is added, holding the looked-up tasks and the rate map |

## Left out

- The TensorFlow, TFDS and SentencePiece calls are external. The model gives their results as
  parameters, in `Storage`, and does not model them:
  - the builder and its memoized `_builder`;
  - `files`, `load` and `load_shard`;
  - `tfds.load`, reading cache shards and `parse_single_example`;
  - the SentencePiece tokenizer, which is an abstract function from a string to token ids.
- `Tasks.Task.GetDataset` stands for `_get_cached_dataset` by the decoded split in
  `Storage.cachedSplit`.
  - It keeps that function's `assert_cached` and statistics lookup.
  - It leaves out reading `info.{split}.json`, decoding the feature schema and globbing shard
    files.
- The in-memory caching decision (`ds.cache()` at 1000 examples), shuffling and `.repeat()` do
  not change what the dataset contains, so they are not modelled.
- `Mixtures.Mixture.GetDataset` stops before random sampling:
  - it returns the projected datasets and their rates, in task order;
  - `sample_from_datasets` draws randomly, so it is not modelled.
- `_log_mixing_proportions`, `_normalize` and `_log_padding_fractions` produce logging, with
  floating-point diagnostics, and are not modelled.
- `Mixtures.Mixture.GetDataset` does not model the exceptions that logging raises. Logging runs
  when `split` is `"train"` and `use_cached` is true (t5/data/utils.py:806-807). In each case the
  source raises but the model succeeds:
  - a `KeyError` from `sequence_length["inputs"]` or `sequence_length["targets"]` when the
    length map lacks that key (t5/data/utils.py:886, 888);
  - a `KeyError` when a task without token preprocessors lacks `inputs_tokens` or
    `targets_tokens` statistics;
  - a `ZeroDivisionError` in `_normalize` when the rates sum to 0 (t5/data/utils.py:866-868);
  - a `ZeroDivisionError` when a task's statistics report 0 `examples`
    (t5/data/utils.py:889-890).
- `Mixtures.Mixture.GetDataset` states each cached component by the task's cache state before the
  call (`Mixtures.BuiltComponent`). It does not restate that the call leaves each task's cache
  directory and the split's statistics remembered; `Tasks.Task.GetDataset` states that.
- `Mixtures.Mixture.GetDataset` has no `shuffle` or `compute_stats_empirically` parameter. The
  first only affects order; the second only affects logging.
- `Encoding.EncodeDataset` encodes every example with `Encoding.EncodedExample`, the result of
  visiting keys in increasing order, in which the original feature wins over an existing
  `k_plaintext` key. The source's dictionary order is not fixed; in the other order the copy
  wins (`Encoding.OrderDecidesCollision`). `Encoding.EncodeFeatures` itself covers every order.
- `Mixtures.RateNumExamples` models only `temperature = 1`. Other temperatures raise the rate to a
  floating-point power. Rates are reals, not floats.
- `Mixtures.Rate`: a function passed as a rate sees only the task's name, not the whole task.
- `Tasks.ValidTaskName` covers only ASCII letters and digits. Python's `\w` also accepts non-ASCII
  word characters.
- `Tasks.CheckTaskArgs` uses the intended name rule, not the pattern as written. The pattern as
  written also accepts a name followed by one newline (see Findings).
- `dict_to_tfexample`, `inverse_dataset`, `get_info_path` and `get_tfrecord_prefix` build
  protocol buffers or files for other code, and are not part of this model.
- The registry-level `get_dataset` is `get` followed by the provider's `get_dataset`. It is not
  modelled separately.
- The check that a registered provider has the registry's type always passes here, because each
  registry is typed by its provider class.
- Task options with no effect on the data path are not modelled:
  - `metric_fns`;
  - the `**kwargs` of `postprocess_fn`;
  - passing one preprocessor instead of a list, which is modelled as the one-element list;
  - passing `None`, which is modelled as the empty list.
- Module globals are values of `Config`. The setters `set_tfds_data_dir_override`,
  `set_global_cache_dirs` and `add_global_cache_dirs` are just how a new value is built.
- `LazyTfdsLoader.__init__` re-runs on a memoized instance and resets its builder. Pickling
  (`__getstate__` and `__getnewargs__`), gin configuration and logging are not modelled.

## Findings

| source | as written | input that shows it | evidently intended | confidence | as-written member | corrected member |
|---|---|---|---|---|---|---|
| t5/data/utils.py:38 | `re.match(r"^[\w\d\._]+$", name)`; in Python, `$` also matches just before a newline that ends the string | the task name `"glue\n"` passes the check | the whole name consists of `[\w\d._]` characters, e.g. `re.fullmatch` or `\Z` | medium; not executed | `Tasks.TrailingNewlineAccepted` | `Tasks.ValidTaskNameChars` |
