/**
 * `Mixture`: tasks with mixing rates, built from registered tasks that agree on their output
 * features and vocabulary; the rate functions; and `MixtureRegistry.add`.
 */
module Mixtures {
  import opened Wrappers
  import opened Features
  import opened Environment
  import opened Registries
  import opened Tasks

  /**
   * A mixing rate: a number, or one of the rate functions of the task. `NumExamples` is
   * `rate_num_examples` with temperature 1, `Unsupervised` is `rate_unsupervised`, and `Callable`
   * is any other function of the task, which sees the task's name. `Missing` is the `None` that a
   * `(name, None)` entry stores.
   */
  datatype Rate =
    | Missing
    | Literal(value: real)
    | NumExamples(maximum: Option<real>, scale: real)
    | Unsupervised(value: real)
    | Callable(f: string -> real)

  /** An element of the task list given to a mixture: a bare name, or a name with its rate. */
  datatype TaskEntry = Named(name: string) | Rated(name: string, rate: Rate)

  /** `rate_num_examples` with temperature 1: examples times scale, capped by a truthy maximum. */
  function RateNumExamples(examples: int, maximum: Option<real>, scale: real): (r: real)
    ensures maximum.None? || maximum.value == 0.0 ==> r == examples as real * scale
    ensures maximum.Some? && maximum.value != 0.0 ==>
      r <= maximum.value && r <= examples as real * scale && (r == maximum.value || r == examples as real * scale)
  {
    var scaled := examples as real * scale;
    if maximum.Some? && maximum.value != 0.0 && maximum.value < scaled then maximum.value else scaled
  }

  /** A truthy maximum only ever lowers the rate, and leaves a rate below it alone. */
  lemma MaximumOnlyCaps(examples: int, maximum: real, scale: real)
    requires maximum != 0.0
    ensures RateNumExamples(examples, Some(maximum), scale) <= RateNumExamples(examples, None, scale)
    ensures examples as real * scale <= maximum ==> RateNumExamples(examples, Some(maximum), scale) == RateNumExamples(examples, None, scale)
  {
  }

  /** `rate_unsupervised`: the configured value (1e6 unless configured), whatever the task. */
  function RateUnsupervised(value: real): (r: real)
    ensures r == value
  {
    value
  }

  /** The rate named by an entry: its own, or the default for a bare name. */
  function EntryRate(e: TaskEntry, defaultRate: Option<Rate>): Option<Rate> {
    match e
    case Named(_) => defaultRate
    case Rated(_, rate) => Some(rate)
  }

  /** The error one entry raises in `Mixture.__init__`: no rate for a bare name, then an unknown task. */
  function EntryError(e: TaskEntry, defaultRate: Option<Rate>, registered: set<string>): (r: Option<Error>)
    ensures r.None? <==> EntryRate(e, defaultRate).Some? && e.name in registered
    ensures r.Some? && EntryRate(e, defaultRate).None? ==> r == Some(MissingRate(e.name))
    ensures r.Some? && EntryRate(e, defaultRate).Some? ==> r == Some(ProviderNotRegistered(e.name))
  {
    if EntryRate(e, defaultRate).None? then Some(MissingRate(e.name))
    else if e.name !in registered then Some(ProviderNotRegistered(e.name))
    else None
  }

  predicate NoErrorBefore(entries: seq<TaskEntry>, defaultRate: Option<Rate>, registered: set<string>, i: nat)
    requires i <= |entries|
  {
    forall j :: 0 <= j < i ==> EntryError(entries[j], defaultRate, registered).None?
  }

  /** The error of the first failing entry, if any. */
  function FirstEntryError(entries: seq<TaskEntry>, defaultRate: Option<Rate>, registered: set<string>): (r: Option<Error>)
    ensures r.None? <==> NoErrorBefore(entries, defaultRate, registered, |entries|)
    ensures r.Some? ==> exists i :: 0 <= i < |entries| && r == EntryError(entries[i], defaultRate, registered) && NoErrorBefore(entries, defaultRate, registered, i)
    decreases |entries|
  {
    if entries == [] then None
    else
      var n := |entries| - 1;
      var prior := FirstEntryError(entries[..n], defaultRate, registered);
      assert forall j :: 0 <= j < n ==> entries[..n][j] == entries[j];
      assert NoErrorBefore(entries[..n], defaultRate, registered, n) == NoErrorBefore(entries, defaultRate, registered, n);
      if prior.Some? then
        assert exists i :: 0 <= i < n && prior == EntryError(entries[i], defaultRate, registered) && NoErrorBefore(entries, defaultRate, registered, i) by {
          var i :| 0 <= i < n && prior == EntryError(entries[..n][i], defaultRate, registered) && NoErrorBefore(entries[..n], defaultRate, registered, i);
          assert NoErrorBefore(entries, defaultRate, registered, i);
        }
        prior
      else
        EntryError(entries[n], defaultRate, registered)
  }

  /** When every entry before `i` passes and entry `i` fails, entry `i`'s error is the one raised. */
  lemma FirstErrorAt(entries: seq<TaskEntry>, defaultRate: Option<Rate>, registered: set<string>, i: nat)
    requires i < |entries|
    requires FirstEntryError(entries[..i], defaultRate, registered).None?
    requires EntryError(entries[i], defaultRate, registered).Some?
    ensures FirstEntryError(entries, defaultRate, registered) == EntryError(entries[i], defaultRate, registered)
  {
    assert NoErrorBefore(entries[..i], defaultRate, registered, i);
    assert !NoErrorBefore(entries, defaultRate, registered, |entries|);
    var k :| 0 <= k < |entries| && FirstEntryError(entries, defaultRate, registered) == EntryError(entries[k], defaultRate, registered) &&
      NoErrorBefore(entries, defaultRate, registered, k);
    if k < i {
      assert entries[..i][k] == entries[k];
    }
  }

  /** No later entry carries the same name as entry `i`. */
  predicate LastWithName(entries: seq<TaskEntry>, i: nat)
    requires i < |entries|
  {
    forall j :: i < j < |entries| ==> entries[j].name != entries[i].name
  }

  /** `_task_to_rate` after the loop: every named task, with the rate of its last entry. */
  function RateMap(entries: seq<TaskEntry>, defaultRate: Option<Rate>): map<string, Rate>
    requires forall i :: 0 <= i < |entries| ==> EntryRate(entries[i], defaultRate).Some?
    decreases |entries|
  {
    if entries == [] then map[]
    else
      var n := |entries| - 1;
      RateMap(entries[..n], defaultRate)[entries[n].name := EntryRate(entries[n], defaultRate).value]
  }

  /** The rate map names exactly the listed tasks. */
  lemma {:induction false} RateMapKeys(entries: seq<TaskEntry>, defaultRate: Option<Rate>)
    requires forall i :: 0 <= i < |entries| ==> EntryRate(entries[i], defaultRate).Some?
    ensures forall nm :: nm in RateMap(entries, defaultRate) <==> exists i :: 0 <= i < |entries| && entries[i].name == nm
    decreases |entries|
  {
    if entries != [] {
      var n := |entries| - 1;
      var prefix := entries[..n];
      RateMapKeys(prefix, defaultRate);
      forall nm ensures nm in RateMap(entries, defaultRate) <==> exists i :: 0 <= i < |entries| && entries[i].name == nm {
        if nm in RateMap(prefix, defaultRate) {
          var i :| 0 <= i < n && prefix[i].name == nm;
          assert entries[i].name == nm;
        }
        if exists i :: 0 <= i < |entries| && entries[i].name == nm {
          var i :| 0 <= i < |entries| && entries[i].name == nm;
          if i < n {
            assert prefix[i].name == nm;
          }
        }
      }
    }
  }

  /** A task listed more than once keeps the rate of its last entry. */
  lemma {:induction false} RateMapLastWins(entries: seq<TaskEntry>, defaultRate: Option<Rate>, i: nat)
    requires forall j :: 0 <= j < |entries| ==> EntryRate(entries[j], defaultRate).Some?
    requires i < |entries| && LastWithName(entries, i)
    ensures entries[i].name in RateMap(entries, defaultRate)
    ensures RateMap(entries, defaultRate)[entries[i].name] == EntryRate(entries[i], defaultRate).value
    decreases |entries|
  {
    var n := |entries| - 1;
    if i < n {
      var prefix := entries[..n];
      assert prefix[i] == entries[i];
      assert entries[n].name != entries[i].name;
      assert LastWithName(prefix, i) by {
        forall j | i < j < n ensures prefix[j].name != prefix[i].name {
          assert prefix[j] == entries[j];
        }
      }
      RateMapLastWins(prefix, defaultRate, i);
    }
  }

  /** One more passing entry extends the loop's prefix facts. */
  lemma StepEntry(entries: seq<TaskEntry>, defaultRate: Option<Rate>, registered: set<string>, i: nat)
    requires i < |entries|
    requires FirstEntryError(entries[..i], defaultRate, registered).None?
    requires EntryError(entries[i], defaultRate, registered).None?
    requires forall j :: 0 <= j < i ==> EntryRate(entries[j], defaultRate).Some?
    ensures FirstEntryError(entries[..i + 1], defaultRate, registered).None?
    ensures forall j :: 0 <= j < i + 1 ==> EntryRate(entries[j], defaultRate).Some?
    ensures RateMap(entries[..i + 1], defaultRate) ==
      RateMap(entries[..i], defaultRate)[entries[i].name := EntryRate(entries[i], defaultRate).value]
  {
    assert entries[..i + 1][..i] == entries[..i];
    assert entries[..i + 1][i] == entries[i];
  }

  /** The registered tasks the entries name, in the entries' order. */
  function LookedUp(entries: seq<TaskEntry>, registered: map<string, Task>): (r: seq<Task>)
    requires forall i :: 0 <= i < |entries| ==> entries[i].name in registered
    ensures |r| == |entries| && forall i :: 0 <= i < |entries| ==> r[i] == registered[entries[i].name]
  {
    seq(|entries|, i requires 0 <= i < |entries| => registered[entries[i].name])
  }

  /**
   * `get_rate` once the task's statistics are known: the rate function applied to the task, or
   * nothing when an example-count rate finds no `train` example count.
   */
  function RateOf(rate: Rate, name: string, stats: map<string, Stats>): Option<real> {
    match rate
    case Missing => None
    case Literal(v) => Some(v)
    case Unsupervised(v) => Some(RateUnsupervised(v))
    case Callable(f) => Some(f(name))
    case NumExamples(maximum, scale) =>
      if "train" in stats && "examples" in stats["train"] then Some(RateNumExamples(stats["train"]["examples"], maximum, scale))
      else None
  }

  /** The set of distinct values of `f` over `s`, as `set(... for t in tasks)` builds it. */
  function Image<T, U(==)>(s: seq<T>, f: T -> U): set<U> {
    set i | 0 <= i < |s| :: f(s[i])
  }

  /** `len(set(...)) == 1`: the list is non-empty and all of its values agree. */
  lemma {:induction false} OneDistinctValue<T, U>(s: seq<T>, f: T -> U)
    ensures |Image(s, f)| == 1 <==> |s| > 0 && forall i :: 0 <= i < |s| ==> f(s[i]) == f(s[0])
  {
    if |s| > 0 && forall i :: 0 <= i < |s| ==> f(s[i]) == f(s[0]) {
      assert Image(s, f) == {f(s[0])};
    }
    if |Image(s, f)| == 1 {
      var y := f(s[0]);
      assert y in Image(s, f);
      forall i | 0 <= i < |s| ensures f(s[i]) == y {
        if f(s[i]) != y {
          assert f(s[i]) in Image(s, f);
          assert {y, f(s[i])} <= Image(s, f);
          assert |{y, f(s[i])}| == 2;
          SubsetSize({y, f(s[i])}, Image(s, f));
        }
      }
    }
  }

  lemma {:induction false} SubsetSize<U>(a: set<U>, b: set<U>)
    requires a <= b
    ensures |a| <= |b|
    decreases |a|
  {
    if a != {} {
      var x :| x in a;
      SubsetSize(a - {x}, b - {x});
    }
  }

  function FeaturesOf(t: Task): seq<string> {
    t.outputFeatures
  }

  function ModelPathOf(t: Task): string {
    t.sentencepieceModelPath
  }

  /** The tasks that have the split, in their original order. */
  function WithSplit(tasks: seq<Task>, split: string, cfg: Config, storage: Storage): (r: seq<Task>)
    ensures |r| <= |tasks|
    ensures forall i :: 0 <= i < |r| ==> r[i] in tasks && split in r[i].Splits(cfg, storage)
    ensures forall i :: 0 <= i < |tasks| && split in tasks[i].Splits(cfg, storage) ==> tasks[i] in r
    decreases |tasks|
  {
    if tasks == [] then []
    else (if split in tasks[0].Splits(cfg, storage) then [tasks[0]] else []) + WithSplit(tasks[1..], split, cfg, storage)
  }

  /** Filtering distributes over concatenation, so the kept tasks stay in order. */
  lemma {:induction false} WithSplitKeepsOrder(a: seq<Task>, b: seq<Task>, split: string, cfg: Config, storage: Storage)
    ensures WithSplit(a + b, split, cfg, storage) == WithSplit(a, split, cfg, storage) + WithSplit(b, split, cfg, storage)
    decreases |a|
  {
    if a == [] {
      assert a + b == b;
    } else {
      assert (a + b)[0] == a[0] && (a + b)[1..] == a[1..] + b;
      WithSplitKeepsOrder(a[1..], b, split, cfg, storage);
    }
  }

  /** Every mixed example has exactly the output features, each ending in EOS within its length. */
  predicate MixedComponent(features: seq<string>, sequenceLength: map<string, int>, d: Dataset) {
    TokenOutput(features, sequenceLength, d) &&
    forall i, k :: 0 <= i < |d.examples| && k in d.examples[i] ==> k in features
  }

  /** Projecting a task's output onto the output features leaves exactly those features. */
  lemma ProjectTokenOutput(features: seq<string>, sequenceLength: map<string, int>, d: Dataset)
    requires TokenOutput(features, sequenceLength, d)
    ensures MixedComponent(features, sequenceLength, ProjectDataset(d, features))
  {
    var p := ProjectDataset(d, features);
    forall i, f | 0 <= i < |p.examples| && f in features
      ensures f in p.examples[i] && f in sequenceLength
      ensures p.examples[i][f].Tokens? && |p.examples[i][f].ids| >= 1
      ensures p.examples[i][f].ids[|p.examples[i][f].ids| - 1] == Eos
      ensures sequenceLength[f] >= 1 ==> |p.examples[i][f].ids| <= sequenceLength[f]
    {
      assert f in d.examples[i];
      assert p.examples[i] == FilterFeatures(d.examples[i], features);
      assert p.examples[i][f] == d.examples[i][f];
    }
    forall i, k | 0 <= i < |p.examples| && k in p.examples[i] ensures k in features {
      assert p.examples[i] == FilterFeatures(d.examples[i], features);
    }
  }

  /** The task's on-the-fly pipeline on the loaded split. */
  function OnTheFlyOutput(t: Task, split: string, sequenceLength: map<string, int>, cfg: Config, storage: Storage): Result<Dataset> {
    t.OnTheFly(storage.tfdsSplit(t.tfds.name, t.tfds.DataDir(cfg), split), sequenceLength, t.Vocabulary(storage))
  }

  /** The dataset has the split and the on-the-fly pipeline succeeds on it. */
  predicate OnTheFlySucceeds(t: Task, split: string, sequenceLength: map<string, int>, cfg: Config, storage: Storage) {
    split in t.tfds.Splits(cfg, storage) && OnTheFlyOutput(t, split, sequenceLength, cfg, storage).Success?
  }

  /** A mixed component built on the fly: the task's pipeline run on the loaded split, then projected. */
  predicate OnTheFlyComponent(t: Task, split: string, sequenceLength: map<string, int>, cfg: Config, storage: Storage,
                              features: seq<string>, d: Dataset) {
    OnTheFlySucceeds(t, split, sequenceLength, cfg, storage) &&
    d == ProjectDataset(OnTheFlyOutput(t, split, sequenceLength, cfg, storage).value, features)
  }

  /** A rate that could be computed is unchanged when the statistics only grow. */
  lemma RateOfKept(rate: Rate, name: string, stats: map<string, Stats>, stats': map<string, Stats>)
    requires forall s :: s in stats ==> s in stats' && stats'[s] == stats[s]
    ensures RateOf(rate, name, stats).Some? ==> RateOf(rate, name, stats') == RateOf(rate, name, stats)
  {
    if rate.NumExamples? && "train" in stats {
      assert stats'["train"] == stats["train"];
    }
  }

  /** The cache directory `initialize` settles on, given the one known beforehand. */
  function ResolvedDir(t: Task, cacheDir: Option<string>, cfg: Config, storage: Storage): Option<string> {
    if cacheDir.Some? then cacheDir else t.FirstCompleted(cfg.cacheDirs, storage.paths)
  }

  /** What `get_cached_stats(split)` answers in directory `dir`, given the statistics known beforehand. */
  function StatsFor(dir: Option<string>, stats: map<string, Stats>, split: string, storage: Storage): Option<Stats> {
    if dir.None? then None
    else if split in stats then Some(stats[split])
    else if StatsPath(dir.value, split) in storage.paths then Some(storage.statsFile(StatsPath(dir.value, split)))
    else None
  }

  /**
   * `get_dataset(use_cached=True)` of a task succeeds, judged by the task's cache directory and
   * statistics before the call: a directory is found, the split's statistics exist and count its
   * examples, and the token stage succeeds on the cached split.
   */
  predicate CachedSucceeds(t: Task, cacheDir: Option<string>, stats: map<string, Stats>, split: string,
                           sequenceLength: map<string, int>, cfg: Config, storage: Storage)
  {
    var dir := ResolvedDir(t, cacheDir, cfg, storage);
    var s := StatsFor(dir, stats, split, storage);
    && dir.Some? && s.Some? && "examples" in s.value
    && t.PreprocessTokens(storage.cachedSplit(dir.value, split), sequenceLength, t.Vocabulary(storage)).Success?
  }

  /**
   * `get_rate` succeeds on a stored rate, judged by the task's cache state before the call: a
   * missing rate never does, an example-count rate needs the `train` example count, and every
   * other rate does.
   */
  predicate RateSucceeds(rate: Rate, t: Task, cacheDir: Option<string>, stats: map<string, Stats>, cfg: Config, storage: Storage) {
    match rate
    case Missing => false
    case NumExamples(_, _) =>
      var s := StatsFor(ResolvedDir(t, cacheDir, cfg, storage), stats, "train", storage);
      s.Some? && "examples" in s.value
    case _ => true
  }

  /**
   * The cache state (`cacheDir`, `stats`) of a task has evolved from (`cacheDir0`, `stats0`) as
   * the task's methods change it: a known directory is kept and known statistics are kept, the
   * state resolves to the same cache directory, and it answers every statistics lookup the same
   * way, so memoizing never changes an answer.
   */
  ghost predicate Evolved(t: Task, cacheDir0: Option<string>, stats0: map<string, Stats>, cacheDir: Option<string>,
                          stats: map<string, Stats>, cfg: Config, storage: Storage)
  {
    var dir := ResolvedDir(t, cacheDir0, cfg, storage);
    && (cacheDir0.Some? ==> cacheDir == cacheDir0)
    && (forall s :: s in stats0 ==> s in stats && stats[s] == stats0[s])
    && ResolvedDir(t, cacheDir, cfg, storage) == dir
    && forall split :: StatsFor(dir, stats, split, storage) == StatsFor(dir, stats0, split, storage)
  }

  /**
   * The dataset of one kept task is built, judged by its cache state before the call, on the path
   * `useCached` selects.
   */
  predicate DatasetSucceeds(t: Task, cacheDir: Option<string>, stats: map<string, Stats>, split: string,
                            sequenceLength: map<string, int>, useCached: bool, cfg: Config, storage: Storage)
  {
    if useCached then CachedSucceeds(t, cacheDir, stats, split, sequenceLength, cfg, storage)
    else OnTheFlySucceeds(t, split, sequenceLength, cfg, storage)
  }

  /**
   * `d` is the dataset `get_dataset` builds for one kept task, judged by the task's cache state
   * before the call: the token stage on the split cached in the directory the task resolves to,
   * or the task's pipeline on the loaded split, and then projected on the output features.
   */
  predicate BuiltComponent(t: Task, cacheDir: Option<string>, stats: map<string, Stats>, split: string,
                           sequenceLength: map<string, int>, useCached: bool, cfg: Config, storage: Storage,
                           features: seq<string>, d: Dataset)
  {
    && DatasetSucceeds(t, cacheDir, stats, split, sequenceLength, useCached, cfg, storage)
    && if useCached then
         var dir := ResolvedDir(t, cacheDir, cfg, storage).value;
         d == ProjectDataset(t.PreprocessTokens(storage.cachedSplit(dir, split), sequenceLength, t.Vocabulary(storage)).value, features)
       else d == ProjectDataset(OnTheFlyOutput(t, split, sequenceLength, cfg, storage).value, features)
  }

  /** A built component has exactly the task's output features, each ending in EOS within its length. */
  lemma BuiltIsMixed(t: Task, cacheDir: Option<string>, stats: map<string, Stats>, split: string,
                     sequenceLength: map<string, int>, useCached: bool, cfg: Config, storage: Storage, d: Dataset)
    requires BuiltComponent(t, cacheDir, stats, split, sequenceLength, useCached, cfg, storage, t.outputFeatures, d)
    ensures MixedComponent(t.outputFeatures, sequenceLength, d)
  {
    var out := if useCached then
      t.PreprocessTokens(storage.cachedSplit(ResolvedDir(t, cacheDir, cfg, storage).value, split), sequenceLength, t.Vocabulary(storage))
    else OnTheFlyOutput(t, split, sequenceLength, cfg, storage);
    ProjectTokenOutput(t.outputFeatures, sequenceLength, out.value);
  }

  /**
   * One kept task lets `get_dataset` succeed, judged by its cache state before the call: its
   * dataset on the path `useCached` selects, and its rate.
   */
  predicate TaskSucceeds(t: Task, taskToRate: map<string, Rate>, cacheDir: Option<string>, stats: map<string, Stats>,
                         split: string, sequenceLength: map<string, int>, useCached: bool, cfg: Config, storage: Storage)
  {
    && DatasetSucceeds(t, cacheDir, stats, split, sequenceLength, useCached, cfg, storage)
    && t.name in taskToRate && RateSucceeds(taskToRate[t.name], t, cacheDir, stats, cfg, storage)
  }

  /**
   * On the on-the-fly path and without example-count rates, a task lets `get_dataset` succeed
   * exactly when it has a stored rate that is not `None` and its pipeline succeeds.
   */
  lemma OnTheFlyTaskSucceeds(t: Task, taskToRate: map<string, Rate>, cacheDir: Option<string>, stats: map<string, Stats>,
                             split: string, sequenceLength: map<string, int>, cfg: Config, storage: Storage)
    requires t.name in taskToRate ==> !taskToRate[t.name].NumExamples?
    ensures TaskSucceeds(t, taskToRate, cacheDir, stats, split, sequenceLength, false, cfg, storage) <==>
      t.name in taskToRate && !taskToRate[t.name].Missing? && OnTheFlySucceeds(t, split, sequenceLength, cfg, storage)
  {
  }

  /** Evolving twice is evolving once. */
  lemma EvolvedTrans(t: Task, c0: Option<string>, s0: map<string, Stats>, c1: Option<string>, s1: map<string, Stats>,
                     c2: Option<string>, s2: map<string, Stats>, cfg: Config, storage: Storage)
    requires Evolved(t, c0, s0, c1, s1, cfg, storage) && Evolved(t, c1, s1, c2, s2, cfg, storage)
    ensures Evolved(t, c0, s0, c2, s2, cfg, storage)
  {
  }

  /**
   * Whether a task's dataset succeeds, and which dataset it is, does not change while its cache
   * state evolves.
   */
  lemma EvolvedKeepsBuilt(t: Task, c0: Option<string>, s0: map<string, Stats>, c: Option<string>, s: map<string, Stats>,
                          split: string, sequenceLength: map<string, int>, useCached: bool, cfg: Config, storage: Storage,
                          features: seq<string>, d: Result<Dataset>)
    requires Evolved(t, c0, s0, c, s, cfg, storage)
    ensures DatasetSucceeds(t, c, s, split, sequenceLength, useCached, cfg, storage) ==
            DatasetSucceeds(t, c0, s0, split, sequenceLength, useCached, cfg, storage)
    ensures d.Success? ==>
      BuiltComponent(t, c, s, split, sequenceLength, useCached, cfg, storage, features, d.value) ==
      BuiltComponent(t, c0, s0, split, sequenceLength, useCached, cfg, storage, features, d.value)
  {
  }

  /** Nor does whether its rate succeeds. */
  lemma EvolvedKeepsRate(t: Task, c0: Option<string>, s0: map<string, Stats>, c: Option<string>, s: map<string, Stats>,
                         rate: Rate, cfg: Config, storage: Storage)
    requires Evolved(t, c0, s0, c, s, cfg, storage)
    ensures RateSucceeds(rate, t, c, s, cfg, storage) == RateSucceeds(rate, t, c0, s0, cfg, storage)
  {
  }

  /**
   * The loop of `Mixture.__init__`: every entry's task looked up in the registry and its rate
   * recorded, in order, stopping at the first entry that raises.
   */
  method LookUpEntries(entries: seq<TaskEntry>, defaultRate: Option<Rate>, registry: Registry<Task>)
    returns (r: Result<(seq<Task>, map<string, Rate>)>)
    ensures FirstEntryError(entries, defaultRate, registry.entries.Keys).Some? ==>
      r == Failure(FirstEntryError(entries, defaultRate, registry.entries.Keys).value)
    ensures FirstEntryError(entries, defaultRate, registry.entries.Keys).None? ==>
      r == Success((LookedUp(entries, registry.entries), RateMap(entries, defaultRate)))
  {
    ghost var registered := registry.entries.Keys;
    var tasks: seq<Task> := [];
    var taskToRate: map<string, Rate> := map[];
    for i := 0 to |entries|
      invariant FirstEntryError(entries[..i], defaultRate, registered).None?
      invariant |tasks| == i && forall j :: 0 <= j < i ==> tasks[j] == registry.entries[entries[j].name]
      invariant forall j :: 0 <= j < i ==> EntryRate(entries[j], defaultRate).Some?
      invariant taskToRate == RateMap(entries[..i], defaultRate)
    {
      var name: string;
      var rate: Rate;
      match entries[i] {
        case Named(n) =>
          name := n;
          if defaultRate.None? {
            FirstErrorAt(entries, defaultRate, registered, i);
            return Failure(MissingRate(n));
          }
          rate := defaultRate.value;
        case Rated(n, rt) =>
          name := n;
          rate := rt;
      }
      var task := registry.Get(name);
      if task.Failure? {
        FirstErrorAt(entries, defaultRate, registered, i);
        return Failure(task.error);
      }
      StepEntry(entries, defaultRate, registered, i);
      tasks := tasks + [task.value];
      taskToRate := taskToRate[name := rate];
    }
    assert entries[..|entries|] == entries;
    assert tasks == LookedUp(entries, registry.entries);
    r := Success((tasks, taskToRate));
  }

  class Mixture {
    var tasks: seq<Task>
    var taskToRate: map<string, Rate>

    /** What `__init__` establishes: at least one task, one feature list and one model path. */
    ghost predicate Valid()
      reads this
    {
      |tasks| > 0 &&
      forall i :: 0 <= i < |tasks| ==>
        tasks[i].outputFeatures == tasks[0].outputFeatures && tasks[i].sentencepieceModelPath == tasks[0].sentencepieceModelPath
    }

    constructor ()
      ensures tasks == [] && taskToRate == map[]
    {
      tasks := [];
      taskToRate := map[];
    }

    /**
     * The body of `Mixture.__init__`: looks every entry up in its order, with the default rate for
     * bare names, then requires one distinct feature list and one distinct model path.
     */
    method Init(entries: seq<TaskEntry>, defaultRate: Option<Rate>, registry: Registry<Task>) returns (r: Outcome)
      modifies this
      ensures FirstEntryError(entries, defaultRate, registry.entries.Keys).Some? ==>
        r == Fail(FirstEntryError(entries, defaultRate, registry.entries.Keys).value)
      ensures FirstEntryError(entries, defaultRate, registry.entries.Keys).None? ==>
        tasks == LookedUp(entries, registry.entries) && taskToRate == RateMap(entries, defaultRate)
      ensures FirstEntryError(entries, defaultRate, registry.entries.Keys).None? && |Image(tasks, FeaturesOf)| != 1 ==>
        r == Fail(IncompatibleOutputFeatures)
      ensures (FirstEntryError(entries, defaultRate, registry.entries.Keys).None? && |Image(tasks, FeaturesOf)| == 1 &&
               |Image(tasks, ModelPathOf)| != 1) ==> r == Fail(IncompatibleModelPaths)
      ensures r.Pass? <==> (FirstEntryError(entries, defaultRate, registry.entries.Keys).None? &&
        |Image(tasks, FeaturesOf)| == 1 && |Image(tasks, ModelPathOf)| == 1)
      ensures r.Pass? ==> Valid()
      ensures entries == [] ==> r == Fail(IncompatibleOutputFeatures)
    {
      var found := LookUpEntries(entries, defaultRate, registry);
      if found.Failure? {
        return Fail(found.error);
      }
      tasks, taskToRate := found.value.0, found.value.1;
      OneDistinctValue(tasks, FeaturesOf);
      OneDistinctValue(tasks, ModelPathOf);
      if |Image(tasks, FeaturesOf)| != 1 {
        return Fail(IncompatibleOutputFeatures);
      }
      if |Image(tasks, ModelPathOf)| != 1 {
        return Fail(IncompatibleModelPaths);
      }
      r := Pass;
    }

    /** `output_features`: the first task's, which every task shares. */
    function OutputFeatures(): (r: seq<string>)
      requires Valid()
      reads this
      ensures forall i :: 0 <= i < |tasks| ==> tasks[i].outputFeatures == r
    {
      tasks[0].outputFeatures
    }

    /** `sentencepiece_model_path`: the first task's, which every task shares. */
    function SentencepieceModelPath(): (r: string)
      requires Valid()
      reads this
      ensures forall i :: 0 <= i < |tasks| ==> tasks[i].sentencepieceModelPath == r
    {
      tasks[0].sentencepieceModelPath
    }

    /** `get_vocabulary`: the first task's, the same as every task's. */
    function Vocabulary(storage: Storage): (r: Environment.Vocabulary)
      requires Valid()
      reads this
      ensures forall i :: 0 <= i < |tasks| ==> tasks[i].Vocabulary(storage) == r
    {
      tasks[0].Vocabulary(storage)
    }

    /** The split filter of `get_dataset`: the tasks that have the split, or an error if none has. */
    method SelectTasks(split: string, cfg: Config, storage: Storage) returns (r: Result<seq<Task>>)
      ensures WithSplit(tasks, split, cfg, storage) == [] ==> r == Failure(NoAvailableTasks(split))
      ensures WithSplit(tasks, split, cfg, storage) != [] ==> r == Success(WithSplit(tasks, split, cfg, storage))
    {
      var selected: seq<Task> := [];
      for i := 0 to |tasks|
        invariant selected == WithSplit(tasks[..i], split, cfg, storage)
      {
        var task := tasks[i];
        WithSplitKeepsOrder(tasks[..i], [task], split, cfg, storage);
        assert tasks[..i + 1] == tasks[..i] + [task];
        if split !in task.Splits(cfg, storage) {
          continue;
        }
        selected := selected + [task];
      }
      assert tasks[..|tasks|] == tasks;
      if selected == [] {
        return Failure(NoAvailableTasks(split));
      }
      r := Success(selected);
    }

    /** `get_rate`: the literal rate, or the rate function applied to the task. */
    method GetRate(task: Task, cfg: Config, storage: Storage) returns (r: Result<real>)
      requires task.Valid()
      modifies task
      ensures task.Valid()
      ensures old(task.cacheDir).Some? ==> task.cacheDir == old(task.cacheDir)
      ensures forall s :: s in old(task.stats) ==> s in task.stats && task.stats[s] == old(task.stats)[s]
      ensures task.name in taskToRate && r.Success? ==> RateOf(taskToRate[task.name], task.name, task.stats) == Some(r.value)
      ensures task.name !in taskToRate ==> r == Failure(UnknownTask(task.name))
      ensures Evolved(task, old(task.cacheDir), old(task.stats), task.cacheDir, task.stats, cfg, storage)
      ensures task.name in taskToRate ==>
        (r.Success? <==> RateSucceeds(taskToRate[task.name], task, old(task.cacheDir), old(task.stats), cfg, storage))
      ensures task.name !in taskToRate || !taskToRate[task.name].NumExamples? ==>
        task.cacheDir == old(task.cacheDir) && task.stats == old(task.stats)
      ensures task.name in taskToRate && taskToRate[task.name].Missing? ==> r == Failure(RateNotANumber(task.name))
      ensures task.name in taskToRate && taskToRate[task.name].Literal? ==> r == Success(taskToRate[task.name].value)
      ensures task.name in taskToRate && taskToRate[task.name].Unsupervised? ==>
        r == Success(RateUnsupervised(taskToRate[task.name].value))
      ensures task.name in taskToRate && taskToRate[task.name].Callable? ==> r == Success(taskToRate[task.name].f(task.name))
      ensures task.name in taskToRate && taskToRate[task.name].NumExamples? ==>
        && (r.Success? <==> task.cacheDir.Some? && "train" in task.stats && "examples" in task.stats["train"])
        && task.cacheDir == (if old(task.cacheDir).Some? then old(task.cacheDir) else task.FirstCompleted(cfg.cacheDirs, storage.paths))
        && (task.cacheDir.None? ==> r == Failure(NotCached(task.name)) && task.stats == old(task.stats))
        && (task.cacheDir.Some? && "train" in old(task.stats) ==> task.stats == old(task.stats))
        && (task.cacheDir.Some? && "train" !in old(task.stats) && StatsPath(task.cacheDir.value, "train") !in storage.paths ==>
              r == Failure(MissingStats(task.name, "train")) && task.stats == old(task.stats))
        && (task.cacheDir.Some? && "train" !in old(task.stats) && StatsPath(task.cacheDir.value, "train") in storage.paths ==>
              task.stats == old(task.stats)["train" := storage.statsFile(StatsPath(task.cacheDir.value, "train"))])
        && (task.cacheDir.Some? && "train" in task.stats && "examples" !in task.stats["train"] ==>
              r == Failure(MissingStatsKey("examples")))
        && (r.Success? ==> r.value == RateNumExamples(task.stats["train"]["examples"], taskToRate[task.name].maximum, taskToRate[task.name].scale))
    {
      if task.name !in taskToRate {
        return Failure(UnknownTask(task.name));
      }
      match taskToRate[task.name]
      case Missing =>
        r := Failure(RateNotANumber(task.name));
      case Literal(v) =>
        r := Success(v);
      case Unsupervised(v) =>
        r := Success(RateUnsupervised(v));
      case Callable(f) =>
        r := Success(f(task.name));
      case NumExamples(maximum, scale) =>
        ghost var cacheDir, stats := task.cacheDir, task.stats;
        var trainStats := task.GetCachedStats("train", cfg, storage);
        StatsCallOutcome(task, cacheDir, stats, task.cacheDir, task.stats, trainStats, "train", cfg, storage);
        if trainStats.Failure? {
          return Failure(trainStats.error);
        }
        if "examples" !in trainStats.value {
          return Failure(MissingStatsKey("examples"));
        }
        r := Success(RateNumExamples(trainStats.value["examples"], maximum, scale));
    }

    /**
     * `get_dataset` up to the sampling: the tasks with the split, each task's dataset projected on
     * the output features, and each task's rate, in the order of the tasks.
     */
    method GetDataset(sequenceLength: map<string, int>, split: string, useCached: bool, cfg: Config, storage: Storage)
      returns (r: Result<seq<(Dataset, real)>>)
      requires Valid() && forall t :: t in tasks ==> t.Valid()
      modifies set t | t in tasks
      ensures forall t :: t in tasks ==> t.Valid()
      ensures WithSplit(tasks, split, cfg, storage) == [] ==> r == Failure(NoAvailableTasks(split))
      ensures r.Success? ==> |r.value| == |WithSplit(tasks, split, cfg, storage)|
      ensures r.Success? ==> forall i :: 0 <= i < |r.value| ==> MixedComponent(OutputFeatures(), sequenceLength, r.value[i].0)
      ensures var kept := WithSplit(tasks, split, cfg, storage);
        r.Success? && !useCached ==> forall i :: 0 <= i < |r.value| ==>
          OnTheFlyComponent(kept[i], split, sequenceLength, cfg, storage, OutputFeatures(), r.value[i].0)
      ensures var kept := WithSplit(tasks, split, cfg, storage);
        r.Success? && useCached ==> forall i :: 0 <= i < |r.value| ==>
          BuiltComponent(kept[i], old(kept[i].cacheDir), old(kept[i].stats), split, sequenceLength, true, cfg, storage,
                         OutputFeatures(), r.value[i].0)
      ensures var kept := WithSplit(tasks, split, cfg, storage);
        r.Success? ==> forall i :: 0 <= i < |r.value| ==>
          kept[i].name in taskToRate && RateOf(taskToRate[kept[i].name], kept[i].name, kept[i].stats) == Some(r.value[i].1)
      ensures forall t :: t in old(tasks) && split in t.Splits(cfg, storage) ==>
        Evolved(t, old(t.cacheDir), old(t.stats), t.cacheDir, t.stats, cfg, storage)
      ensures r.Success? <==>
        && WithSplit(tasks, split, cfg, storage) != []
        && forall t :: t in old(tasks) && split in t.Splits(cfg, storage) ==>
             TaskSucceeds(t, taskToRate, old(t.cacheDir), old(t.stats), split, sequenceLength, useCached, cfg, storage)
    {
      var selected :- SelectTasks(split, cfg, storage);
      r := DatasetsAndRates(selected, OutputFeatures(), sequenceLength, split, useCached, cfg, storage);
    }

    /**
     * The two list comprehensions of `get_dataset` over the kept tasks, zipped: every task's
     * projected dataset, then every task's rate.
     */
    method DatasetsAndRates(selected: seq<Task>, features: seq<string>, sequenceLength: map<string, int>, split: string,
                            useCached: bool, cfg: Config, storage: Storage)
      returns (r: Result<seq<(Dataset, real)>>)
      requires forall t :: t in selected ==> t.Valid() && t.outputFeatures == features
      modifies set t | t in selected
      ensures forall t :: t in selected ==> t.Valid()
      ensures r.Success? ==> |r.value| == |selected|
      ensures r.Success? ==> forall j :: 0 <= j < |selected| ==> MixedComponent(features, sequenceLength, r.value[j].0)
      ensures r.Success? ==> forall j :: 0 <= j < |selected| ==>
        BuiltComponent(selected[j], old(selected[j].cacheDir), old(selected[j].stats), split, sequenceLength, useCached, cfg, storage,
                       features, r.value[j].0)
      ensures r.Success? ==> forall j :: 0 <= j < |selected| ==>
        selected[j].name in taskToRate && RateOf(taskToRate[selected[j].name], selected[j].name, selected[j].stats) == Some(r.value[j].1)
      ensures forall t :: t in selected ==> Evolved(t, old(t.cacheDir), old(t.stats), t.cacheDir, t.stats, cfg, storage)
      ensures r.Success? <==> forall j :: 0 <= j < |selected| ==>
        TaskSucceeds(selected[j], taskToRate, old(selected[j].cacheDir), old(selected[j].stats), split, sequenceLength, useCached, cfg, storage)
    {
      var datasets := TaskDatasets(selected, features, sequenceLength, split, useCached, cfg, storage);
      if datasets.Failure? {
        return Failure(datasets.error);
      }
      ghost var dirs := seq(|selected|, j requires 0 <= j < |selected| reads selected => selected[j].cacheDir);
      ghost var stats := seq(|selected|, j requires 0 <= j < |selected| reads selected => selected[j].stats);
      var rates := Rates(selected, cfg, storage);
      forall j | 0 <= j < |selected|
        ensures MixedComponent(features, sequenceLength, datasets.value[j])
        ensures Evolved(selected[j], old(selected[j].cacheDir), old(selected[j].stats), selected[j].cacheDir, selected[j].stats, cfg, storage)
        ensures selected[j].name in taskToRate ==>
          RateSucceeds(taskToRate[selected[j].name], selected[j], dirs[j], stats[j], cfg, storage) ==
          RateSucceeds(taskToRate[selected[j].name], selected[j], old(selected[j].cacheDir), old(selected[j].stats), cfg, storage)
      {
        var t := selected[j];
        BuiltIsMixed(t, old(t.cacheDir), old(t.stats), split, sequenceLength, useCached, cfg, storage, datasets.value[j]);
        EvolvedTrans(t, old(t.cacheDir), old(t.stats), dirs[j], stats[j], t.cacheDir, t.stats, cfg, storage);
        if t.name in taskToRate {
          EvolvedKeepsRate(t, old(t.cacheDir), old(t.stats), dirs[j], stats[j], taskToRate[t.name], cfg, storage);
        }
      }
      if rates.Failure? {
        return Failure(rates.error);
      }
      r := Success(seq(|selected|, i requires 0 <= i < |selected| => (datasets.value[i], rates.value[i])));
    }

    /**
     * `get_rate` as the list comprehension of rates relies on it: its rate, its evolved cache state,
     * and when it succeeds.
     */
    method KeptTaskRate(task: Task, cfg: Config, storage: Storage) returns (r: Result<real>)
      requires task.Valid()
      modifies task
      ensures task.Valid()
      ensures task.name in taskToRate && r.Success? ==> RateOf(taskToRate[task.name], task.name, task.stats) == Some(r.value)
      ensures task.name !in taskToRate ==> r.Failure?
      ensures Evolved(task, old(task.cacheDir), old(task.stats), task.cacheDir, task.stats, cfg, storage)
      ensures task.name in taskToRate ==>
        (r.Success? <==> RateSucceeds(taskToRate[task.name], task, old(task.cacheDir), old(task.stats), cfg, storage))
    {
      r := GetRate(task, cfg, storage);
    }

    /** The list comprehension of rates in `get_dataset`: `get_rate` for every kept task, in order. */
    method Rates(selected: seq<Task>, cfg: Config, storage: Storage) returns (r: Result<seq<real>>)
      requires forall t :: t in selected ==> t.Valid()
      modifies set t | t in selected
      ensures forall t :: t in selected ==> t.Valid()
      ensures r.Success? ==> |r.value| == |selected| && forall j :: 0 <= j < |selected| ==>
        selected[j].name in taskToRate && RateOf(taskToRate[selected[j].name], selected[j].name, selected[j].stats) == Some(r.value[j])
      ensures forall t :: t in selected ==> Evolved(t, old(t.cacheDir), old(t.stats), t.cacheDir, t.stats, cfg, storage)
      ensures r.Success? <==> forall j :: 0 <= j < |selected| ==>
        selected[j].name in taskToRate &&
        RateSucceeds(taskToRate[selected[j].name], selected[j], old(selected[j].cacheDir), old(selected[j].stats), cfg, storage)
    {
      var rates: seq<real> := [];
      for i := 0 to |selected|
        invariant forall t :: t in selected ==> t.Valid()
        invariant |rates| == i
        invariant forall j :: 0 <= j < i ==>
          && selected[j].name in taskToRate
          && RateOf(taskToRate[selected[j].name], selected[j].name, selected[j].stats) == Some(rates[j])
          && RateSucceeds(taskToRate[selected[j].name], selected[j], old(selected[j].cacheDir), old(selected[j].stats), cfg, storage)
        invariant forall t :: t in selected ==> Evolved(t, old(t.cacheDir), old(t.stats), t.cacheDir, t.stats, cfg, storage)
      {
        var task := selected[i];
        ghost var cacheDir, stats := task.cacheDir, task.stats;
        var rate := KeptTaskRate(task, cfg, storage);
        EvolvedTrans(task, old(task.cacheDir), old(task.stats), cacheDir, stats, task.cacheDir, task.stats, cfg, storage);
        if task.name in taskToRate {
          EvolvedKeepsRate(task, old(task.cacheDir), old(task.stats), cacheDir, stats, taskToRate[task.name], cfg, storage);
        }
        if rate.Failure? {
          return Failure(rate.error);
        }
        var next := rates + [rate.value];
        forall j | 0 <= j < i + 1
          ensures selected[j].name in taskToRate
          ensures RateOf(taskToRate[selected[j].name], selected[j].name, selected[j].stats) == Some(next[j])
          ensures RateSucceeds(taskToRate[selected[j].name], selected[j], old(selected[j].cacheDir), old(selected[j].stats), cfg, storage)
        {
          if j < i {
            assert next[j] == rates[j];
            if selected[j] == task {
              RateOfKept(taskToRate[task.name], task.name, stats, task.stats);
            }
          }
        }
        rates := next;
      }
      r := Success(rates);
    }
  }

  /**
   * What `Task.GetCachedStats` promises, stated on the cache state before (`c0`, `s0`) and after
   * (`c`, `s`) the call: the state has evolved, and the answer is `StatsFor`'s.
   */
  lemma StatsCallOutcome(t: Task, c0: Option<string>, s0: map<string, Stats>, c: Option<string>, s: map<string, Stats>,
                         res: Result<Stats>, split: string, cfg: Config, storage: Storage)
    requires c == ResolvedDir(t, c0, cfg, storage)
    requires c.None? ==> res.Failure? && s == s0
    requires c.Some? && split in s0 ==> res == Success(s0[split]) && s == s0
    requires c.Some? && split !in s0 && StatsPath(c.value, split) !in storage.paths ==> res.Failure? && s == s0
    requires c.Some? && split !in s0 && StatsPath(c.value, split) in storage.paths ==>
      res == Success(storage.statsFile(StatsPath(c.value, split))) && s == s0[split := res.value]
    ensures Evolved(t, c0, s0, c, s, cfg, storage)
    ensures res.Success? <==> StatsFor(c, s0, split, storage).Some?
    ensures res.Success? ==> res == Success(StatsFor(c, s0, split, storage).value) && split in s && s[split] == res.value
  {
  }

  /**
   * What `Task.GetDataset` promises on the cached path, stated on the cache state before (`c0`,
   * `s0`) and after (`c`, `s`) the call: the state has evolved, and the call succeeds exactly when
   * `CachedSucceeds` says so.
   */
  lemma CachedCallOutcome(t: Task, c0: Option<string>, s0: map<string, Stats>, c: Option<string>, s: map<string, Stats>,
                          d: Result<Dataset>, split: string, sequenceLength: map<string, int>, cfg: Config, storage: Storage)
    requires c == ResolvedDir(t, c0, cfg, storage)
    requires c.None? ==> d.Failure? && s == s0
    requires c.Some? && split in s0 ==> s == s0
    requires c.Some? && split !in s0 && StatsPath(c.value, split) !in storage.paths ==> d.Failure? && s == s0
    requires c.Some? && split !in s0 && StatsPath(c.value, split) in storage.paths ==>
      s == s0[split := storage.statsFile(StatsPath(c.value, split))]
    requires c.Some? && split in s && "examples" !in s[split] ==> d.Failure?
    requires c.Some? && split in s && "examples" in s[split] ==>
      d == t.PreprocessTokens(storage.cachedSplit(c.value, split), sequenceLength, t.Vocabulary(storage))
    ensures Evolved(t, c0, s0, c, s, cfg, storage)
    ensures d.Success? <==> CachedSucceeds(t, c0, s0, split, sequenceLength, cfg, storage)
    ensures d.Success? ==> d == t.PreprocessTokens(storage.cachedSplit(c.value, split), sequenceLength, t.Vocabulary(storage))
  {
    if c.Some? {
      if split in s0 {
        assert StatsFor(c, s0, split, storage) == Some(s[split]);
      } else if StatsPath(c.value, split) in storage.paths {
        assert StatsFor(c, s0, split, storage) == Some(s[split]);
      } else {
        assert StatsFor(c, s0, split, storage) == None;
      }
    }
  }

  /** One element of the list of datasets in `get_dataset`: the task's dataset, projected. */
  method Component(task: Task, features: seq<string>, sequenceLength: map<string, int>, split: string,
                   useCached: bool, cfg: Config, storage: Storage)
    returns (r: Result<Dataset>)
    requires task.Valid() && task.outputFeatures == features
    modifies task
    ensures task.Valid()
    ensures r.Success? ==>
      BuiltComponent(task, old(task.cacheDir), old(task.stats), split, sequenceLength, useCached, cfg, storage, features, r.value)
    ensures r.Success? && useCached ==> split in task.stats
    ensures Evolved(task, old(task.cacheDir), old(task.stats), task.cacheDir, task.stats, cfg, storage)
    ensures r.Success? <==> DatasetSucceeds(task, old(task.cacheDir), old(task.stats), split, sequenceLength, useCached, cfg, storage)
  {
    ghost var cacheDir, stats := task.cacheDir, task.stats;
    var d := task.GetDataset(sequenceLength, split, useCached, cfg, storage);
    if useCached {
      CachedCallOutcome(task, cacheDir, stats, task.cacheDir, task.stats, d, split, sequenceLength, cfg, storage);
    }
    if d.Failure? {
      return Failure(d.error);
    }
    ProjectTokenOutput(features, sequenceLength, d.value);
    r := Success(ProjectDataset(d.value, features));
  }

  /**
   * `Component` judged by an earlier cache state (`cacheDir0`, `stats0`) of the task, from which
   * its present state has evolved: the one the task had before the list was begun.
   */
  method ComponentSince(task: Task, features: seq<string>, sequenceLength: map<string, int>, split: string,
                        useCached: bool, cfg: Config, storage: Storage, ghost cacheDir0: Option<string>,
                        ghost stats0: map<string, Stats>)
    returns (r: Result<Dataset>)
    requires task.Valid() && task.outputFeatures == features
    requires Evolved(task, cacheDir0, stats0, task.cacheDir, task.stats, cfg, storage)
    modifies task
    ensures task.Valid()
    ensures r.Success? ==> BuiltComponent(task, cacheDir0, stats0, split, sequenceLength, useCached, cfg, storage, features, r.value)
    ensures Evolved(task, cacheDir0, stats0, task.cacheDir, task.stats, cfg, storage)
    ensures r.Success? <==> DatasetSucceeds(task, cacheDir0, stats0, split, sequenceLength, useCached, cfg, storage)
  {
    ghost var cacheDir, stats := task.cacheDir, task.stats;
    r := Component(task, features, sequenceLength, split, useCached, cfg, storage);
    EvolvedTrans(task, cacheDir0, stats0, cacheDir, stats, task.cacheDir, task.stats, cfg, storage);
    EvolvedKeepsBuilt(task, cacheDir0, stats0, cacheDir, stats, split, sequenceLength, useCached, cfg, storage, features, r);
  }

  /** The list comprehension of datasets in `get_dataset`: every kept task's dataset, projected, in order. */
  method TaskDatasets(selected: seq<Task>, features: seq<string>, sequenceLength: map<string, int>, split: string,
                      useCached: bool, cfg: Config, storage: Storage)
    returns (r: Result<seq<Dataset>>)
    requires forall t :: t in selected ==> t.Valid() && t.outputFeatures == features
    modifies set t | t in selected
    ensures forall t :: t in selected ==> t.Valid()
    ensures r.Success? ==> |r.value| == |selected|
    ensures r.Success? ==> forall j :: 0 <= j < |selected| ==>
      BuiltComponent(selected[j], old(selected[j].cacheDir), old(selected[j].stats), split, sequenceLength, useCached, cfg, storage,
                     features, r.value[j])
    ensures forall t :: t in selected ==> Evolved(t, old(t.cacheDir), old(t.stats), t.cacheDir, t.stats, cfg, storage)
    ensures r.Success? <==> forall j :: 0 <= j < |selected| ==>
      DatasetSucceeds(selected[j], old(selected[j].cacheDir), old(selected[j].stats), split, sequenceLength, useCached, cfg, storage)
  {
    var datasets: seq<Dataset> := [];
    for i := 0 to |selected|
      invariant |datasets| == i
      invariant forall j :: 0 <= j < i ==>
        BuiltComponent(selected[j], old(selected[j].cacheDir), old(selected[j].stats), split, sequenceLength, useCached, cfg, storage,
                       features, datasets[j])
      invariant forall t :: t in selected ==>
        t.Valid() && Evolved(t, old(t.cacheDir), old(t.stats), t.cacheDir, t.stats, cfg, storage)
    {
      var task := selected[i];
      var d := ComponentSince(task, features, sequenceLength, split, useCached, cfg, storage, old(task.cacheDir), old(task.stats));
      if d.Failure? {
        assert !DatasetSucceeds(selected[i], old(selected[i].cacheDir), old(selected[i].stats), split, sequenceLength, useCached,
                                cfg, storage);
        return Failure(d.error);
      }
      var next := datasets + [d.value];
      forall j | 0 <= j < i + 1
        ensures BuiltComponent(selected[j], old(selected[j].cacheDir), old(selected[j].stats), split, sequenceLength, useCached,
                               cfg, storage, features, next[j])
      {
        if j < i {
          assert next[j] == datasets[j];
        }
      }
      datasets := next;
    }
    r := Success(datasets);
  }

  /** `Mixture(tasks, default_rate)`. */
  method NewMixture(entries: seq<TaskEntry>, defaultRate: Option<Rate>, registry: Registry<Task>) returns (r: Result<Mixture>)
    ensures FirstEntryError(entries, defaultRate, registry.entries.Keys).Some? ==>
      r == Failure(FirstEntryError(entries, defaultRate, registry.entries.Keys).value)
    ensures (FirstEntryError(entries, defaultRate, registry.entries.Keys).None? &&
             |Image(LookedUp(entries, registry.entries), FeaturesOf)| != 1) ==> r == Failure(IncompatibleOutputFeatures)
    ensures (FirstEntryError(entries, defaultRate, registry.entries.Keys).None? &&
             |Image(LookedUp(entries, registry.entries), FeaturesOf)| == 1 &&
             |Image(LookedUp(entries, registry.entries), ModelPathOf)| != 1) ==> r == Failure(IncompatibleModelPaths)
    ensures r.Success? <==> (FirstEntryError(entries, defaultRate, registry.entries.Keys).None? &&
      |Image(LookedUp(entries, registry.entries), FeaturesOf)| == 1 && |Image(LookedUp(entries, registry.entries), ModelPathOf)| == 1)
    ensures entries == [] ==> r == Failure(IncompatibleOutputFeatures)
    ensures r.Success? ==> (fresh(r.value) && r.value.Valid() &&
      r.value.tasks == LookedUp(entries, registry.entries) && r.value.taskToRate == RateMap(entries, defaultRate))
  {
    var m := new Mixture();
    var ok := m.Init(entries, defaultRate, registry);
    if ok.Fail? {
      return Failure(ok.error);
    }
    r := Success(m);
  }

  /** `MixtureRegistry.add`: the duplicate check comes before the mixture is built. */
  method AddMixture(mixtures: Registry<Mixture>, registry: Registry<Task>, name: string, entries: seq<TaskEntry>,
                    defaultRate: Option<Rate>) returns (r: Outcome)
    modifies mixtures
    ensures name in old(mixtures.entries) ==> r == Fail(DuplicateProvider(name)) && mixtures.entries == old(mixtures.entries)
    ensures r.Fail? ==> mixtures.entries == old(mixtures.entries)
    ensures name !in old(mixtures.entries) && FirstEntryError(entries, defaultRate, old(registry.entries).Keys).Some? ==>
      r == Fail(FirstEntryError(entries, defaultRate, old(registry.entries).Keys).value)
    ensures (name !in old(mixtures.entries) && FirstEntryError(entries, defaultRate, old(registry.entries).Keys).None? &&
             |Image(LookedUp(entries, old(registry.entries)), FeaturesOf)| != 1) ==> r == Fail(IncompatibleOutputFeatures)
    ensures (name !in old(mixtures.entries) && FirstEntryError(entries, defaultRate, old(registry.entries).Keys).None? &&
             |Image(LookedUp(entries, old(registry.entries)), FeaturesOf)| == 1 &&
             |Image(LookedUp(entries, old(registry.entries)), ModelPathOf)| != 1) ==> r == Fail(IncompatibleModelPaths)
    ensures r.Pass? <==> (name !in old(mixtures.entries) && FirstEntryError(entries, defaultRate, old(registry.entries).Keys).None? &&
      |Image(LookedUp(entries, old(registry.entries)), FeaturesOf)| == 1 &&
      |Image(LookedUp(entries, old(registry.entries)), ModelPathOf)| == 1)
    ensures r.Pass? ==> name in mixtures.entries && mixtures.entries == old(mixtures.entries)[name := mixtures.entries[name]]
    ensures r.Pass? ==> var m := mixtures.entries[name];
      fresh(m) && m.Valid() && m.tasks == LookedUp(entries, old(registry.entries)) && m.taskToRate == RateMap(entries, defaultRate)
  {
    if name in mixtures.entries {
      return Fail(DuplicateProvider(name));
    }
    var m := new Mixture();
    var ok := m.Init(entries, defaultRate, registry);
    if ok.Fail? {
      return ok;
    }
    r := mixtures.Add(name, m);
  }
}
