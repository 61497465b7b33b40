/** `LazyTfdsLoader`: a handle on a named TFDS dataset, one shared instance per (name, data_dir). */
module Loader {
  import opened Wrappers
  import opened Environment

  /** Python truthiness of an optional string: `None` and `""` are false. */
  predicate Truthy(s: Option<string>) {
    s.Some? && s.value != ""
  }

  /** `data_dir`: a set (truthy) global override beats the directory the instance was built with. */
  function ResolveDataDir(dataDirOverride: Option<string>, own: Option<string>): (r: Option<string>)
    ensures Truthy(dataDirOverride) ==> r == dataDirOverride
    ensures !Truthy(dataDirOverride) ==> r == own
  {
    if Truthy(dataDirOverride) then dataDirOverride else own
  }

  /** Number of examples of a split; the dataset library reports 0 for very large datasets. */
  datatype Count = Finite(n: nat) | Infinite

  class LazyTfdsLoader {
    const name: string
    const dataDir: Option<string>

    constructor (name: string, dataDir: Option<string>)
      ensures this.name == name && this.dataDir == dataDir
    {
      this.name := name;
      this.dataDir := dataDir;
    }

    function DataDir(cfg: Config): Option<string> {
      ResolveDataDir(cfg.dataDirOverride, dataDir)
    }

    /** `info.splits`: split name -> reported number of examples, from the builder at `DataDir`. */
    function Splits(cfg: Config, storage: Storage): map<string, int> {
      storage.splitInfo(name, DataDir(cfg))
    }

    /** `verify_split`: fails exactly when the dataset does not report the split. */
    function VerifySplit(cfg: Config, storage: Storage, split: string): (r: Outcome)
      ensures r.Pass? <==> split in Splits(cfg, storage)
      ensures r.Fail? ==> r.error == InvalidSplit(name, split)
    {
      if split in Splits(cfg, storage) then Pass else Fail(InvalidSplit(name, split))
    }

    /** `size`: the reported count when it is positive, otherwise infinity. */
    function Size(cfg: Config, storage: Storage, split: string): (r: Result<Count>)
      ensures r.Success? <==> split in Splits(cfg, storage)
      ensures r.Failure? ==> r.error == InvalidSplit(name, split)
      ensures r.Success? ==> (r.value == Infinite <==> Splits(cfg, storage)[split] <= 0)
      ensures r.Success? && Splits(cfg, storage)[split] > 0 ==> r.value == Finite(Splits(cfg, storage)[split])
    {
      match VerifySplit(cfg, storage, split)
      case Fail(e) => Failure(e)
      case Pass =>
        var n := Splits(cfg, storage)[split];
        Success(if n > 0 then Finite(n) else Infinite)
    }
  }

  /** `_MEMOIZED_INSTANCES`: the process-wide table behind `LazyTfdsLoader.__new__`. */
  class LoaderCache {
    var instances: map<(string, Option<string>), LazyTfdsLoader>

    ghost predicate Valid()
      reads this
    {
      forall key :: key in instances ==> instances[key].name == key.0 && instances[key].dataDir == key.1
    }

    constructor ()
      ensures Valid() && instances == map[]
    {
      instances := map[];
    }

    /** `LazyTfdsLoader(name, data_dir)`: the memoized instance for the key, created on first use. */
    method Get(name: string, dataDir: Option<string>) returns (l: LazyTfdsLoader)
      requires Valid()
      modifies this
      ensures Valid()
      ensures l.name == name && l.dataDir == dataDir
      ensures (name, dataDir) in old(instances) ==> l == old(instances[(name, dataDir)]) && instances == old(instances)
      ensures (name, dataDir) !in old(instances) ==> fresh(l) && instances == old(instances)[(name, dataDir) := l]
    {
      var key := (name, dataDir);
      if key !in instances {
        var created := new LazyTfdsLoader(name, dataDir);
        instances := instances[key := created];
      }
      l := instances[key];
    }
  }

  /** Two constructions with the same key give the same object. */
  method SameKeySameInstance(cache: LoaderCache, name: string, dataDir: Option<string>)
    returns (first: LazyTfdsLoader, second: LazyTfdsLoader)
    requires cache.Valid()
    modifies cache
    ensures cache.Valid()
    ensures first == second
  {
    first := cache.Get(name, dataDir);
    second := cache.Get(name, dataDir);
  }
}
