/** `DatasetProviderRegistry`: a write-once map from provider names to providers. */
module Registries {
  import opened Wrappers

  class Registry<P> {
    var entries: map<string, P>

    constructor ()
      ensures entries == map[]
    {
      entries := map[];
    }

    /** `add`: refuses a name that is already registered, otherwise stores the provider. */
    method Add(name: string, provider: P) returns (r: Outcome)
      modifies this
      ensures r == if name in old(entries) then Fail(DuplicateProvider(name)) else Pass
      ensures r.Fail? ==> entries == old(entries)
      ensures r.Pass? ==> entries == old(entries)[name := provider]
      ensures r.Pass? ==> Get(name) == Success(provider)
      ensures forall n :: n != name ==> Get(n) == old(Get(n))
    {
      if name in entries {
        return Fail(DuplicateProvider(name));
      }
      entries := entries[name := provider];
      r := Pass;
    }

    /** `get`: the registered provider, or an error for an unknown name. */
    function Get(name: string): (r: Result<P>)
      reads this
      ensures r.Success? <==> name in entries
      ensures r.Success? ==> r.value == entries[name]
      ensures r.Failure? ==> r.error == ProviderNotRegistered(name)
    {
      if name in entries then Success(entries[name]) else Failure(ProviderNotRegistered(name))
    }

    /** `names`: exactly the names `get` accepts. */
    function Names(): (r: set<string>)
      reads this
      ensures forall n :: n in r <==> Get(n).Success?
    {
      entries.Keys
    }
  }
}
