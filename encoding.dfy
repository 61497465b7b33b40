/**
 * `encode_string_features`: every listed key whose value is a string is replaced by its token ids,
 * optionally keeping the original string under `<key>_plaintext`; everything else passes through.
 */
module Encoding {
  import opened Strings
  import opened Features
  import opened Environment

  const PlaintextSuffix: string := "_plaintext"

  /** Whether key `k` of `ex` is encoded: it is listed and holds a string. */
  predicate Encodes(ex: Example, keys: seq<string>, k: string) {
    k in ex && k in keys && ex[k].Text?
  }

  /** The `_plaintext` keys written for the encoded features (none unless `copy` is set). */
  function PlaintextCopies(ex: Example, keys: seq<string>, copy: bool): set<string> {
    if copy then set k | k in ex && Encodes(ex, keys, k) :: k + PlaintextSuffix else {}
  }

  /** The key whose plaintext copy is stored under `x`. */
  function PlaintextSource(x: string): string {
    if |x| >= |PlaintextSuffix| then x[..|x| - |PlaintextSuffix|] else x
  }

  function EncodeValue(ex: Example, keys: seq<string>, vocab: Vocabulary, k: string): Value
    requires k in ex
  {
    if Encodes(ex, keys, k) then Tokens(vocab(ex[k].s)) else ex[k]
  }

  function PlaintextValue(ex: Example, x: string): Value {
    if PlaintextSource(x) in ex then ex[PlaintextSource(x)] else Text("")
  }

  /**
   * The example `my_fn` builds when every feature is visited after any plaintext copy stored under
   * its name, so the original feature wins: in particular when the keys come in increasing order,
   * or when no feature has the name of a copy (`EncodedInOrder` covers every order).
   */
  function EncodedExample(ex: Example, vocab: Vocabulary, keys: seq<string>, copy: bool): (r: Example)
    ensures forall x :: x in r <==> x in ex || x in PlaintextCopies(ex, keys, copy)
    ensures forall k :: k in ex && Encodes(ex, keys, k) ==> r[k] == Tokens(vocab(ex[k].s))
    ensures forall k :: k in ex && !Encodes(ex, keys, k) ==> r[k] == ex[k]
    ensures copy ==> forall k :: Encodes(ex, keys, k) && k + PlaintextSuffix !in ex ==>
      k + PlaintextSuffix in r && r[k + PlaintextSuffix] == ex[k]
  {
    var r := map x | x in ex.Keys + PlaintextCopies(ex, keys, copy) ::
      if x in ex then EncodeValue(ex, keys, vocab, x) else PlaintextValue(ex, x);
    assert forall k :: k in ex && Encodes(ex, keys, k) && copy ==>
      k + PlaintextSuffix in PlaintextCopies(ex, keys, copy) && PlaintextSource(k + PlaintextSuffix) == k;
    r
  }

  /** The sub-example holding only the keys visited so far. */
  function Restrict(ex: Example, visited: seq<string>): Example {
    map x | x in ex && x in visited :: ex[x]
  }

  /** One iteration of `my_fn`'s loop, on the result built so far. */
  function VisitKey(ret: Example, k: string, v: Value, vocab: Vocabulary, keys: seq<string>, copy: bool): Example {
    if v.Text? && k in keys then
      (if copy then ret[k + PlaintextSuffix := v] else ret)[k := Tokens(vocab(v.s))]
    else ret[k := v]
  }

  lemma CopiesAfterVisit(sub: Example, k: string, v: Value, keys: seq<string>, copy: bool)
    requires k !in sub
    ensures PlaintextCopies(sub[k := v], keys, copy) ==
      PlaintextCopies(sub, keys, copy) + (if copy && v.Text? && k in keys then {k + PlaintextSuffix} else {})
  {
    var sub' := sub[k := v];
    var copies := PlaintextCopies(sub, keys, copy);
    var copies' := PlaintextCopies(sub', keys, copy);
    forall x | x in copies' ensures x in copies || (copy && v.Text? && k in keys && x == k + PlaintextSuffix) {
      var j :| j in sub' && Encodes(sub', keys, j) && x == j + PlaintextSuffix;
      if j != k { assert j in sub && Encodes(sub, keys, j); }
    }
    forall x | x in copies ensures x in copies' {
      var j :| j in sub && Encodes(sub, keys, j) && x == j + PlaintextSuffix;
      assert j != k && j in sub' && Encodes(sub', keys, j);
    }
  }

  lemma CopySource(sub: Example, keys: seq<string>, copy: bool, x: string)
    requires x in PlaintextCopies(sub, keys, copy)
    ensures PlaintextSource(x) in sub && x == PlaintextSource(x) + PlaintextSuffix && Encodes(sub, keys, PlaintextSource(x))
  {
    var j :| j in sub && Encodes(sub, keys, j) && x == j + PlaintextSuffix;
    assert PlaintextSource(x) == j;
  }

  /** Each key occurs at most once, as in the items of a dictionary. */
  predicate Distinct(s: seq<string>) {
    forall i, j :: 0 <= i < j < |s| ==> s[i] != s[j]
  }

  /** The position of `x` in `s`: its first occurrence. */
  function IndexOf(s: seq<string>, x: string): (r: nat)
    requires x in s
    ensures r < |s| && s[r] == x && x !in s[..r]
  {
    if s[0] == x then 0
    else
      var r := 1 + IndexOf(s[1..], x);
      assert s[..r] == [s[0]] + s[1..][..r - 1];
      r
  }

  /** Appending a new key leaves the positions of the earlier keys alone and puts it last. */
  lemma IndexOfAppend(o: seq<string>, k: string, x: string)
    requires x in o + [k]
    ensures x in o ==> IndexOf(o + [k], x) == IndexOf(o, x)
    ensures x !in o ==> IndexOf(o + [k], x) == |o|
  {
    if x in o {
      var j := IndexOf(o, x);
      assert (o + [k])[..j] == o[..j] && (o + [k])[j] == x;
    } else {
      assert (o + [k])[..|o|] == o && (o + [k])[|o|] == x;
    }
  }

  /**
   * Whether the name `x` is written twice, as a feature of its own and as the plaintext copy of
   * the feature it extends, and the copy is written last because the extended feature is visited
   * after `x`.
   */
  predicate CopyWins(ex: Example, order: seq<string>, keys: seq<string>, copy: bool, x: string) {
    && x in ex && x in PlaintextCopies(ex, keys, copy)
    && x in order && PlaintextSource(x) in order
    && IndexOf(order, x) < IndexOf(order, PlaintextSource(x))
  }

  /**
   * The example `my_fn` builds when `features.items()` yields the keys in `order`: it agrees with
   * `EncodedExample` on every name, except a name written both as a feature and as a plaintext
   * copy, where the copy stays when it is written last.
   */
  function EncodedInOrder(ex: Example, order: seq<string>, vocab: Vocabulary, keys: seq<string>, copy: bool): (r: Example)
    ensures forall x :: x in r <==> x in EncodedExample(ex, vocab, keys, copy)
    ensures forall x :: x in r && !CopyWins(ex, order, keys, copy, x) ==> r[x] == EncodedExample(ex, vocab, keys, copy)[x]
    ensures forall x :: CopyWins(ex, order, keys, copy, x) ==>
      PlaintextSource(x) in ex && x in r && r[x] == ex[PlaintextSource(x)]
  {
    var r := map x | x in ex.Keys + PlaintextCopies(ex, keys, copy) ::
      if x in ex && !CopyWins(ex, order, keys, copy, x) then EncodeValue(ex, keys, vocab, x) else PlaintextValue(ex, x);
    assert forall x :: CopyWins(ex, order, keys, copy, x) ==> PlaintextSource(x) in ex by {
      forall x | CopyWins(ex, order, keys, copy, x) ensures PlaintextSource(x) in ex {
        CopySource(ex, keys, copy, x);
      }
    }
    r
  }

  /** With the keys in increasing order, a feature is visited before its `_plaintext` name. */
  lemma SortedOrderKeepsFeatures(ex: Example, order: seq<string>, vocab: Vocabulary, keys: seq<string>, copy: bool)
    requires StrictlySorted(order)
    ensures EncodedInOrder(ex, order, vocab, keys, copy) == EncodedExample(ex, vocab, keys, copy)
  {
    forall x | CopyWins(ex, order, keys, copy, x) ensures false {
      CopySource(ex, keys, copy, x);
      var k := PlaintextSource(x);
      var i, j := IndexOf(order, x), IndexOf(order, k);
      LessThanExtension(k, PlaintextSuffix);
      assert Less(order[i], order[j]);
      LessAsymmetric(k, x);
    }
  }

  /** When no feature already has the name of a plaintext copy, the visiting order does not matter. */
  lemma AnyOrderWithoutCollision(ex: Example, order: seq<string>, vocab: Vocabulary, keys: seq<string>, copy: bool)
    requires forall k :: copy && Encodes(ex, keys, k) ==> k + PlaintextSuffix !in ex
    ensures EncodedInOrder(ex, order, vocab, keys, copy) == EncodedExample(ex, vocab, keys, copy)
  {
    forall x | CopyWins(ex, order, keys, copy, x) ensures false {
      CopySource(ex, keys, copy, x);
    }
  }

  /** Visiting the feature `a` after `a_plaintext` replaces that feature by the copy of `a`. */
  lemma OrderDecidesCollision()
    ensures var ex := map["a" := Text("x"), "a_plaintext" := Text("y")];
      && var copyLast := EncodedInOrder(ex, ["a_plaintext", "a"], s => [], ["a"], true);
      && var featureLast := EncodedInOrder(ex, ["a", "a_plaintext"], s => [], ["a"], true);
      && "a_plaintext" in copyLast && copyLast["a_plaintext"] == Text("x")
      && "a_plaintext" in featureLast && featureLast["a_plaintext"] == Text("y")
  {
    var ex := map["a" := Text("x"), "a_plaintext" := Text("y")];
    var x := "a_plaintext";
    assert "a" + PlaintextSuffix == x;
    assert Encodes(ex, ["a"], "a");
    assert x in PlaintextCopies(ex, ["a"], true);
    assert PlaintextSource(x) == "a";
    assert CopyWins(ex, ["a_plaintext", "a"], ["a"], true, x);
    assert !CopyWins(ex, ["a", "a_plaintext"], ["a"], true, x);
    assert !Encodes(ex, ["a"], x);
  }

  /** Visiting one more key, which has not been visited yet, extends the order-aware description. */
  lemma VisitInOrder(sub: Example, o: seq<string>, k: string, v: Value, vocab: Vocabulary, keys: seq<string>, copy: bool)
    requires k !in sub && k !in o
    requires forall x :: x in o <==> x in sub
    ensures EncodedInOrder(sub[k := v], o + [k], vocab, keys, copy) ==
      VisitKey(EncodedInOrder(sub, o, vocab, keys, copy), k, v, vocab, keys, copy)
  {
    var lhs := EncodedInOrder(sub[k := v], o + [k], vocab, keys, copy);
    var rhs := VisitKey(EncodedInOrder(sub, o, vocab, keys, copy), k, v, vocab, keys, copy);
    VisitInOrderKeys(sub, o, k, v, vocab, keys, copy);
    forall x | x in lhs ensures x in rhs && lhs[x] == rhs[x] {
      VisitInOrderAt(sub, o, k, v, vocab, keys, copy, x);
    }
  }

  /** `VisitInOrder` at one name `x`. */
  lemma VisitInOrderAt(sub: Example, o: seq<string>, k: string, v: Value, vocab: Vocabulary, keys: seq<string>,
                       copy: bool, x: string)
    requires k !in sub && k !in o
    requires forall y :: y in o <==> y in sub
    requires x in EncodedInOrder(sub[k := v], o + [k], vocab, keys, copy)
    ensures x in VisitKey(EncodedInOrder(sub, o, vocab, keys, copy), k, v, vocab, keys, copy)
    ensures EncodedInOrder(sub[k := v], o + [k], vocab, keys, copy)[x] ==
      VisitKey(EncodedInOrder(sub, o, vocab, keys, copy), k, v, vocab, keys, copy)[x]
  {
    var before := EncodedInOrder(sub, o, vocab, keys, copy);
    var rhs := VisitKey(before, k, v, vocab, keys, copy);
    if x == k {
      VisitedKeyValue(sub, o, k, v, vocab, keys, copy);
      assert rhs[k] == (if v.Text? && k in keys then Tokens(vocab(v.s)) else v);
    } else if copy && v.Text? && k in keys && x == k + PlaintextSuffix {
      VisitedCopyValue(sub, o, k, v, vocab, keys);
      assert rhs[x] == v;
    } else {
      OtherNameUnchanged(sub, o, k, v, vocab, keys, copy, x);
      assert rhs[x] == before[x];
    }
  }

  lemma VisitInOrderKeys(sub: Example, o: seq<string>, k: string, v: Value, vocab: Vocabulary, keys: seq<string>, copy: bool)
    requires k !in sub
    ensures EncodedInOrder(sub[k := v], o + [k], vocab, keys, copy).Keys ==
      VisitKey(EncodedInOrder(sub, o, vocab, keys, copy), k, v, vocab, keys, copy).Keys
  {
    CopiesAfterVisit(sub, k, v, keys, copy);
  }

  /** The visited key itself holds its own, possibly encoded, value. */
  lemma VisitedKeyValue(sub: Example, o: seq<string>, k: string, v: Value, vocab: Vocabulary, keys: seq<string>, copy: bool)
    requires k !in sub && k !in o
    requires forall x :: x in o <==> x in sub
    ensures k in EncodedInOrder(sub[k := v], o + [k], vocab, keys, copy)
    ensures EncodedInOrder(sub[k := v], o + [k], vocab, keys, copy)[k] == (if v.Text? && k in keys then Tokens(vocab(v.s)) else v)
  {
    var sub', o' := sub[k := v], o + [k];
    IndexOfAppend(o, k, k);
    if PlaintextSource(k) in o' {
      IndexOfAppend(o, k, PlaintextSource(k));
    }
    assert !CopyWins(sub', o', keys, copy, k);
    assert EncodedExample(sub', vocab, keys, copy)[k] == EncodeValue(sub', keys, vocab, k);
  }

  /** The plaintext copy of the visited key holds its string, whether or not that name was a feature. */
  lemma VisitedCopyValue(sub: Example, o: seq<string>, k: string, v: Value, vocab: Vocabulary, keys: seq<string>)
    requires k !in sub && k !in o && v.Text? && k in keys
    requires forall x :: x in o <==> x in sub
    ensures k + PlaintextSuffix in EncodedInOrder(sub[k := v], o + [k], vocab, keys, true)
    ensures EncodedInOrder(sub[k := v], o + [k], vocab, keys, true)[k + PlaintextSuffix] == v
  {
    var sub', o', x := sub[k := v], o + [k], k + PlaintextSuffix;
    assert PlaintextSource(x) == k;
    assert Encodes(sub', keys, k);
    assert x in PlaintextCopies(sub', keys, true);
    if x in sub {
      IndexOfAppend(o, k, x);
      IndexOfAppend(o, k, k);
      assert CopyWins(sub', o', keys, true, x);
    } else {
      assert EncodedExample(sub', vocab, keys, true)[x] == PlaintextValue(sub', x);
    }
  }

  /** A name other than `k` and its plaintext copy keeps the value it had before visiting `k`. */
  lemma OtherNameUnchanged(sub: Example, o: seq<string>, k: string, v: Value, vocab: Vocabulary, keys: seq<string>,
                           copy: bool, x: string)
    requires k !in sub && k !in o && x != k
    requires forall y :: y in o <==> y in sub
    requires !(copy && v.Text? && k in keys && x == k + PlaintextSuffix)
    requires x in EncodedInOrder(sub[k := v], o + [k], vocab, keys, copy)
    ensures x in EncodedInOrder(sub, o, vocab, keys, copy)
    ensures EncodedInOrder(sub[k := v], o + [k], vocab, keys, copy)[x] == EncodedInOrder(sub, o, vocab, keys, copy)[x]
  {
    var sub', o' := sub[k := v], o + [k];
    CopiesAfterVisit(sub, k, v, keys, copy);
    assert PlaintextSource(k + PlaintextSuffix) == k;
    assert x in PlaintextCopies(sub', keys, copy) <==> x in PlaintextCopies(sub, keys, copy);
    if x in PlaintextCopies(sub', keys, copy) {
      CopySource(sub', keys, copy, x);
      assert PlaintextSource(x) != k;
    }
    if x in o {
      IndexOfAppend(o, k, x);
    }
    if PlaintextSource(x) in o {
      IndexOfAppend(o, k, PlaintextSource(x));
    }
    assert CopyWins(sub', o', keys, copy, x) == CopyWins(sub, o, keys, copy, x);
    if x in sub {
      assert Encodes(sub', keys, x) == Encodes(sub, keys, x);
    }
  }

  lemma RestrictOneMore(ex: Example, order: seq<string>, i: nat)
    requires i < |order| && order[i] in ex
    ensures Restrict(ex, order[..i + 1]) == Restrict(ex, order[..i])[order[i] := ex[order[i]]]
  {
    assert order[..i + 1] == order[..i] + [order[i]];
  }

  lemma RestrictAll(ex: Example, order: seq<string>)
    requires forall k :: k in order <==> k in ex
    ensures Restrict(ex, order[..|order|]) == ex
  {
    assert order[..|order|] == order;
  }

  /** The loop's step: visiting `order[i]` extends the description of the keys visited so far. */
  lemma EncodeStep(ex: Example, order: seq<string>, i: nat, vocab: Vocabulary, keys: seq<string>, copy: bool)
    requires Distinct(order) && i < |order|
    requires forall k :: k in order <==> k in ex
    ensures EncodedInOrder(Restrict(ex, order[..i + 1]), order[..i + 1], vocab, keys, copy) ==
      VisitKey(EncodedInOrder(Restrict(ex, order[..i]), order[..i], vocab, keys, copy), order[i], ex[order[i]], vocab, keys, copy)
  {
    var k, sub := order[i], Restrict(ex, order[..i]);
    assert k !in order[..i];
    assert order[..i + 1] == order[..i] + [k];
    assert forall x :: x in order[..i] <==> x in sub;
    RestrictOneMore(ex, order, i);
    VisitInOrder(sub, order[..i], k, ex[k], vocab, keys, copy);
  }

  /** Before the loop nothing has been visited and nothing built. */
  lemma EncodeNothing(vocab: Vocabulary, keys: seq<string>, copy: bool)
    ensures EncodedInOrder(map[], [], vocab, keys, copy) == map[]
  {
    assert PlaintextCopies(map[], keys, copy) == {};
  }

  /**
   * `my_fn`: visits the items of `ex` in `order`, the order in which the dictionary yields them,
   * and builds the result key by key.
   */
  method EncodeFeatures(ex: Example, order: seq<string>, vocab: Vocabulary, keys: seq<string>, copy: bool)
    returns (ret: Example)
    requires Distinct(order)
    requires forall k :: k in order <==> k in ex
    ensures ret == EncodedInOrder(ex, order, vocab, keys, copy)
  {
    ret := map[];
    var i := 0;
    assert Restrict(ex, order[..0]) == map[] && order[..0] == [];
    EncodeNothing(vocab, keys, copy);
    while i < |order|
      invariant 0 <= i <= |order|
      invariant ret == EncodedInOrder(Restrict(ex, order[..i]), order[..i], vocab, keys, copy)
    {
      var k := order[i];
      var v := ex[k];
      EncodeStep(ex, order, i, vocab, keys, copy);
      ghost var next := VisitKey(ret, k, v, vocab, keys, copy);
      if v.Text? && k in keys {
        if copy {
          ret := ret[k + PlaintextSuffix := v];
        }
        v := Tokens(vocab(v.s));
      }
      ret := ret[k := v];
      assert ret == next;
      i := i + 1;
    }
    RestrictAll(ex, order);
    assert order[..|order|] == order;
  }

  /** The static types after encoding, derived from the dataset's types the same way. */
  function EncodedSpec(spec: Spec, keys: seq<string>, copy: bool): Spec {
    var copies := if copy then set k | k in spec && k in keys && spec[k].dtype == String :: k + PlaintextSuffix else {};
    map x | x in spec.Keys + copies ::
      if x in spec then (if x in keys && spec[x].dtype == String then FeatureSpec(Int64, 1) else spec[x])
      else if PlaintextSource(x) in spec then spec[PlaintextSource(x)] else FeatureSpec(String, 0)
  }

  lemma EncodedConforms(ex: Example, spec: Spec, vocab: Vocabulary, keys: seq<string>, copy: bool)
    requires Conforms(ex, spec)
    ensures Conforms(EncodedExample(ex, vocab, keys, copy), EncodedSpec(spec, keys, copy))
  {
    var r := EncodedExample(ex, vocab, keys, copy);
    var s := EncodedSpec(spec, keys, copy);
    forall k | k in ex ensures (Encodes(ex, keys, k) <==> (k in keys && spec[k].dtype == String)) {
      assert SpecOf(ex[k]) == spec[k];
    }
    forall x ensures x in r <==> x in s {
      if x in PlaintextCopies(ex, keys, copy) {
        var j :| j in ex && Encodes(ex, keys, j) && x == j + PlaintextSuffix;
        assert j in spec && j in keys && spec[j].dtype == String;
      }
      if x in s && x !in spec {
        var j :| j in spec && j in keys && spec[j].dtype == String && x == j + PlaintextSuffix;
        assert Encodes(ex, keys, j);
      }
    }
    forall x | x in r ensures SpecOf(r[x]) == s[x] {
      if x !in ex {
        var j :| j in ex && Encodes(ex, keys, j) && x == j + PlaintextSuffix;
        assert PlaintextSource(x) == j;
      }
    }
  }

  /** `encode_string_features` on a dataset: `my_fn` mapped over every example. */
  function EncodeDataset(d: Dataset, vocab: Vocabulary, keys: seq<string>, copy: bool): (r: Dataset)
    ensures r.spec == EncodedSpec(d.spec, keys, copy)
    ensures |r.examples| == |d.examples|
    ensures forall i :: 0 <= i < |d.examples| ==> r.examples[i] == EncodedExample(d.examples[i], vocab, keys, copy)
  {
    var spec := EncodedSpec(d.spec, keys, copy);
    var examples := seq(|d.examples|, i requires 0 <= i < |d.examples| => EncodedExample(d.examples[i], vocab, keys, copy));
    assert WellTyped(RawDataset(spec, examples)) by {
      forall i | 0 <= i < |examples| ensures Conforms(examples[i], spec) {
        EncodedConforms(d.examples[i], d.spec, vocab, keys, copy);
      }
    }
    RawDataset(spec, examples)
  }
}
