/** Python's ordering of `str` values, `sorted(set(...))` on lists of names, and `os.path.join`. */
module Strings {

  /** `a < b` on Python strings: code points compared left to right, a proper prefix being smaller. */
  predicate Less(a: string, b: string)
    decreases |a|
  {
    |b| > 0 && (|a| == 0 || a[0] < b[0] || (a[0] == b[0] && Less(a[1..], b[1..])))
  }

  lemma LessIrreflexive(a: string)
    ensures !Less(a, a)
  {
  }

  lemma LessTransitive(a: string, b: string, c: string)
    requires Less(a, b) && Less(b, c)
    ensures Less(a, c)
  {
    if |a| > 0 && a[0] == b[0] && b[0] == c[0] {
      LessTransitive(a[1..], b[1..], c[1..]);
    }
  }

  lemma LessTotal(a: string, b: string)
    ensures a == b || Less(a, b) || Less(b, a)
  {
    if |a| > 0 && |b| > 0 && a[0] == b[0] {
      LessTotal(a[1..], b[1..]);
      if a[1..] == b[1..] {
        assert a == [a[0]] + a[1..] && b == [b[0]] + b[1..];
      }
    }
  }

  lemma LessAsymmetric(a: string, b: string)
    ensures !(Less(a, b) && Less(b, a))
  {
    if |a| > 0 && |b| > 0 && a[0] == b[0] {
      LessAsymmetric(a[1..], b[1..]);
    }
  }

  /** A string is smaller than itself with anything appended. */
  lemma {:induction false} LessThanExtension(a: string, suffix: string)
    requires |suffix| > 0
    ensures Less(a, a + suffix)
  {
    if |a| > 0 {
      assert (a + suffix)[0] == a[0];
      assert (a + suffix)[1..] == a[1..] + suffix;
      LessThanExtension(a[1..], suffix);
    }
  }

  /** Sorted without repetitions: what `sorted(set(xs))` returns. */
  predicate StrictlySorted(s: seq<string>) {
    forall i, j :: 0 <= i < j < |s| ==> Less(s[i], s[j])
  }

  /** Inserts `x` into a strictly sorted list unless it is already there. */
  function Insert(x: string, s: seq<string>): (r: seq<string>)
    requires StrictlySorted(s)
    ensures StrictlySorted(r)
    ensures forall y :: y in r <==> y == x || y in s
  {
    if s == [] then [x]
    else if x == s[0] then s
    else if Less(x, s[0]) then
      assert forall j :: 0 < j < |s| ==> Less(x, s[j]) by {
        forall j | 0 < j < |s| { LessTransitive(x, s[0], s[j]); }
      }
      [x] + s
    else
      LessTotal(x, s[0]);
      var tail := Insert(x, s[1..]);
      assert forall y :: y in s[1..] ==> Less(s[0], y);
      [s[0]] + tail
  }

  /** `sorted(set(xs))`: the distinct elements of `xs` in increasing order. */
  function SortedUnique(xs: seq<string>): (r: seq<string>)
    ensures StrictlySorted(r)
    ensures forall y :: y in r <==> y in xs
  {
    if xs == [] then [] else Insert(xs[|xs| - 1], SortedUnique(xs[..|xs| - 1]))
  }

  /** The head of a strictly sorted list is its least element. */
  lemma HeadIsLeast(s: seq<string>, y: string)
    requires StrictlySorted(s) && y in s
    ensures y == s[0] || Less(s[0], y)
  {
  }

  lemma NonEmptyHasHead(t: seq<string>)
    ensures t != [] ==> t[0] in t
  {
  }

  /** Two strictly sorted lists with the same elements are the same list. */
  lemma {:induction false} StrictlySortedUnique(s: seq<string>, t: seq<string>)
    requires StrictlySorted(s) && StrictlySorted(t)
    requires forall y :: y in s <==> y in t
    ensures s == t
  {
    if s != [] {
      assert s[0] in t && t != [];
      assert t[0] in s;
      HeadIsLeast(s, t[0]);
      HeadIsLeast(t, s[0]);
      LessAsymmetric(s[0], t[0]);
      forall y ensures y in s[1..] <==> y in t[1..] {
        LessIrreflexive(y);
        assert s == [s[0]] + s[1..] && t == [t[0]] + t[1..];
        if y in s[1..] {
          var i :| 1 <= i < |s| && s[i] == y;
          assert Less(s[0], y);
          assert y in t && y != t[0];
        }
        if y in t[1..] {
          var i :| 1 <= i < |t| && t[i] == y;
          assert Less(t[0], y);
          assert y in s && y != s[0];
        }
      }
      StrictlySortedUnique(s[1..], t[1..]);
      assert s == [s[0]] + s[1..] && t == [t[0]] + t[1..];
    } else {
      NonEmptyHasHead(t);
    }
  }

  /** Comparing feature lists after `sorted(set(...))` ignores their order and repetitions. */
  lemma SortedUniqueCanonical(xs: seq<string>, ys: seq<string>)
    ensures (SortedUnique(xs) == SortedUnique(ys)) <==> (forall y :: y in xs <==> y in ys)
  {
    if forall y :: y in xs <==> y in ys {
      StrictlySortedUnique(SortedUnique(xs), SortedUnique(ys));
    }
  }

  /** `os.path.join(a, b)` on POSIX paths. */
  function Join(a: string, b: string): (r: string)
    ensures |b| > 0 ==> |r| > 0
    ensures |r| >= |b| && r[|r| - |b|..] == b
  {
    if |b| > 0 && b[0] == '/' then b
    else if a == [] || a[|a| - 1] == '/' then a + b
    else a + "/" + b
  }
}
