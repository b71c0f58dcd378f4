/**
 Whole-sequence operations the model uses in both the page and the service:
 mapping a function over a sequence, which keeps permutations, and filtering
 by a test, which keeps order and multiplicity.
 */
module Sequences {

  /** Applies `f` to every element, keeping the order. */
  function Map<T, U>(f: T -> U, s: seq<T>): (r: seq<U>)
    ensures |r| == |s|
    ensures forall i :: 0 <= i < |s| ==> r[i] == f(s[i])
  {
    seq(|s|, i requires 0 <= i < |s| => f(s[i]))
  }

  /** The elements of `s` that satisfy `f`, in the order of `s`. */
  function Filter<T>(f: T -> bool, s: seq<T>): (r: seq<T>)
    ensures |r| <= |s|
    ensures forall i :: 0 <= i < |r| ==> f(r[i])
  {
    if s == [] then [] else (if f(s[0]) then [s[0]] else []) + Filter(f, s[1..])
  }

  /** The filter keeps every copy of an element that satisfies `f` and none of the others. */
  lemma {:induction false} FilterCount<T>(f: T -> bool, s: seq<T>)
    ensures forall x :: multiset(Filter(f, s))[x] == if f(x) then multiset(s)[x] else 0
  {
    if s != [] {
      FilterCount(f, s[1..]);
      assert s == [s[0]] + s[1..];
    }
  }

  /** Filtering a concatenation filters each part. */
  lemma {:induction false} FilterConcat<T>(f: T -> bool, a: seq<T>, b: seq<T>)
    ensures Filter(f, a + b) == Filter(f, a) + Filter(f, b)
  {
    if a == [] {
      assert a + b == b;
    } else {
      assert (a + b)[0] == a[0] && (a + b)[1..] == a[1..] + b;
      FilterConcat(f, a[1..], b);
    }
  }

  /** When every element satisfies `f`, filtering changes nothing. */
  lemma {:induction false} FilterAll<T>(f: T -> bool, s: seq<T>)
    requires forall i :: 0 <= i < |s| ==> f(s[i])
    ensures Filter(f, s) == s
  {
    if s != [] {
      FilterAll(f, s[1..]);
    }
  }

  /** Two tests that agree on every element of `s` filter it alike. */
  lemma {:induction false} FilterAgree<T>(f: T -> bool, g: T -> bool, s: seq<T>)
    requires forall i :: 0 <= i < |s| ==> f(s[i]) == g(s[i])
    ensures Filter(f, s) == Filter(g, s)
  {
    if s != [] {
      FilterAgree(f, g, s[1..]);
    }
  }

  lemma MapConcat<T, U>(f: T -> U, u: seq<T>, v: seq<T>)
    ensures Map(f, u + v) == Map(f, u) + Map(f, v)
  {
  }

  /** Taking out the element at `k` takes exactly one copy of it out of the multiset. */
  lemma RemoveAt<T>(s: seq<T>, k: nat)
    requires k < |s|
    ensures multiset(s) == multiset(s[..k] + s[k + 1..]) + multiset{s[k]}
  {
    assert s == s[..k] + [s[k]] + s[k + 1..];
  }

  lemma Cancel<T>(m: multiset<T>, n: multiset<T>, x: T)
    requires m + multiset{x} == n + multiset{x}
    ensures m == n
  {
    forall y ensures m[y] == n[y] {
      assert (m + multiset{x})[y] == (n + multiset{x})[y];
    }
  }

  lemma MapRemoveAt<T, U>(f: T -> U, s: seq<T>, k: nat)
    requires k < |s|
    ensures multiset(Map(f, s)) == multiset(Map(f, s[..k] + s[k + 1..])) + multiset{f(s[k])}
  {
    var fs := Map(f, s);
    RemoveAt(fs, k);
    assert fs[..k] == Map(f, s[..k]);
    assert fs[k + 1..] == Map(f, s[k + 1..]);
    MapConcat(f, s[..k], s[k + 1..]);
  }

  lemma MapCons<T, U>(f: T -> U, s: seq<T>)
    requires s != []
    ensures multiset(Map(f, s)) == multiset(Map(f, s[1..])) + multiset{f(s[0])}
  {
    MapRemoveAt(f, s, 0);
    assert s[..0] + s[1..] == s[1..];
  }

  /** The first element of `a` found in a permutation `b` of it, and what is left of both. */
  lemma MatchFirst<T>(a: seq<T>, b: seq<T>) returns (k: nat)
    requires a != [] && multiset(a) == multiset(b)
    ensures k < |b| && b[k] == a[0]
    ensures multiset(a[1..]) == multiset(b[..k] + b[k + 1..])
  {
    assert a[0] in multiset(b);
    k :| 0 <= k < |b| && b[k] == a[0];
    RemoveAt(b, k);
    RemoveAt(a, 0);
    assert a[..0] + a[1..] == a[1..];
    Cancel(multiset(a[1..]), multiset(b[..k] + b[k + 1..]), a[0]);
  }

  /** Mapping two permutations of one another gives two permutations of one another. */
  lemma {:induction false} MapPermutation<T, U>(f: T -> U, a: seq<T>, b: seq<T>)
    requires multiset(a) == multiset(b)
    ensures multiset(Map(f, a)) == multiset(Map(f, b))
    decreases |a|
  {
    if a == [] {
      assert |multiset(b)| == 0;
    } else {
      var k := MatchFirst(a, b);
      MapPermutation(f, a[1..], b[..k] + b[k + 1..]);
      MapRemoveAt(f, b, k);
      MapCons(f, a);
    }
  }
}
