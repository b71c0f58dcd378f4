/**
 The values a customer table is sorted on, the order `<` puts on them, and a
 sort specified only by what it promises: the result is a permutation of its
 input and no element is placed after one that should follow it. Stability is
 not promised.
 */
module Ordering {
  import opened Text

  /** The value of one sortable column: a number, a string or a flag. */
  datatype Val = Num(n: int) | Str(s: string) | Flag(b: bool)

  /**
   Rank of a kind of value, as the document store orders values of different
   types (numbers, then strings, then booleans). Every column yields values of
   one kind, so for the columns of this model the rank never decides.
   */
  function Rank(v: Val): nat {
    match v
    case Num(_) => 0
    case Str(_) => 1
    case Flag(_) => 2
  }

  /** `u < v`: numbers numerically, strings by code point, `false < true`. */
  predicate Less(u: Val, v: Val): (r: bool)
    ensures u.Num? && v.Num? ==> (r <==> u.n < v.n)
    ensures u.Str? && v.Str? ==> (r <==> StrLess(u.s, v.s))
    ensures u.Flag? && v.Flag? ==> (r <==> !u.b && v.b)
    ensures Rank(u) != Rank(v) ==> (r <==> Rank(u) < Rank(v))
  {
    if Rank(u) != Rank(v) then Rank(u) < Rank(v)
    else match u
      case Num(x) => x < v.n
      case Str(x) => StrLess(x, v.s)
      case Flag(x) => !x && v.b
  }

  lemma LessIrreflexive(u: Val)
    ensures !Less(u, u)
  {
  }

  lemma LessTransitive(u: Val, v: Val, w: Val)
    requires Less(u, v) && Less(v, w)
    ensures Less(u, w)
  {
    if u.Str? && v.Str? && w.Str? {
      StrLessTransitive(u.s, v.s, w.s);
    }
  }

  lemma LessTotal(u: Val, v: Val)
    requires u != v
    ensures Less(u, v) || Less(v, u)
  {
    if u.Str? && v.Str? {
      StrLessTotal(u.s, v.s);
    }
  }

  /** Exactly one of `u < v`, `u == v`, `v < u` holds. */
  lemma LessTrichotomy(u: Val, v: Val)
    ensures !Less(u, u)
    ensures u != v ==> Less(u, v) || Less(v, u)
    ensures !(Less(u, v) && Less(v, u))
  {
    LessIrreflexive(u);
    if u != v {
      LessTotal(u, v);
    }
    if Less(u, v) && Less(v, u) {
      LessTransitive(u, v, u);
    }
  }

  /** In ascending (or descending) order, a value with key `u` may stand before one with key `v`. */
  predicate NotAfter(u: Val, v: Val, descending: bool) {
    if descending then !Less(u, v) else !Less(v, u)
  }

  lemma NotAfterTotal(u: Val, v: Val, descending: bool)
    ensures NotAfter(u, v, descending) || NotAfter(v, u, descending)
  {
    if u != v {
      LessTotal(u, v);
      if Less(u, v) && Less(v, u) {
        LessTransitive(u, v, u);
        LessIrreflexive(u);
      }
    } else {
      LessIrreflexive(u);
    }
  }

  lemma NotAfterTransitive(u: Val, v: Val, w: Val, descending: bool)
    requires NotAfter(u, v, descending) && NotAfter(v, w, descending)
    ensures NotAfter(u, w, descending)
  {
    if !descending && Less(w, u) {
      if u == v {
      } else {
        LessTotal(u, v);
        LessTransitive(w, u, v);
      }
    } else if descending && Less(u, w) {
      if w == v {
      } else {
        LessTotal(w, v);
        LessTransitive(u, w, v);
      }
    }
  }

  /** Every element of `s` may stand before every later one. */
  ghost predicate Ordered<T>(s: seq<T>, key: T -> Val, descending: bool) {
    forall i, j :: 0 <= i < j < |s| ==> NotAfter(key(s[i]), key(s[j]), descending)
  }

  /** Placing `x` in front of an ordered `s` whose head it may precede keeps it ordered. */
  lemma InsertFrontOrdered<T>(x: T, s: seq<T>, key: T -> Val, descending: bool)
    requires s != [] && NotAfter(key(x), key(s[0]), descending) && Ordered(s, key, descending)
    ensures Ordered([x] + s, key, descending)
  {
    var r := [x] + s;
    forall j | 1 <= j < |r| ensures NotAfter(key(x), key(r[j]), descending) {
      if j > 1 {
        NotAfterTransitive(key(x), key(s[0]), key(s[j - 1]), descending);
      }
    }
  }

  /** The head `h` of an ordered `[h] + t` may precede `x`; then it may precede every element of `rest`, a permutation of `t` plus `x`. */
  lemma InsertBehindOrdered<T>(x: T, h: T, t: seq<T>, rest: seq<T>, key: T -> Val, descending: bool)
    requires Ordered([h] + t, key, descending) && NotAfter(key(h), key(x), descending)
    requires multiset(rest) == multiset(t) + multiset{x} && Ordered(rest, key, descending)
    ensures Ordered([h] + rest, key, descending)
  {
    var s := [h] + t;
    forall j | 0 <= j < |rest| ensures NotAfter(key(h), key(rest[j]), descending) {
      assert rest[j] in multiset(rest);
      if rest[j] != x {
        assert rest[j] in multiset(t);
        var k :| 0 <= k < |t| && t[k] == rest[j];
        assert s[0] == h && s[k + 1] == rest[j];
        assert NotAfter(key(s[0]), key(s[k + 1]), descending);
      }
    }
  }

  /** Puts `x` into `s` just before the first element it may stand before. */
  function Insert<T>(x: T, s: seq<T>, key: T -> Val, descending: bool): (r: seq<T>)
    ensures multiset(r) == multiset(s) + multiset{x}
    ensures Ordered(s, key, descending) ==> Ordered(r, key, descending)
  {
    if s == [] then
      [x]
    else if NotAfter(key(x), key(s[0]), descending) then
      var r := [x] + s;
      assert Ordered(s, key, descending) ==> Ordered(r, key, descending) by {
        if Ordered(s, key, descending) {
          InsertFrontOrdered(x, s, key, descending);
        }
      }
      r
    else
      var rest := Insert(x, s[1..], key, descending);
      assert s == [s[0]] + s[1..];
      NotAfterTotal(key(x), key(s[0]), descending);
      var r := [s[0]] + rest;
      assert Ordered(s, key, descending) ==> Ordered(r, key, descending) by {
        if Ordered(s, key, descending) {
          InsertBehindOrdered(x, s[0], s[1..], rest, key, descending);
        }
      }
      r
  }

  /** Insertion sort: a permutation of `s` that is `Ordered` by `key`. */
  function SortOn<T>(s: seq<T>, key: T -> Val, descending: bool): (r: seq<T>)
    ensures multiset(r) == multiset(s)
    ensures Ordered(r, key, descending)
  {
    if s == [] then
      []
    else
      assert s == [s[0]] + s[1..];
      Insert(s[0], SortOn(s[1..], key, descending), key, descending)
  }
}
