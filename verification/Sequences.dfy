/** Lists up to order: flattening, distinct keys, and insertion sort. */
module Sequences {

  /** [y for x in s for y in f(x)] */
  function FlatMap<T, U>(s: seq<T>, f: T -> seq<U>): seq<U> {
    if s == [] then [] else f(s[0]) + FlatMap(s[1..], f)
  }

  lemma {:induction false} FlatMapAppend<T, U>(s: seq<T>, t: seq<T>, f: T -> seq<U>)
    ensures FlatMap(s + t, f) == FlatMap(s, f) + FlatMap(t, f)
  {
    if s == [] {
      assert s + t == t;
    } else {
      assert (s + t)[1..] == s[1..] + t;
      FlatMapAppend(s[1..], t, f);
    }
  }

  lemma FlatMapOne<T, U>(x: T, f: T -> seq<U>)
    ensures FlatMap([x], f) == f(x)
  {
    assert [x][1..] == [];
    assert FlatMap([x][1..], f) == [];
  }

  lemma {:induction false} FlatMapContains<T, U>(s: seq<T>, f: T -> seq<U>, y: U)
    ensures y in FlatMap(s, f) <==> exists x :: x in s && y in f(x)
  {
    if s != [] {
      assert s == [s[0]] + s[1..];
      FlatMapContains(s[1..], f, y);
    }
  }

  lemma {:induction false} FlatMapEmpty<T, U>(s: seq<T>, f: T -> seq<U>)
    requires forall x | x in s :: f(x) == []
    ensures FlatMap(s, f) == []
  {
    if s != [] {
      assert s[0] in s;
      FlatMapEmpty(s[1..], f);
    }
  }

  function RemoveAt<T>(s: seq<T>, k: nat): seq<T>
    requires k < |s|
  {
    s[..k] + s[k + 1..]
  }

  lemma RemoveAtMultiset<T>(s: seq<T>, k: nat)
    requires k < |s|
    ensures multiset(s) == multiset(RemoveAt(s, k)) + multiset{s[k]}
  {
    assert s == s[..k] + [s[k]] + s[k + 1..];
  }

  /** Flattening keeps permutations. */
  lemma {:induction false} FlatMapPermutes<T, U>(s: seq<T>, t: seq<T>, f: T -> seq<U>)
    requires multiset(s) == multiset(t)
    ensures multiset(FlatMap(s, f)) == multiset(FlatMap(t, f))
    decreases |s|
  {
    if s == [] {
      assert |multiset(t)| == 0;
      assert t == [];
    } else {
      var x, rest := s[0], s[1..];
      assert x in multiset(t) by {
        assert s[0] in multiset(s);
      }
      var k :| 0 <= k < |t| && t[k] == x;
      RemoveAtMultiset(t, k);
      RemoveAtMultiset(s, 0);
      assert RemoveAt(s, 0) == rest;
      CancelOne(multiset(rest), multiset(RemoveAt(t, k)), x);
      FlatMapPermutes(rest, RemoveAt(t, k), f);
      FlatMapRemove(t, k, f);
    }
  }

  lemma CancelOne<T>(a: multiset<T>, b: multiset<T>, x: T)
    requires a + multiset{x} == b + multiset{x}
    ensures a == b
  {
    assert a == (a + multiset{x}) - multiset{x};
    assert b == (b + multiset{x}) - multiset{x};
  }

  lemma FlatMapRemove<T, U>(t: seq<T>, k: nat, f: T -> seq<U>)
    requires k < |t|
    ensures multiset(FlatMap(t, f)) == multiset(f(t[k])) + multiset(FlatMap(RemoveAt(t, k), f))
  {
    hide FlatMap;
    var before, x, after := t[..k], t[k], t[k + 1..];
    assert t == before + ([x] + after);
    FlatMapMiddle(before, x, after, f);
  }

  lemma FlatMapMiddle<T, U>(before: seq<T>, x: T, after: seq<T>, f: T -> seq<U>)
    ensures multiset(FlatMap(before + ([x] + after), f)) == multiset(f(x)) + multiset(FlatMap(before + after, f))
  {
    FlatMapAppend(before, [x] + after, f);
    FlatMapAppend(before, after, f);
    assert ([x] + after)[1..] == after;
  }

  lemma {:induction false} FlatMapSame<T, U>(s: seq<T>, f: T -> seq<U>, g: T -> seq<U>)
    requires forall x | x in s :: f(x) == g(x)
    ensures FlatMap(s, f) == FlatMap(s, g)
  {
    if s != [] {
      assert s[0] in s;
      FlatMapSame(s[1..], f, g);
    }
  }

  lemma {:induction false} FlatMapPointwise<T, U>(s: seq<T>, t: seq<T>, f: T -> seq<U>, g: T -> seq<U>)
    requires |s| == |t| && forall i | 0 <= i < |s| :: multiset(f(s[i])) == multiset(g(t[i]))
    ensures multiset(FlatMap(s, f)) == multiset(FlatMap(t, g))
  {
    if s != [] {
      FlatMapPointwise(s[1..], t[1..], f, g);
    }
  }

  lemma {:induction false} FlatMapSum<T, U>(s: seq<T>, f: T -> seq<U>, g: T -> seq<U>, h: T -> seq<U>)
    requires forall x | x in s :: multiset(f(x)) == multiset(g(x)) + multiset(h(x))
    ensures multiset(FlatMap(s, f)) == multiset(FlatMap(s, g)) + multiset(FlatMap(s, h))
  {
    if s != [] {
      assert s[0] in s;
      FlatMapSum(s[1..], f, g, h);
    }
  }

  lemma {:induction false} FlatMapWithin<T, S, U>(s: seq<T>, t: seq<S>, f: T -> seq<U>, g: S -> seq<U>)
    requires |s| == |t| && forall i | 0 <= i < |s| :: multiset(f(s[i])) <= multiset(g(t[i]))
    ensures multiset(FlatMap(s, f)) <= multiset(FlatMap(t, g))
  {
    if s != [] {
      FlatMapWithin(s[1..], t[1..], f, g);
    }
  }

  lemma FlatMapOfElement<T, U>(s: seq<T>, x: T, f: T -> seq<U>)
    requires x in s
    ensures multiset(f(x)) <= multiset(FlatMap(s, f))
  {
    var k :| 0 <= k < |s| && s[k] == x;
    FlatMapRemove(s, k, f);
  }

  /** [x for x in s if p(x)] */
  function Filter<T>(s: seq<T>, p: T -> bool): seq<T> {
    if s == [] then [] else (if p(s[0]) then [s[0]] else []) + Filter(s[1..], p)
  }

  /** [f(x) for x in s] */
  function Map<T, U>(s: seq<T>, f: T -> U): seq<U> {
    if s == [] then [] else [f(s[0])] + Map(s[1..], f)
  }

  lemma {:induction false} FilterContains<T>(s: seq<T>, p: T -> bool, x: T)
    ensures x in Filter(s, p) <==> x in s && p(x)
  {
    if s != [] {
      assert s == [s[0]] + s[1..];
      FilterContains(s[1..], p, x);
    }
  }

  lemma {:induction false} MapAt<T, U>(s: seq<T>, f: T -> U)
    ensures |Map(s, f)| == |s| && forall i | 0 <= i < |s| :: Map(s, f)[i] == f(s[i])
  {
    if s != [] {
      MapAt(s[1..], f);
    }
  }

  /** Filtering commutes with a change that the filter does not see. */
  lemma {:induction false} FilterOfMap<T, U>(s: seq<T>, f: T -> U, p: T -> bool, q: U -> bool)
    requires forall x | x in s :: q(f(x)) <==> p(x)
    ensures Filter(Map(s, f), q) == Map(Filter(s, p), f)
  {
    if s != [] {
      assert s[0] in s;
      FilterOfMap(s[1..], f, p, q);
      assert Map(s, f)[1..] == Map(s[1..], f);
      MapAppend(if p(s[0]) then [s[0]] else [], Filter(s[1..], p), f);
      MapOne(s[0], f);
    }
  }

  lemma {:induction false} MapOfMap<T, U, V>(s: seq<T>, f: T -> U, g: U -> V, h: T -> V)
    requires forall x | x in s :: g(f(x)) == h(x)
    ensures Map(Map(s, f), g) == Map(s, h)
  {
    if s != [] {
      assert s[0] in s;
      MapOfMap(s[1..], f, g, h);
      assert Map(s, f)[1..] == Map(s[1..], f);
    }
  }

  lemma {:induction false} MapOfFlatMap<T, U, V>(s: seq<T>, f: T -> seq<U>, g: U -> V, h: T -> seq<V>)
    requires forall x | x in s :: Map(f(x), g) == h(x)
    ensures Map(FlatMap(s, f), g) == FlatMap(s, h)
  {
    if s != [] {
      assert s[0] in s;
      MapOfFlatMap(s[1..], f, g, h);
      MapAppend(f(s[0]), FlatMap(s[1..], f), g);
    }
  }

  /** A part of a list is mapped to a part of the mapped list. */
  lemma {:induction false} MapOfSub<T, U>(s: seq<T>, t: seq<T>, f: T -> U)
    requires multiset(s) <= multiset(t)
    ensures multiset(Map(s, f)) <= multiset(Map(t, f))
    decreases |s|
  {
    if s != [] {
      var x, rest := s[0], s[1..];
      assert s[0] in multiset(s);
      var k :| 0 <= k < |t| && t[k] == x;
      RemoveAtMultiset(t, k);
      RemoveAtMultiset(s, 0);
      assert RemoveAt(s, 0) == rest;
      assert multiset(rest) == multiset(s) - multiset{x};
      assert multiset(RemoveAt(t, k)) == multiset(t) - multiset{x};
      MapOfSub(rest, RemoveAt(t, k), f);
      MapRemove(t, k, f);
    }
  }

  lemma MapRemove<T, U>(t: seq<T>, k: nat, f: T -> U)
    requires k < |t|
    ensures multiset(Map(t, f)) == multiset{f(t[k])} + multiset(Map(RemoveAt(t, k), f))
  {
    hide Map;
    var before, x, after := t[..k], t[k], t[k + 1..];
    assert t == before + ([x] + after);
    MapAppend(before, [x] + after, f);
    MapAppend([x], after, f);
    MapAppend(before, after, f);
    MapOne(x, f);
  }

  lemma {:induction false} MapIdentity<T>(s: seq<T>, f: T -> T)
    requires forall x | x in s :: f(x) == x
    ensures Map(s, f) == s
  {
    if s != [] {
      assert s[0] in s;
      MapIdentity(s[1..], f);
      assert s == [s[0]] + s[1..];
    }
  }

  lemma {:induction false} FilterAppend<T>(s: seq<T>, t: seq<T>, p: T -> bool)
    ensures Filter(s + t, p) == Filter(s, p) + Filter(t, p)
  {
    if s == [] {
      assert s + t == t;
    } else {
      assert (s + t)[1..] == s[1..] + t && (s + t)[0] == s[0];
      FilterAppend(s[1..], t, p);
      var first := if p(s[0]) then [s[0]] else [];
      assert Filter(s + t, p) == first + Filter(s[1..] + t, p);
      assert Filter(s, p) == first + Filter(s[1..], p);
    }
  }

  lemma {:induction false} FilterOfFlatMap<T, U>(s: seq<T>, f: T -> seq<U>, p: U -> bool, g: T -> seq<U>)
    requires forall x | x in s :: g(x) == Filter(f(x), p)
    ensures Filter(FlatMap(s, f), p) == FlatMap(s, g)
  {
    if s != [] {
      assert s[0] in s;
      FilterOfFlatMap(s[1..], f, p, g);
      FilterAppend(f(s[0]), FlatMap(s[1..], f), p);
    }
  }

  /** A filter that drops an element makes the list shorter. */
  lemma {:induction false} FilterShrinks<T>(s: seq<T>, p: T -> bool)
    ensures |Filter(s, p)| <= |s|
    ensures (exists x :: x in s && !p(x)) ==> |Filter(s, p)| < |s|
  {
    if s != [] {
      FilterShrinks(s[1..], p);
      assert s == [s[0]] + s[1..];
    }
  }

  lemma MapOne<T, U>(x: T, f: T -> U)
    ensures Map([x], f) == [f(x)]
  {
    assert [x][1..] == [];
    assert Map([x][1..], f) == [];
  }

  lemma {:induction false} MapAppend<T, U>(s: seq<T>, t: seq<T>, f: T -> U)
    ensures Map(s + t, f) == Map(s, f) + Map(t, f)
  {
    if s == [] {
      assert s + t == t;
    } else {
      assert (s + t)[1..] == s[1..] + t;
      MapAppend(s[1..], t, f);
    }
  }

  // ----- distinct keys -----

  ghost predicate DistinctBy<T(!new), K(!new)>(s: seq<T>, key: T -> K) {
    forall i, j | 0 <= i < j < |s| :: key(s[i]) != key(s[j])
  }

  ghost function Keys<T(!new), K(!new)>(s: seq<T>, key: T -> K): set<K> {
    set x | x in s :: key(x)
  }

  lemma {:induction false} DistinctByCount<T(!new), K(!new)>(s: seq<T>, key: T -> K)
    ensures |Keys(s, key)| <= |s|
    ensures DistinctBy(s, key) <==> |Keys(s, key)| == |s|
  {
    if s == [] {
      assert Keys(s, key) == {};
    } else {
      var prefix, last := s[..|s| - 1], s[|s| - 1];
      DistinctByCount(prefix, key);
      assert s == prefix + [last];
      KeysAppend(prefix, last, key);
      DistinctByAppend(prefix, last, key);
    }
  }

  lemma KeysAppend<T(!new), K(!new)>(s: seq<T>, x: T, key: T -> K)
    ensures Keys(s + [x], key) == Keys(s, key) + {key(x)}
  {
  }

  lemma DistinctByAppend<T(!new), K(!new)>(s: seq<T>, x: T, key: T -> K)
    ensures DistinctBy(s + [x], key) <==> DistinctBy(s, key) && key(x) !in Keys(s, key)
  {
    var t := s + [x];
    assert t[|s|] == x && forall i | 0 <= i < |s| :: t[i] == s[i];
    if DistinctBy(t, key) {
      assert DistinctBy(s, key);
      forall i | 0 <= i < |s|
        ensures key(s[i]) != key(x)
      {
        assert key(t[i]) != key(t[|s|]);
      }
    }
    if DistinctBy(s, key) && key(x) !in Keys(s, key) {
      forall i, j | 0 <= i < j < |t|
        ensures key(t[i]) != key(t[j])
      {
        assert t[i] in s;
      }
    }
  }

  lemma DistinctByPermutes<T(!new), K(!new)>(s: seq<T>, t: seq<T>, key: T -> K)
    requires multiset(s) == multiset(t)
    ensures DistinctBy(s, key) <==> DistinctBy(t, key)
  {
    DistinctByCount(s, key);
    DistinctByCount(t, key);
    assert forall x :: x in s <==> x in multiset(s);
    assert forall x :: x in t <==> x in multiset(t);
    assert Keys(s, key) == Keys(t, key);
    assert |s| == |multiset(s)| == |t|;
  }

  lemma {:induction false} TwoPlaces<T>(s: seq<T>, x: T) returns (i: nat, j: nat)
    requires multiset(s)[x] >= 2
    ensures i < j < |s| && s[i] == x && s[j] == x
  {
    i :| 0 <= i < |s| && s[i] == x;
    RemoveAtMultiset(s, i);
    var rest := RemoveAt(s, i);
    assert x in multiset(rest);
    var k :| 0 <= k < |rest| && rest[k] == x;
    j := if k < i then k else k + 1;
    if j < i {
      i, j := j, i;
    }
  }

  lemma UniqueByKey<T(!new), K(!new)>(s: seq<T>, key: T -> K, x: T, y: T)
    requires DistinctBy(s, key) && x in s && y in s && key(x) == key(y)
    ensures x == y
  {
    var i :| 0 <= i < |s| && s[i] == x;
    var j :| 0 <= j < |s| && s[j] == y;
  }

  /** Keys that are distinct in a list are distinct in every part of it. */
  lemma DistinctBySub<T(!new), K(!new)>(s: seq<T>, t: seq<T>, key: T -> K)
    requires multiset(s) <= multiset(t) && DistinctBy(t, key)
    ensures DistinctBy(s, key)
  {
    forall i, j | 0 <= i < j < |s|
      ensures key(s[i]) != key(s[j])
    {
      if s[i] == s[j] {
        RemoveAtMultiset(s, i);
        assert RemoveAt(s, i)[j - 1] == s[j];
        assert s[j] in multiset(RemoveAt(s, i));
        var p, q := TwoPlaces(t, s[i]);
        assert false;
      } else {
        assert s[i] in multiset(s) && s[j] in multiset(s);
        assert s[i] in multiset(t) && s[j] in multiset(t);
        var p :| 0 <= p < |t| && t[p] == s[i];
        var q :| 0 <= q < |t| && t[q] == s[j];
        assert p < q || q < p;
      }
    }
  }

  // ----- sorting -----

  /** One character string is before another, code point by code point. */
  predicate StringLe(a: string, b: string)
    decreases |a|
  {
    a == "" || (b != "" && (a[0] < b[0] || (a[0] == b[0] && StringLe(a[1..], b[1..]))))
  }

  lemma {:induction false} StringLeTotal(a: string, b: string)
    ensures StringLe(a, b) || StringLe(b, a)
    ensures StringLe(a, b) && StringLe(b, a) ==> a == b
    decreases |a|
  {
    if a != "" && b != "" && a[0] == b[0] {
      StringLeTotal(a[1..], b[1..]);
      assert a == [a[0]] + a[1..] && b == [b[0]] + b[1..];
    }
  }

  lemma {:induction false} StringLeTransitive(a: string, b: string, c: string)
    requires StringLe(a, b) && StringLe(b, c)
    ensures StringLe(a, c)
    decreases |a|
  {
    if a != "" && a[0] == b[0] == c[0] {
      StringLeTransitive(a[1..], b[1..], c[1..]);
    }
  }
}
