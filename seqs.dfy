/**
 * The array primitives the components use on their lists: `filter`, `map`,
 * a `reduce` that adds up one number per element, and the iteration order of
 * a `Set` built from a list.
 */
module Seqs {

  /** `a` is `b` with some elements left out, the rest in their order. */
  predicate IsSubsequence<T(==,!new)>(a: seq<T>, b: seq<T>)
    decreases |b|
  {
    a == [] || (b != [] && ((a[0] == b[0] && IsSubsequence(a[1..], b[1..])) || IsSubsequence(a, b[1..])))
  }

  predicate Distinct<T(==,!new)>(s: seq<T>) {
    forall i, j :: 0 <= i < j < |s| ==> s[i] != s[j]
  }

  /** `s.filter(p)`. */
  function Filter<T(==,!new)>(s: seq<T>, p: T -> bool): (r: seq<T>)
    ensures |r| <= |s|
    ensures forall x :: x in r <==> x in s && p(x)
    ensures forall i :: 0 <= i < |r| ==> p(r[i])
  {
    if s == [] then [] else (if p(s[0]) then [s[0]] else []) + Filter(s[1..], p)
  }

  lemma {:induction false} FilterIsSubsequence<T(!new)>(s: seq<T>, p: T -> bool)
    ensures IsSubsequence(Filter(s, p), s)
  {
    if s != [] {
      FilterIsSubsequence(s[1..], p);
      var r := Filter(s, p);
      if p(s[0]) {
        assert r[0] == s[0] && r[1..] == Filter(s[1..], p);
      } else {
        assert r == Filter(s[1..], p);
      }
    }
  }

  lemma {:induction false} FilterAppend<T(!new)>(a: seq<T>, b: seq<T>, p: T -> bool)
    ensures Filter(a + b, p) == Filter(a, p) + Filter(b, p)
  {
    if a == [] {
      assert a + b == b;
    } else {
      assert (a + b)[1..] == a[1..] + b;
      FilterAppend(a[1..], b, p);
    }
  }

  lemma {:induction false} FilterKeepsAll<T(!new)>(s: seq<T>, p: T -> bool)
    requires forall x :: x in s ==> p(x)
    ensures Filter(s, p) == s
  {
    if s != [] {
      FilterKeepsAll(s[1..], p);
    }
  }

  lemma FilterKeepsNone<T(!new)>(s: seq<T>, p: T -> bool)
    requires forall x :: x in s ==> !p(x)
    ensures Filter(s, p) == []
  {
  }

  /** Filters with the same test give the same list. */
  lemma {:induction false} FilterSame<T(!new)>(s: seq<T>, p: T -> bool, q: T -> bool)
    requires forall x :: p(x) == q(x)
    ensures Filter(s, p) == Filter(s, q)
  {
    if s != [] {
      FilterSame(s[1..], p, q);
    }
  }

  /** Filtering a list without repeats gives a list without repeats. */
  lemma {:induction false} FilterDistinct<T(!new)>(s: seq<T>, p: T -> bool)
    requires Distinct(s)
    ensures Distinct(Filter(s, p))
  {
    if s != [] {
      assert Distinct(s[1..]);
      FilterDistinct(s[1..], p);
      var rest := Filter(s[1..], p);
      assert s[0] !in s[1..];
      assert s[0] !in rest;
      if p(s[0]) {
        var r := [s[0]] + rest;
        forall i, j | 0 <= i < j < |r|
          ensures r[i] != r[j]
        {
          if i == 0 {
            assert r[j] == rest[j - 1];
          } else {
            assert r[i] == rest[i - 1] && r[j] == rest[j - 1];
          }
        }
      } else {
        assert Filter(s, p) == rest;
      }
    }
  }

  /** `s.map(f)`. */
  function Map<T, U>(s: seq<T>, f: T -> U): (r: seq<U>)
    ensures |r| == |s|
    ensures forall i :: 0 <= i < |s| ==> r[i] == f(s[i])
  {
    seq(|s|, i requires 0 <= i < |s| => f(s[i]))
  }

  /** `s.reduce((acc, x) => acc + f(x), 0)`, exact. */
  function Sum<T>(s: seq<T>, f: T -> real): real {
    if s == [] then 0.0 else f(s[0]) + Sum(s[1..], f)
  }

  lemma {:induction false} SumAppend<T>(a: seq<T>, b: seq<T>, f: T -> real)
    ensures Sum(a + b, f) == Sum(a, f) + Sum(b, f)
  {
    if a == [] {
      assert a + b == b;
    } else {
      assert (a + b)[1..] == a[1..] + b;
      SumAppend(a[1..], b, f);
    }
  }

  /** A sum does not depend on the order of its terms. */
  lemma {:induction false} SumPermutation<T>(a: seq<T>, b: seq<T>, f: T -> real)
    requires multiset(a) == multiset(b)
    ensures Sum(a, f) == Sum(b, f)
    decreases |a|
  {
    if a != [] {
      var x := a[0];
      assert x in multiset(b);
      var k :| 0 <= k < |b| && b[k] == x;
      var rest := b[..k] + b[k + 1..];
      assert b == b[..k] + [x] + b[k + 1..];
      assert a == [x] + a[1..];
      assert multiset(b) == multiset(b[..k]) + multiset{x} + multiset(b[k + 1..]);
      assert multiset(rest) == multiset(b[..k]) + multiset(b[k + 1..]);
      assert multiset(a) == multiset{x} + multiset(a[1..]);
      assert multiset(a[1..]) == multiset(a) - multiset{x};
      assert multiset(rest) == multiset(b) - multiset{x};
      SumPermutation(a[1..], rest, f);
      SumAppend(b[..k] + [x], b[k + 1..], f);
      SumAppend(b[..k], [x], f);
      SumAppend(b[..k], b[k + 1..], f);
    }
  }

  /** The distinct elements of `s` in order of first occurrence: `Array.from(new Set(s))`. */
  function Dedup<T(==,!new)>(s: seq<T>): (r: seq<T>)
    ensures Distinct(r)
    ensures forall x :: x in r <==> x in s
    ensures forall i, j :: 0 <= i < j < |r| ==>
              exists a :: 0 <= a < |s| && s[a] == r[i] && r[j] !in s[..a + 1]
  {
    if s == [] then []
    else
      var init := s[..|s| - 1];
      var d := Dedup(init);
      var x := s[|s| - 1];
      assert forall y :: y in s <==> y in init || y == x by {
        assert s == init + [x];
      }
      var r := if x in d then d else d + [x];
      assert forall i, j :: 0 <= i < j < |r| ==>
               exists a :: 0 <= a < |s| && s[a] == r[i] && r[j] !in s[..a + 1] by {
        forall i, j | 0 <= i < j < |r|
          ensures exists a :: 0 <= a < |s| && s[a] == r[i] && r[j] !in s[..a + 1]
        {
          var a: int;
          if j < |d| {
            a :| 0 <= a < |init| && init[a] == d[i] && d[j] !in init[..a + 1];
          } else {
            assert d[i] in init;
            a :| 0 <= a < |init| && init[a] == d[i];
            assert r[j] == x && x !in init;
            assert forall y :: y in init[..a + 1] ==> y in init;
          }
          assert s[..a + 1] == init[..a + 1];
        }
      }
      r
  }

  /** A list without repeats has as many elements as its set of elements. */
  lemma {:induction false} DistinctCardinality<T(!new)>(s: seq<T>)
    requires Distinct(s)
    ensures |set x | x in s| == |s|
  {
    if s != [] {
      var init := s[..|s| - 1];
      var x := s[|s| - 1];
      assert Distinct(init);
      DistinctCardinality(init);
      assert x !in init;
      assert (set y | y in s) == (set y | y in init) + {x} by {
        assert s == init + [x];
      }
    }
  }

  /** The elements whose key is `k`. */
  function KeyIs<T, K(==)>(key: T -> K, k: K): T -> bool {
    x => key(x) == k
  }

  /** For each key of `ks` in turn, the sum of `f` over the elements of `s` with that key, added up. */
  function SumByKeys<T(==,!new), K(==)>(ks: seq<K>, s: seq<T>, key: T -> K, f: T -> real): real {
    if ks == [] then 0.0 else Sum(Filter(s, KeyIs(key, ks[0])), f) + SumByKeys(ks[1..], s, key, f)
  }

  lemma {:induction false} SumByKeysAppendElement<T(!new), K(!new)>(ks: seq<K>, s: seq<T>, x: T, key: T -> K, f: T -> real)
    requires Distinct(ks)
    ensures SumByKeys(ks, s + [x], key, f) == SumByKeys(ks, s, key, f) + (if key(x) in ks then f(x) else 0.0)
  {
    if ks != [] {
      var p := KeyIs(key, ks[0]);
      FilterAppend(s, [x], p);
      assert [x][1..] == [];
      SumAppend(Filter(s, p), Filter([x], p), f);
      SumByKeysAppendElement(ks[1..], s, x, key, f);
      assert key(x) in ks <==> key(x) == ks[0] || key(x) in ks[1..];
    }
  }

  lemma {:induction false} SumByKeysAppendKey<T(!new), K(!new)>(ks: seq<K>, k: K, s: seq<T>, key: T -> K, f: T -> real)
    ensures SumByKeys(ks + [k], s, key, f) == SumByKeys(ks, s, key, f) + Sum(Filter(s, KeyIs(key, k)), f)
  {
    if ks == [] {
      assert [k][1..] == [];
    } else {
      assert (ks + [k])[1..] == ks[1..] + [k];
      SumByKeysAppendKey(ks[1..], k, s, key, f);
    }
  }

  lemma DedupMapAppend<T(!new), K(!new)>(init: seq<T>, x: T, key: T -> K)
    ensures var d := Dedup(Map(init, key));
            Dedup(Map(init + [x], key)) == if key(x) in d then d else d + [key(x)]
  {
    var m := Map(init + [x], key);
    assert m[..|m| - 1] == Map(init, key);
    assert m[|m| - 1] == key(x);
  }

  lemma SumOfOne<T>(x: T, f: T -> real)
    ensures Sum([x], f) == f(x)
  {
    assert [x][1..] == [];
  }

  /** An element whose key no earlier element has is alone with that key. */
  lemma FilterNewKey<T(!new), K(!new)>(init: seq<T>, x: T, key: T -> K)
    requires key(x) !in Map(init, key)
    ensures Filter(init + [x], KeyIs(key, key(x))) == [x]
  {
    var p := KeyIs(key, key(x));
    FilterAppend(init, [x], p);
    forall y | y in init
      ensures !p(y)
    {
      var i :| 0 <= i < |init| && init[i] == y;
      assert Map(init, key)[i] == key(y);
    }
    FilterKeepsNone(init, p);
    assert Filter([x], p) == [x] by {
      assert [x][1..] == [];
    }
  }

  /** The grouped sum after one more element, given the grouped sum before it. */
  lemma SumByKeysStep<T(!new), K(!new)>(init: seq<T>, x: T, key: T -> K, f: T -> real)
    requires SumByKeys(Dedup(Map(init, key)), init, key, f) == Sum(init, f)
    ensures SumByKeys(Dedup(Map(init + [x], key)), init + [x], key, f) == Sum(init + [x], f)
  {
    var d := Dedup(Map(init, key));
    DedupMapAppend(init, x, key);
    SumAppend(init, [x], f);
    SumOfOne(x, f);
    SumByKeysAppendElement(d, init, x, key, f);
    if key(x) !in d {
      SumByKeysAppendKey(d, key(x), init + [x], key, f);
      FilterNewKey(init, x, key);
    }
  }

  lemma SplitLast<T>(s: seq<T>)
    requires s != []
    ensures s == s[..|s| - 1] + [s[|s| - 1]]
  {
  }

  /**
   * Adding up, key by key, the sums over the elements of each distinct key
   * gives the sum over all elements: grouping neither loses nor counts twice.
   */
  lemma {:induction false} SumByKeysTotal<T(!new), K(!new)>(s: seq<T>, key: T -> K, f: T -> real)
    ensures SumByKeys(Dedup(Map(s, key)), s, key, f) == Sum(s, f)
  {
    if s != [] {
      var init, x := s[..|s| - 1], s[|s| - 1];
      SumByKeysTotal(init, key, f);
      SumByKeysStep(init, x, key, f);
      SplitLast(s);
    }
  }

  /** In a list without repeats every element occurs once. */
  lemma {:induction false} DistinctOccursOnce<T(!new)>(s: seq<T>)
    requires Distinct(s)
    ensures forall x :: multiset(s)[x] <= 1
  {
    if s != [] {
      assert Distinct(s[1..]);
      DistinctOccursOnce(s[1..]);
      assert s == [s[0]] + s[1..];
      assert s[0] !in multiset(s[1..]);
    }
  }

  /** A reordering of a list without repeats has no repeats. */
  lemma DistinctPermutation<T(!new)>(a: seq<T>, b: seq<T>)
    requires Distinct(a) && multiset(a) == multiset(b)
    ensures Distinct(b)
  {
    DistinctOccursOnce(a);
    forall i, j | 0 <= i < j < |b|
      ensures b[i] != b[j]
    {
      assert b == b[..j] + b[j..];
      assert b[i] in b[..j] && b[j] in b[j..];
      assert multiset(b) == multiset(b[..j]) + multiset(b[j..]);
      assert multiset(b[..j])[b[i]] >= 1 && multiset(b[j..])[b[j]] >= 1;
      assert multiset(b)[b[j]] <= 1;
    }
  }
}
