/**
 * `Array.prototype.sort` with a comparator, as the components call it on a
 * copy of a list. The comparator is given as `le(a, b)`, "`compare(a, b) <= 0`".
 * The sort is a stable insertion sort; the language guarantees that `sort`
 * is stable, and `SortedStableUnique` shows that for a total preorder there
 * is exactly one stable sorted order, so this is the order the program sees.
 */
module Sorting {
  import Seqs

  /** `le` is total and transitive (hence reflexive). */
  ghost predicate IsTotalPreorder<T(!new)>(le: (T, T) -> bool) {
    (forall x, y :: le(x, y) || le(y, x)) &&
    (forall x, y, z :: le(x, y) && le(y, z) ==> le(x, z))
  }

  ghost predicate SortedBy<T>(s: seq<T>, le: (T, T) -> bool) {
    forall i, j :: 0 <= i < j < |s| ==> le(s[i], s[j])
  }

  /** Inserts `x` after every element that is not greater than it. */
  function InsertBy<T>(x: T, s: seq<T>, le: (T, T) -> bool): (r: seq<T>)
    ensures |r| == |s| + 1
    ensures multiset(r) == multiset(s) + multiset{x}
  {
    if s == [] then [x]
    else if le(s[0], x) then
      assert s == [s[0]] + s[1..];
      [s[0]] + InsertBy(x, s[1..], le)
    else [x] + s
  }

  /** Sorts by inserting the elements one after the other, in their order. */
  function SortBy<T>(s: seq<T>, le: (T, T) -> bool): (r: seq<T>)
    ensures |r| == |s|
    ensures multiset(r) == multiset(s)
  {
    if s == [] then []
    else
      assert s == s[..|s| - 1] + [s[|s| - 1]];
      InsertBy(s[|s| - 1], SortBy(s[..|s| - 1], le), le)
  }

  lemma {:induction false} InsertBySorted<T(!new)>(x: T, s: seq<T>, le: (T, T) -> bool)
    requires IsTotalPreorder(le)
    requires SortedBy(s, le)
    ensures SortedBy(InsertBy(x, s, le), le)
  {
    if s != [] {
      var r := InsertBy(x, s, le);
      if le(s[0], x) {
        var t := InsertBy(x, s[1..], le);
        InsertBySorted(x, s[1..], le);
        forall j | 0 <= j < |t|
          ensures le(s[0], t[j])
        {
          assert t[j] in multiset(t);
          assert t[j] in multiset(s[1..]) || t[j] == x;
          if t[j] != x {
            var k :| 0 <= k < |s[1..]| && s[1..][k] == t[j];
            assert s[k + 1] == t[j];
          }
        }
        assert r == [s[0]] + t;
      } else {
        assert le(x, s[0]);
        assert r == [x] + s;
      }
    }
  }

  /** The result of `SortBy` is sorted. */
  lemma {:induction false} SortBySorted<T(!new)>(s: seq<T>, le: (T, T) -> bool)
    requires IsTotalPreorder(le)
    ensures SortedBy(SortBy(s, le), le)
  {
    if s != [] {
      SortBySorted(s[..|s| - 1], le);
      InsertBySorted(s[|s| - 1], SortBy(s[..|s| - 1], le), le);
    }
  }

  /** The elements of `s` that compare equal to `c`, in their order. */
  function Equivalents<T>(s: seq<T>, c: T, le: (T, T) -> bool): (r: seq<T>)
    ensures forall y :: y in r ==> y in s && le(y, c) && le(c, y)
  {
    if s == [] then []
    else (if le(s[0], c) && le(c, s[0]) then [s[0]] else []) + Equivalents(s[1..], c, le)
  }

  lemma {:induction false} EquivalentsAppend<T>(a: seq<T>, b: seq<T>, c: T, le: (T, T) -> bool)
    ensures Equivalents(a + b, c, le) == Equivalents(a, c, le) + Equivalents(b, c, le)
  {
    if a == [] {
      assert a + b == b;
    } else {
      assert (a + b)[1..] == a[1..] + b;
      EquivalentsAppend(a[1..], b, c, le);
    }
  }

  /** No element of a sorted list whose head is greater than `x` is equivalent to `x`. */
  lemma NoneEquivalentAbove<T(!new)>(x: T, s: seq<T>, c: T, le: (T, T) -> bool)
    requires IsTotalPreorder(le)
    requires SortedBy(s, le)
    requires s != [] && !le(s[0], x)
    requires le(x, c) && le(c, x)
    ensures Equivalents(s, c, le) == []
  {
  }

  /** Inserting `x` in front of a sorted list whose head is greater than `x`. */
  lemma InsertFrontEquivalents<T(!new)>(x: T, s: seq<T>, c: T, le: (T, T) -> bool)
    requires IsTotalPreorder(le)
    requires SortedBy(s, le)
    requires s != [] && !le(s[0], x)
    ensures Equivalents(InsertBy(x, s, le), c, le)
         == Equivalents(s, c, le) + Equivalents([x], c, le)
  {
    assert InsertBy(x, s, le) == [x] + s;
    EquivalentsAppend([x], s, c, le);
    var ex, es := Equivalents([x], c, le), Equivalents(s, c, le);
    if le(x, c) && le(c, x) {
      NoneEquivalentAbove(x, s, c, le);
      assert ex + [] == ex && [] + ex == ex;
    } else {
      assert ex == [];
      assert es + [] == es && [] + es == es;
    }
  }

  lemma AppendAssoc<T>(a: seq<T>, b: seq<T>, c: seq<T>)
    ensures a + (b + c) == (a + b) + c
  {
  }

  lemma InsertByBehind<T>(x: T, s: seq<T>, le: (T, T) -> bool)
    requires s != [] && le(s[0], x)
    ensures InsertBy(x, s, le) == [s[0]] + InsertBy(x, s[1..], le)
  {
  }

  /** Inserting `x` behind the head of `s`, given what the insertion does to the tail. */
  lemma InsertBehindEquivalents<T(!new)>(x: T, s: seq<T>, c: T, le: (T, T) -> bool)
    requires s != [] && le(s[0], x)
    requires Equivalents(InsertBy(x, s[1..], le), c, le) == Equivalents(s[1..], c, le) + Equivalents([x], c, le)
    ensures Equivalents(InsertBy(x, s, le), c, le)
         == Equivalents(s, c, le) + Equivalents([x], c, le)
  {
    var t := InsertBy(x, s[1..], le);
    InsertByBehind(x, s, le);
    EquivalentsAppend([s[0]], t, c, le);
    EquivalentsAppend([s[0]], s[1..], c, le);
    assert [s[0]] + s[1..] == s;
    AppendAssoc(Equivalents([s[0]], c, le), Equivalents(s[1..], c, le), Equivalents([x], c, le));
  }

  lemma {:induction false} InsertByEquivalents<T(!new)>(x: T, s: seq<T>, c: T, le: (T, T) -> bool)
    requires IsTotalPreorder(le)
    requires SortedBy(s, le)
    ensures Equivalents(InsertBy(x, s, le), c, le)
         == Equivalents(s, c, le) + Equivalents([x], c, le)
  {
    if s != [] {
      if le(s[0], x) {
        assert SortedBy(s[1..], le);
        InsertByEquivalents(x, s[1..], c, le);
        InsertBehindEquivalents(x, s, c, le);
      } else {
        InsertFrontEquivalents(x, s, c, le);
      }
    }
  }

  /** `SortBy` is stable: it keeps the order of the elements that compare equal. */
  lemma {:induction false} SortByStable<T(!new)>(s: seq<T>, c: T, le: (T, T) -> bool)
    requires IsTotalPreorder(le)
    ensures Equivalents(SortBy(s, le), c, le) == Equivalents(s, c, le)
  {
    if s != [] {
      var init, last := s[..|s| - 1], s[|s| - 1];
      SortByStable(init, c, le);
      SortBySorted(init, le);
      InsertByEquivalents(last, SortBy(init, le), c, le);
      assert s == init + [last];
      EquivalentsAppend(init, [last], c, le);
    }
  }

  lemma HeadIsEquivalent<T(!new)>(s: seq<T>, le: (T, T) -> bool)
    requires IsTotalPreorder(le)
    requires s != []
    ensures Equivalents(s, s[0], le) != []
  {
  }

  /** The first element of a sorted list is no greater than any element equivalent to `c` in it. */
  lemma HeadBelowEquivalents<T(!new)>(a: seq<T>, c: T, le: (T, T) -> bool)
    requires IsTotalPreorder(le)
    requires SortedBy(a, le)
    requires Equivalents(a, c, le) != []
    ensures le(a[0], c)
  {
    var y := Equivalents(a, c, le)[0];
    assert y in Equivalents(a, c, le);
    var i :| 0 <= i < |a| && a[i] == y;
    if i != 0 {
      assert le(a[0], a[i]);
    }
  }

  /** Sorted lists with the same classes of equivalent elements start with the same element. */
  lemma SameHead<T(!new)>(a: seq<T>, b: seq<T>, le: (T, T) -> bool)
    requires IsTotalPreorder(le)
    requires SortedBy(a, le) && SortedBy(b, le)
    requires a != [] && b != []
    requires Equivalents(a, a[0], le) == Equivalents(b, a[0], le)
    requires Equivalents(a, b[0], le) == Equivalents(b, b[0], le)
    ensures a[0] == b[0]
  {
    assert Equivalents(a, a[0], le)[0] == a[0];
    assert Equivalents(b, b[0], le)[0] == b[0];
    HeadBelowEquivalents(b, a[0], le);
    HeadBelowEquivalents(a, b[0], le);
    assert Equivalents(b, a[0], le)[0] == b[0];
  }

  /**
   * Two sorted lists with the same elements in each class of equal elements,
   * in the same order, are the same list: a stable sort has one possible result.
   */
  lemma {:induction false} SortedStableUnique<T(!new)>(a: seq<T>, b: seq<T>, le: (T, T) -> bool)
    requires IsTotalPreorder(le)
    requires SortedBy(a, le) && SortedBy(b, le)
    requires forall c :: Equivalents(a, c, le) == Equivalents(b, c, le)
    ensures a == b
    decreases |a| + |b|
  {
    if a == [] && b == [] {
    } else if a == [] || b == [] {
      HeadIsEquivalent(if a == [] then b else a, le);
      assert false;
    } else {
      SameHead(a, b, le);
      forall c
        ensures Equivalents(a[1..], c, le) == Equivalents(b[1..], c, le)
      {
        var h := if le(a[0], c) && le(c, a[0]) then [a[0]] else [];
        assert Equivalents(a, c, le) == h + Equivalents(a[1..], c, le);
        assert Equivalents(b, c, le) == h + Equivalents(b[1..], c, le);
        assert Equivalents(a[1..], c, le) == Equivalents(a, c, le)[|h|..];
        assert Equivalents(b[1..], c, le) == Equivalents(b, c, le)[|h|..];
      }
      assert SortedBy(a[1..], le) && SortedBy(b[1..], le);
      SortedStableUnique(a[1..], b[1..], le);
      assert a == [a[0]] + a[1..] && b == [b[0]] + b[1..];
    }
  }

  /** Any stable sort of `s` by a total preorder gives exactly `SortBy(s, le)`. */
  lemma StableSortIsSortBy<T(!new)>(s: seq<T>, r: seq<T>, le: (T, T) -> bool)
    requires IsTotalPreorder(le)
    requires SortedBy(r, le)
    requires forall c :: Equivalents(r, c, le) == Equivalents(s, c, le)
    ensures r == SortBy(s, le)
  {
    SortBySorted(s, le);
    forall c
      ensures Equivalents(r, c, le) == Equivalents(SortBy(s, le), c, le)
    {
      SortByStable(s, c, le);
    }
    SortedStableUnique(r, SortBy(s, le), le);
  }

  /** Leaving elements out of a sorted list leaves it sorted. */
  lemma {:induction false} SortedFilter<T(!new)>(s: seq<T>, p: T -> bool, le: (T, T) -> bool)
    requires SortedBy(s, le)
    ensures SortedBy(Seqs.Filter(s, p), le)
  {
    if s != [] {
      assert SortedBy(s[1..], le);
      SortedFilter(s[1..], p, le);
      var rest := Seqs.Filter(s[1..], p);
      forall j | 0 <= j < |rest|
        ensures le(s[0], rest[j])
      {
        assert rest[j] in s[1..];
        var k :| 0 <= k < |s[1..]| && s[1..][k] == rest[j];
        assert s[k + 1] == rest[j];
      }
    }
  }
}
