/**
 * `Array.prototype.sort(cmp)`: a stable sort driven by a comparator that
 * returns a negative number, zero or a positive number. It is modelled as a
 * stable insertion sort on a sequence; for a consistent comparator every
 * stable sort yields this same order.
 */
module Sorting {

  /** A comparator that the sort can rely on: antisymmetric and transitive. */
  ghost predicate Consistent<T(!new)>(cmp: (T, T) -> int)
  {
    && (forall a, b :: cmp(a, b) == -cmp(b, a))
    && (forall a, b, c :: cmp(a, b) <= 0 && cmp(b, c) <= 0 ==> cmp(a, c) <= 0)
  }

  /** Every element compares at most zero against every later one. */
  ghost predicate SortedBy<T>(s: seq<T>, cmp: (T, T) -> int)
  {
    forall i, j :: 0 <= i < j < |s| ==> cmp(s[i], s[j]) <= 0
  }

  /** Puts `x` before the first element it does not compare above. */
  function Insert<T>(x: T, s: seq<T>, cmp: (T, T) -> int): (r: seq<T>)
    ensures |r| == |s| + 1
    ensures multiset(r) == multiset(s) + multiset{x}
  {
    if s == [] || cmp(x, s[0]) <= 0 then [x] + s
    else
      assert s == [s[0]] + s[1..];
      [s[0]] + Insert(x, s[1..], cmp)
  }

  /** `s.slice().sort(cmp)`. */
  function SortBy<T>(s: seq<T>, cmp: (T, T) -> int): (r: seq<T>)
    ensures |r| == |s|
    ensures multiset(r) == multiset(s)
  {
    if s == [] then []
    else
      assert s == [s[0]] + s[1..];
      Insert(s[0], SortBy(s[1..], cmp), cmp)
  }

  /** A head that compares at most zero against a sorted tail keeps it sorted. */
  lemma ConsSorted<T>(h: T, s: seq<T>, cmp: (T, T) -> int)
    requires SortedBy(s, cmp)
    requires forall k :: 0 <= k < |s| ==> cmp(h, s[k]) <= 0
    ensures SortedBy([h] + s, cmp)
  {
    var r := [h] + s;
    forall i, j | 0 <= i < j < |r| ensures cmp(r[i], r[j]) <= 0 {
      if i > 0 { assert r[i] == s[i - 1] && r[j] == s[j - 1]; }
      else { assert r[j] == s[j - 1]; }
    }
  }

  lemma {:induction false} InsertSorted<T(!new)>(x: T, s: seq<T>, cmp: (T, T) -> int)
    requires Consistent(cmp) && SortedBy(s, cmp)
    ensures SortedBy(Insert(x, s, cmp), cmp)
  {
    if s == [] {
    } else if cmp(x, s[0]) <= 0 {
      forall k | 0 <= k < |s| ensures cmp(x, s[k]) <= 0 {
        if k > 0 { assert cmp(s[0], s[k]) <= 0; }
      }
      ConsSorted(x, s, cmp);
    } else {
      var tail := s[1..];
      var rest := Insert(x, tail, cmp);
      assert SortedBy(tail, cmp) by {
        forall i, j | 0 <= i < j < |tail| ensures cmp(tail[i], tail[j]) <= 0 {
          assert tail[i] == s[i + 1] && tail[j] == s[j + 1];
        }
      }
      InsertSorted(x, tail, cmp);
      assert cmp(s[0], x) <= 0 by { assert cmp(s[0], x) == -cmp(x, s[0]); }
      forall k | 0 <= k < |rest| ensures cmp(s[0], rest[k]) <= 0 {
        InsertMember(x, tail, cmp, k);
        if rest[k] != x {
          var j :| 0 <= j < |tail| && tail[j] == rest[k];
          assert s[j + 1] == rest[k];
        }
      }
      ConsSorted(s[0], rest, cmp);
    }
  }

  /** Every element of the insertion's result is `x` or an element of `s`. */
  lemma {:induction false} InsertMember<T>(x: T, s: seq<T>, cmp: (T, T) -> int, k: nat)
    requires k < |Insert(x, s, cmp)|
    ensures Insert(x, s, cmp)[k] == x || exists j :: 0 <= j < |s| && s[j] == Insert(x, s, cmp)[k]
  {
    if s == [] || cmp(x, s[0]) <= 0 {
      if k > 0 { assert Insert(x, s, cmp)[k] == s[k - 1]; }
    } else if k > 0 {
      InsertMember(x, s[1..], cmp, k - 1);
      if Insert(x, s, cmp)[k] != x {
        var j :| 0 <= j < |s[1..]| && s[1..][j] == Insert(x, s, cmp)[k];
        assert s[j + 1] == Insert(x, s, cmp)[k];
      }
    }
  }

  lemma {:induction false} SortBySorted<T(!new)>(s: seq<T>, cmp: (T, T) -> int)
    requires Consistent(cmp)
    ensures SortedBy(SortBy(s, cmp), cmp)
  {
    if s != [] {
      SortBySorted(s[1..], cmp);
      InsertSorted(s[0], SortBy(s[1..], cmp), cmp);
    }
  }

  /** `s.map(f)`. */
  function Map<T, U>(s: seq<T>, f: T -> U): (r: seq<U>)
    ensures |r| == |s|
    ensures forall i :: 0 <= i < |s| ==> r[i] == f(s[i])
  {
    seq(|s|, i requires 0 <= i < |s| => f(s[i]))
  }

  /** Mapping a concatenation concatenates the mapped parts. */
  lemma MapAppend<T, U>(a: seq<T>, b: seq<T>, f: T -> U)
    ensures Map(a + b, f) == Map(a, f) + Map(b, f)
  {
  }

  /** Taking out the element at `k` takes exactly that element out of the multiset. */
  lemma MultisetRemoveAt<T>(b: seq<T>, k: int)
    requires 0 <= k < |b|
    ensures multiset(b) == multiset(b[..k] + b[k + 1..]) + multiset{b[k]}
  {
    assert b == b[..k] + [b[k]] + b[k + 1..];
  }

  /** Mapping commutes with taking out the element at `k`. */
  lemma MapRemoveAt<T, U>(b: seq<T>, k: int, f: T -> U)
    requires 0 <= k < |b|
    ensures multiset(Map(b, f)) == multiset(Map(b[..k] + b[k + 1..], f)) + multiset{f(b[k])}
  {
    assert b == b[..k] + [b[k]] + b[k + 1..];
    MapAppend(b[..k] + [b[k]], b[k + 1..], f);
    MapAppend(b[..k], [b[k]], f);
    MapAppend(b[..k], b[k + 1..], f);
  }

  /** Two multisets that differ from two others by the same element are equal when those are. */
  lemma MultisetCancel<T>(p: multiset<T>, q: multiset<T>, x: T)
    requires p + multiset{x} == q + multiset{x}
    ensures p == q
  {
    forall y ensures p[y] == q[y] {
      assert (p + multiset{x})[y] == (q + multiset{x})[y];
    }
  }

  /**
   * Mapping keeps permutations: whatever is done to every element after the
   * sort, the sorted list still holds the same elements as the unsorted one.
   */
  lemma {:induction false} MapPermutation<T, U>(a: seq<T>, b: seq<T>, f: T -> U)
    requires multiset(a) == multiset(b)
    ensures multiset(Map(a, f)) == multiset(Map(b, f))
  {
    if a == [] {
      assert |multiset(b)| == 0;
    } else {
      var x := a[0];
      assert x in multiset(a);
      assert x in b;
      var k :| 0 <= k < |b| && b[k] == x;
      var rest := b[..k] + b[k + 1..];
      assert multiset(a[1..]) == multiset(rest) by {
        var ma, mr := multiset(a[1..]), multiset(rest);
        assert multiset(a) == ma + multiset{x} by {
          assert a == [x] + a[1..];
        }
        assert multiset(b) == mr + multiset{x} by {
          MultisetRemoveAt(b, k);
        }
        MultisetCancel(ma, mr, x);
      }
      MapPermutation(a[1..], rest, f);
      assert multiset(Map(a, f)) == multiset(Map(a[1..], f)) + multiset{f(x)} by {
        MapRemoveAt(a, 0, f);
        assert a[..0] + a[1..] == a[1..];
      }
      MapRemoveAt(b, k, f);
      assert f(b[k]) == f(x);
    }
  }
}
