/**
 * Sequence helpers: element-wise map, order-preserving filter and a stable
 * sort (`Collections.sort` / `List.sort`, which are stable merge sorts).
 */
module Seqs {

  function Map<A, B>(f: A -> B, s: seq<A>): (r: seq<B>)
    ensures |r| == |s|
    ensures forall i :: 0 <= i < |s| ==> r[i] == f(s[i])
  {
    if |s| == 0 then [] else Map(f, s[..|s| - 1]) + [f(s[|s| - 1])]
  }

  lemma MapAppend<A, B>(f: A -> B, a: seq<A>, b: seq<A>)
    ensures Map(f, a + b) == Map(f, a) + Map(f, b)
  {
  }

  lemma MapSnoc<A, B>(f: A -> B, s: seq<A>, x: A)
    ensures Map(f, s + [x]) == Map(f, s) + [f(x)]
  {
    assert (s + [x])[..|s|] == s;
  }

  /** One more element of a prefix, mapped. */
  lemma MapPrefixStep<A, B>(f: A -> B, s: seq<A>, i: nat)
    requires i < |s|
    ensures Map(f, s[..i + 1]) == Map(f, s[..i]) + [f(s[i])]
  {
    assert s[..i + 1][..i] == s[..i];
  }

  /** The elements satisfying `p`, in their original order. */
  function Filter<A>(p: A -> bool, s: seq<A>): (r: seq<A>)
    ensures |r| <= |s|
    ensures forall i :: 0 <= i < |r| ==> p(r[i])
  {
    if |s| == 0 then []
    else Filter(p, s[..|s| - 1]) + (if p(s[|s| - 1]) then [s[|s| - 1]] else [])
  }

  lemma FilterSnoc<A>(p: A -> bool, s: seq<A>, x: A)
    ensures Filter(p, s + [x]) == Filter(p, s) + (if p(x) then [x] else [])
  {
    assert (s + [x])[..|s|] == s;
  }

  /** One more element of a prefix, filtered. */
  lemma FilterPrefixStep<A>(p: A -> bool, s: seq<A>, i: nat)
    requires i < |s|
    ensures Filter(p, s[..i + 1]) == Filter(p, s[..i]) + (if p(s[i]) then [s[i]] else [])
  {
    assert s[..i + 1][..i] == s[..i];
  }

  lemma {:induction false} FilterAppend<A>(p: A -> bool, a: seq<A>, b: seq<A>)
    ensures Filter(p, a + b) == Filter(p, a) + Filter(p, b)
    decreases |b|
  {
    if |b| == 0 {
      assert a + b == a;
    } else {
      var b' := b[..|b| - 1];
      var x := b[|b| - 1];
      assert b == b' + [x];
      assert a + b == (a + b') + [x];
      FilterAppend(p, a, b');
      FilterSnoc(p, a + b', x);
      FilterSnoc(p, b', x);
    }
  }

  /** Filtering keeps exactly the elements that satisfy `p`. */
  lemma {:induction false} FilterMembers<A>(p: A -> bool, s: seq<A>)
    ensures forall x :: x in Filter(p, s) <==> x in s && p(x)
    decreases |s|
  {
    if |s| > 0 {
      var s' := s[..|s| - 1];
      FilterMembers(p, s');
      assert s == s' + [s[|s| - 1]];
    }
  }

  /** The elements kept by `p` and those kept by its negation together are the input. */
  lemma {:induction false} FilterPartition<A>(p: A -> bool, q: A -> bool, s: seq<A>)
    requires forall x :: q(x) == !p(x)
    ensures multiset(Filter(p, s)) + multiset(Filter(q, s)) == multiset(s)
    decreases |s|
  {
    if |s| > 0 {
      var s', x := s[..|s| - 1], s[|s| - 1];
      assert s == s' + [x];
      FilterPartition(p, q, s');
      var a, b := (if p(x) then [x] else []), (if q(x) then [x] else []);
      assert multiset(a) + multiset(b) == multiset{x} by {
        assert q(x) == !p(x);
      }
      FilterSnoc(p, s', x);
      FilterSnoc(q, s', x);
      assert multiset(Filter(p, s)) == multiset(Filter(p, s')) + multiset(a);
      assert multiset(Filter(q, s)) == multiset(Filter(q, s')) + multiset(b);
    }
  }

  /** A stronger filter keeps no more elements. */
  lemma {:induction false} FilterStronger<A>(p: A -> bool, q: A -> bool, s: seq<A>)
    requires forall x :: p(x) ==> q(x)
    ensures |Filter(p, s)| <= |Filter(q, s)|
    decreases |s|
  {
    if |s| > 0 {
      var s' := s[..|s| - 1];
      FilterStronger(p, q, s');
      FilterSnoc(p, s', s[|s| - 1]);
      FilterSnoc(q, s', s[|s| - 1]);
      assert s == s' + [s[|s| - 1]];
    }
  }

  /** Taking one element out of a sequence takes its image out of the mapped sequence. */
  lemma MapRemoveAt<A, B>(f: A -> B, u: seq<A>, x: A, v: seq<A>)
    ensures multiset(Map(f, u + [x] + v)) == multiset(Map(f, u + v)) + multiset{f(x)}
  {
    MapAppend(f, u + [x], v);
    MapSnoc(f, u, x);
    MapAppend(f, u, v);
  }

  /** Mapping a permutation gives a permutation of the mapped sequence. */
  lemma {:induction false} MapPermutation<A, B>(f: A -> B, s: seq<A>, t: seq<A>)
    requires multiset(s) == multiset(t)
    ensures multiset(Map(f, s)) == multiset(Map(f, t))
    decreases |s|
  {
    if |s| == 0 {
      assert |t| == |multiset(t)| == 0;
    } else {
      var s', x := s[..|s| - 1], s[|s| - 1];
      assert s == s' + [x];
      assert x in multiset(t);
      var k :| 0 <= k < |t| && t[k] == x;
      var u, v := t[..k], t[k + 1..];
      assert t == u + [x] + v;
      assert multiset(u + v) == multiset(t) - multiset{x};
      assert multiset(s') == multiset(s) - multiset{x};
      MapPermutation(f, s', u + v);
      MapSnoc(f, s', x);
      MapRemoveAt(f, u, x, v);
    }
  }

  /** Two permutations that end alike are permutations without their last element. */
  lemma MultisetDropLast<A>(t: seq<A>, a: seq<A>)
    requires multiset(t) == multiset(a) && |t| == |a| > 0 && t[|t| - 1] == a[|a| - 1]
    ensures multiset(t[..|t| - 1]) == multiset(a[..|a| - 1])
  {
    var n, x := |a| - 1, a[|a| - 1];
    assert t == t[..n] + [x];
    assert a == a[..n] + [x];
    assert multiset(t[..n]) == multiset(t) - multiset{x};
    assert multiset(a[..n]) == multiset(a) - multiset{x};
  }

  /** `List.remove(Object)`: drop the first occurrence of `x`, if there is one. */
  function RemoveFirst<A(==)>(s: seq<A>, x: A): (r: seq<A>)
    ensures x in s ==> |r| == |s| - 1 && multiset(r) == multiset(s) - multiset{x}
    ensures x !in s ==> r == s
  {
    if |s| == 0 then []
    else if s[0] == x then
      assert s == [s[0]] + s[1..];
      s[1..]
    else
      assert s == [s[0]] + s[1..];
      [s[0]] + RemoveFirst(s[1..], x)
  }

  /** No element occurs twice. */
  predicate Distinct<A(==)>(s: seq<A>)
  {
    forall i, j :: 0 <= i < j < |s| ==> s[i] != s[j]
  }

  /** Appending an element not yet listed keeps the elements distinct. */
  lemma DistinctSnoc<A>(s: seq<A>, x: A)
    requires Distinct(s) && x !in s
    ensures Distinct(s + [x])
  {
  }

  /** A distinct sequence counts every element at most once. */
  lemma {:induction false} DistinctCountsOnce<A>(s: seq<A>)
    requires Distinct(s)
    ensures forall x :: multiset(s)[x] <= 1
    decreases |s|
  {
    if |s| > 0 {
      var s', y := s[..|s| - 1], s[|s| - 1];
      assert s == s' + [y];
      assert Distinct(s');
      DistinctCountsOnce(s');
      assert y !in s';
      forall x ensures multiset(s)[x] <= 1 {
        assert multiset(s)[x] == multiset(s')[x] + multiset([y])[x];
      }
    }
  }

  /** An element listed twice counts twice. */
  lemma RepeatCountsTwice<A>(s: seq<A>, i: nat, j: nat)
    requires i < j < |s| && s[i] == s[j]
    ensures multiset(s)[s[i]] >= 2
  {
    var x := s[i];
    assert s == s[..j] + [x] + s[j + 1..];
    assert x in multiset(s[..j]);
  }

  /** Distinctness is a property of the multiset: every element counts at most once. */
  lemma DistinctCounts<A>(s: seq<A>)
    ensures Distinct(s) <==> forall x :: multiset(s)[x] <= 1
  {
    if Distinct(s) {
      DistinctCountsOnce(s);
    } else {
      var i, j :| 0 <= i < j < |s| && s[i] == s[j];
      RepeatCountsTwice(s, i, j);
    }
  }

  lemma DistinctPermutation<A>(s: seq<A>, t: seq<A>)
    requires Distinct(s) && multiset(s) == multiset(t)
    ensures Distinct(t)
  {
    DistinctCounts(s);
    DistinctCounts(t);
  }

  // ---------------------------------------------------------------------
  // Stable sort

  ghost predicate Total<T(!new)>(le: (T, T) -> bool)
  {
    forall a, b :: le(a, b) || le(b, a)
  }

  /** Each element is "at most" its successor. */
  predicate Sorted<T>(s: seq<T>, le: (T, T) -> bool)
  {
    forall i :: 0 < i < |s| ==> le(s[i - 1], s[i])
  }

  /** Insert `x` after every leading element that is not greater than it. */
  function Insert<T>(x: T, s: seq<T>, le: (T, T) -> bool): (r: seq<T>)
    ensures multiset(r) == multiset(s) + multiset{x}
    ensures |r| == |s| + 1
  {
    if |s| == 0 || !le(s[0], x) then [x] + s
    else
      assert s == [s[0]] + s[1..];
      [s[0]] + Insert(x, s[1..], le)
  }

  /** Insertion sort: a stable sort that keeps the input order among equal elements. */
  function Sort<T>(s: seq<T>, le: (T, T) -> bool): (r: seq<T>)
    ensures multiset(r) == multiset(s)
    ensures |r| == |s|
  {
    if |s| == 0 then []
    else
      assert s == s[..|s| - 1] + [s[|s| - 1]];
      Insert(s[|s| - 1], Sort(s[..|s| - 1], le), le)
  }

  lemma {:induction false} InsertSorted<T(!new)>(x: T, s: seq<T>, le: (T, T) -> bool)
    requires Total(le) && Sorted(s, le)
    ensures Sorted(Insert(x, s, le), le)
    ensures |s| > 0 ==> Insert(x, s, le)[0] == x || Insert(x, s, le)[0] == s[0]
    decreases |s|
  {
    if |s| == 0 || !le(s[0], x) {
      if |s| > 0 {
        assert le(x, s[0]);
      }
    } else {
      assert Sorted(s[1..], le);
      InsertSorted(x, s[1..], le);
    }
  }

  /** With a total comparator the stable sort yields a sorted permutation. */
  lemma {:induction false} SortSorted<T(!new)>(s: seq<T>, le: (T, T) -> bool)
    requires Total(le)
    ensures Sorted(Sort(s, le), le)
    decreases |s|
  {
    if |s| > 0 {
      SortSorted(s[..|s| - 1], le);
      InsertSorted(s[|s| - 1], Sort(s[..|s| - 1], le), le);
    }
  }

  lemma {:induction false} SortedInsertLast<T>(x: T, s: seq<T>, le: (T, T) -> bool)
    requires forall i :: 0 <= i < |s| ==> le(s[i], x)
    ensures Insert(x, s, le) == s + [x]
    decreases |s|
  {
    if |s| > 0 {
      SortedInsertLast(x, s[1..], le);
      assert [s[0]] + (s[1..] + [x]) == s + [x];
    }
  }

  /** A sequence that is already sorted under a preorder whose every pair is comparable stays as it is. */
  lemma {:induction false} SortKeepsSorted<T>(s: seq<T>, le: (T, T) -> bool)
    requires forall i, j :: 0 <= i < j < |s| ==> le(s[i], s[j])
    ensures Sort(s, le) == s
    decreases |s|
  {
    if |s| > 0 {
      var s', x := s[..|s| - 1], s[|s| - 1];
      assert s == s' + [x];
      forall i, j | 0 <= i < j < |s'| ensures le(s'[i], s'[j]) {
        assert s'[i] == s[i] && s'[j] == s[j];
      }
      SortKeepsSorted(s', le);
      forall i | 0 <= i < |s'| ensures le(s'[i], x) {
        assert s'[i] == s[i];
      }
      SortedInsertLast(x, s', le);
    }
  }
}
