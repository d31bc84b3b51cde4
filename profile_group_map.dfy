/**
 * Connection profiles grouped by their group path.  The map's keys are
 * group paths ordered by a comparator that compares the items ignoring
 * case and then the lengths, so paths that differ only in case share one
 * entry; the map is kept here as a list of buckets sorted by that
 * comparator.
 */
module ProfileGroupMaps {
  import opened Text
  import opened Seqs
  import opened ConnectionProfiles

  // ---------------------------------------------------------------------
  // The comparator

  /** `Integer.compare`. */
  function IntCompare(x: int, y: int): (r: int)
    ensures r < 0 <==> x < y
    ensures r == 0 <==> x == y
    ensures -1 <= r <= 1
  {
    if x < y then -1 else if x == y then 0 else 1
  }

  /** The comparator: the first item that differs ignoring case decides, otherwise the shorter path sorts first. */
  function PathCompare(a: seq<string>, b: seq<string>): int
    decreases |a|
  {
    if |a| == 0 || |b| == 0 then IntCompare(|a|, |b|)
    else
      var d := CompareIgnoreCase(a[0], b[0]);
      if d != 0 then d else PathCompare(a[1..], b[1..])
  }

  /** The comparator as its loop computes it. */
  method ComparePaths(a: seq<string>, b: seq<string>) returns (c: int)
    ensures c == PathCompare(a, b)
  {
    var n := if |a| < |b| then |a| else |b|;
    var i := 0;
    while i < n
      invariant 0 <= i <= n
      invariant PathCompare(a, b) == PathCompare(a[i..], b[i..])
    {
      var d := CompareIgnoreCase(a[i], b[i]);
      if d != 0 {
        return d;
      }
      assert a[i..][1..] == a[i + 1..] && b[i..][1..] == b[i + 1..];
      i := i + 1;
    }
    c := IntCompare(|a|, |b|);
    assert IntCompare(|a[i..]|, |b[i..]|) == c;
  }

  /** Paths of the same length whose items are equal ignoring case. */
  predicate SamePath(a: seq<string>, b: seq<string>)
  {
    |a| == |b| && forall i :: 0 <= i < |a| ==> EqualsIgnoreCase(a[i], b[i])
  }

  lemma SamePathEquivalence(a: seq<string>, b: seq<string>, c: seq<string>)
    ensures SamePath(a, a)
    ensures SamePath(a, b) ==> SamePath(b, a)
    ensures SamePath(a, b) && SamePath(b, c) ==> SamePath(a, c)
  {
  }

  /** Both sides of one step: the heads and the tails of two non-empty paths. */
  lemma SamePathStep(a: seq<string>, b: seq<string>)
    requires |a| > 0 && |b| > 0
    ensures SamePath(a, b) <==> EqualsIgnoreCase(a[0], b[0]) && SamePath(a[1..], b[1..])
  {
    if EqualsIgnoreCase(a[0], b[0]) && SamePath(a[1..], b[1..]) {
      forall i | 0 <= i < |a|
        ensures EqualsIgnoreCase(a[i], b[i])
      {
        if i > 0 {
          assert a[1..][i - 1] == a[i] && b[1..][i - 1] == b[i];
        }
      }
    }
  }

  /** The comparator is zero exactly for paths equal up to case. */
  lemma {:induction false} PathCompareZero(a: seq<string>, b: seq<string>)
    ensures PathCompare(a, b) == 0 <==> SamePath(a, b)
    decreases |a|
  {
    if |a| > 0 && |b| > 0 {
      CompareIgnoreCaseZero(a[0], b[0]);
      PathCompareZero(a[1..], b[1..]);
      SamePathStep(a, b);
    }
  }

  /** The comparator is antisymmetric, value for value. */
  lemma {:induction false} PathCompareAntisym(a: seq<string>, b: seq<string>)
    ensures PathCompare(a, b) == -PathCompare(b, a)
    decreases |a|
  {
    if |a| > 0 && |b| > 0 {
      CompareAntisym(Lower(a[0]), Lower(b[0]));
      PathCompareAntisym(a[1..], b[1..]);
    }
  }

  /** Paths equal up to case compare alike against any third path. */
  lemma {:induction false} PathCompareCongruent(a: seq<string>, c: seq<string>, b: seq<string>)
    requires SamePath(a, c)
    ensures PathCompare(a, b) == PathCompare(c, b)
    decreases |a|
  {
    if |a| > 0 && |b| > 0 {
      SamePathStep(a, c);
      PathCompareCongruent(a[1..], c[1..], b[1..]);
    }
  }

  /** The comparator's order is transitive. */
  lemma {:induction false} PathCompareTrans(a: seq<string>, b: seq<string>, c: seq<string>)
    requires PathCompare(a, b) <= 0 && PathCompare(b, c) <= 0
    ensures PathCompare(a, c) <= 0
    decreases |a|
  {
    if |a| > 0 && |b| > 0 && |c| > 0 {
      var la, lb, lc := Lower(a[0]), Lower(b[0]), Lower(c[0]);
      CompareTrans(la, lb, lc);
      if Compare(la, lc) == 0 {
        CompareZero(la, lc);
        CompareAntisym(la, lb);
        PathCompareTrans(a[1..], b[1..], c[1..]);
      }
    }
  }

  /** A path that sorts before a second one sorts before everything the second sorts before. */
  lemma PathCompareStrictTrans(a: seq<string>, b: seq<string>, c: seq<string>)
    requires PathCompare(a, b) < 0 && PathCompare(b, c) <= 0
    ensures PathCompare(a, c) < 0
  {
    PathCompareTrans(a, b, c);
    PathCompareZero(a, c);
    if SamePath(a, c) {
      PathCompareCongruent(a, c, b);
      PathCompareAntisym(c, b);
    }
  }

  /** A proper prefix sorts before its extensions. */
  lemma {:induction false} PrefixSortsFirst(a: seq<string>, b: seq<string>)
    requires |a| < |b| && a == b[..|a|]
    ensures PathCompare(a, b) < 0
    decreases |a|
  {
    if |a| > 0 {
      CompareSelf(Lower(a[0]));
      assert a[1..] == b[1..][..|a| - 1];
      PrefixSortsFirst(a[1..], b[1..]);
    }
  }

  // ---------------------------------------------------------------------
  // The buckets

  datatype Bucket = Bucket(key: seq<string>, members: seq<Profile>)

  /** Keys strictly increasing under the comparator. */
  predicate Sorted(bs: seq<Bucket>)
  {
    forall i, j :: 0 <= i < j < |bs| ==> PathCompare(bs[i].key, bs[j].key) < 0
  }

  /** Every bucket is keyed by the path of its first member. */
  predicate KeyedByFirst(bs: seq<Bucket>)
  {
    forall i :: 0 <= i < |bs| ==> |bs[i].members| > 0 && bs[i].members[0].groups == bs[i].key
  }

  /** `computeIfAbsent(groups, ...).add(profile)`: the bucket found by the comparator grows, or a new one is put in order. */
  function AddTo(bs: seq<Bucket>, p: Profile): seq<Bucket>
  {
    if |bs| == 0 then [Bucket(p.groups, [p])]
    else
      var c := PathCompare(p.groups, bs[0].key);
      if c == 0 then [bs[0].(members := bs[0].members + [p])] + bs[1..]
      else if c < 0 then [Bucket(p.groups, [p])] + bs
      else [bs[0]] + AddTo(bs[1..], p)
  }

  /** The map built from a list of profiles, one at a time. */
  function Grouped(ps: seq<Profile>): seq<Bucket>
  {
    if |ps| == 0 then [] else AddTo(Grouped(ps[..|ps| - 1]), ps[|ps| - 1])
  }

  /** The members of the bucket whose key equals `x` up to case, or nothing. */
  function MembersAt(bs: seq<Bucket>, x: seq<string>): seq<Profile>
  {
    if |bs| == 0 then [] else if SamePath(bs[0].key, x) then bs[0].members else MembersAt(bs[1..], x)
  }

  /** The number of profiles over all buckets. */
  function TotalMembers(bs: seq<Bucket>): nat
  {
    if |bs| == 0 then 0 else |bs[0].members| + TotalMembers(bs[1..])
  }

  /** A path sorting before every key has no bucket. */
  lemma {:induction false} NoBucketBelow(bs: seq<Bucket>, x: seq<string>)
    requires Sorted(bs) && |bs| > 0 && PathCompare(x, bs[0].key) < 0
    ensures MembersAt(bs, x) == []
    decreases |bs|
  {
    PathCompareZero(x, bs[0].key);
    SamePathEquivalence(x, bs[0].key, x);
    if |bs| > 1 {
      PathCompareStrictTrans(x, bs[0].key, bs[1].key);
      NoBucketBelow(bs[1..], x);
    }
  }

  /** Every key sorts after a bound that sorts before the first key. */
  lemma AboveFirstKey(bs: seq<Bucket>, lo: seq<string>)
    requires Sorted(bs) && |bs| > 0 && PathCompare(lo, bs[0].key) < 0
    ensures forall i :: 0 <= i < |bs| ==> PathCompare(lo, bs[i].key) < 0
  {
    forall i | 0 < i < |bs|
      ensures PathCompare(lo, bs[i].key) < 0
    {
      PathCompareStrictTrans(lo, bs[0].key, bs[i].key);
    }
  }

  /** Adding keeps every key above a bound that both the old keys and the new path are above. */
  lemma {:induction false} AddToAbove(bs: seq<Bucket>, p: Profile, lo: seq<string>)
    requires forall i :: 0 <= i < |bs| ==> PathCompare(lo, bs[i].key) < 0
    requires PathCompare(lo, p.groups) < 0
    ensures forall i :: 0 <= i < |AddTo(bs, p)| ==> PathCompare(lo, AddTo(bs, p)[i].key) < 0
    decreases |bs|
  {
    if |bs| > 0 && PathCompare(p.groups, bs[0].key) > 0 {
      AddToAbove(bs[1..], p, lo);
    }
  }

  /** Adding a profile keeps the keys sorted. */
  lemma {:induction false} AddToSorted(bs: seq<Bucket>, p: Profile)
    requires Sorted(bs)
    ensures Sorted(AddTo(bs, p))
    decreases |bs|
  {
    if |bs| > 0 {
      var c := PathCompare(p.groups, bs[0].key);
      if c < 0 {
        AboveFirstKey(bs, p.groups);
      } else if c > 0 {
        var rest := bs[1..];
        AddToSorted(rest, p);
        PathCompareAntisym(p.groups, bs[0].key);
        forall i | 0 <= i < |rest|
          ensures PathCompare(bs[0].key, rest[i].key) < 0
        {
          assert rest[i] == bs[i + 1];
        }
        AddToAbove(rest, p, bs[0].key);
      }
    }
  }

  /** Adding a profile keeps every bucket keyed by its first member. */
  lemma {:induction false} AddToKeyedByFirst(bs: seq<Bucket>, p: Profile)
    requires KeyedByFirst(bs)
    ensures KeyedByFirst(AddTo(bs, p))
    decreases |bs|
  {
    if |bs| > 0 && PathCompare(p.groups, bs[0].key) > 0 {
      AddToKeyedByFirst(bs[1..], p);
    }
  }

  /** Adding a profile grows exactly the bucket of its path, at the end. */
  lemma {:induction false} AddToMembersAt(bs: seq<Bucket>, p: Profile, x: seq<string>)
    requires Sorted(bs)
    ensures MembersAt(AddTo(bs, p), x) == MembersAt(bs, x) + (if SamePath(p.groups, x) then [p] else [])
    decreases |bs|
  {
    if |bs| > 0 {
      var k := bs[0].key;
      var c := PathCompare(p.groups, k);
      SamePathEquivalence(p.groups, k, x);
      SamePathEquivalence(k, p.groups, x);
      PathCompareZero(p.groups, k);
      if c < 0 && SamePath(p.groups, x) {
        SamePathEquivalence(x, p.groups, p.groups);
        PathCompareCongruent(p.groups, x, k);
        NoBucketBelow(bs, x);
      } else if c > 0 {
        if SamePath(k, x) {
          PathCompareCongruent(k, x, p.groups);
          PathCompareAntisym(p.groups, k);
          PathCompareZero(x, p.groups);
          SamePathEquivalence(p.groups, x, x);
        }
        AddToMembersAt(bs[1..], p, x);
      }
    }
  }

  /** Adding a profile adds one to the total. */
  lemma {:induction false} AddToTotal(bs: seq<Bucket>, p: Profile)
    ensures TotalMembers(AddTo(bs, p)) == TotalMembers(bs) + 1
    decreases |bs|
  {
    if |bs| > 0 {
      var c := PathCompare(p.groups, bs[0].key);
      if c == 0 {
        assert ([bs[0].(members := bs[0].members + [p])] + bs[1..])[1..] == bs[1..];
      } else if c < 0 {
        assert ([Bucket(p.groups, [p])] + bs)[1..] == bs;
      } else {
        AddToTotal(bs[1..], p);
        assert ([bs[0]] + AddTo(bs[1..], p))[1..] == AddTo(bs[1..], p);
      }
    }
  }

  /** In sorted buckets, looking up a bucket's own key finds that bucket. */
  lemma {:induction false} MembersAtKey(bs: seq<Bucket>, i: nat)
    requires Sorted(bs) && i < |bs|
    ensures MembersAt(bs, bs[i].key) == bs[i].members
    decreases i
  {
    SamePathEquivalence(bs[i].key, bs[i].key, bs[i].key);
    if i > 0 {
      PathCompareZero(bs[0].key, bs[i].key);
      assert bs[1..][i - 1] == bs[i];
      MembersAtKey(bs[1..], i - 1);
    }
  }

  /** A profile found under a path sits in a bucket whose key equals that path up to case. */
  lemma {:induction false} MembersAtFound(bs: seq<Bucket>, x: seq<string>, q: Profile) returns (i: nat)
    requires q in MembersAt(bs, x)
    ensures i < |bs| && SamePath(bs[i].key, x) && q in bs[i].members
    decreases |bs|
  {
    if SamePath(bs[0].key, x) {
      i := 0;
    } else {
      var j := MembersAtFound(bs[1..], x, q);
      i := j + 1;
    }
  }

  /** The grouped map's buckets are sorted and keyed by their first members. */
  lemma {:induction false} GroupedWellFormed(ps: seq<Profile>)
    ensures Sorted(Grouped(ps)) && KeyedByFirst(Grouped(ps))
    decreases |ps|
  {
    if |ps| > 0 {
      GroupedWellFormed(ps[..|ps| - 1]);
      AddToSorted(Grouped(ps[..|ps| - 1]), ps[|ps| - 1]);
      AddToKeyedByFirst(Grouped(ps[..|ps| - 1]), ps[|ps| - 1]);
    }
  }

  /** The profiles whose path equals `x` up to case. */
  function OnPath(x: seq<string>): Profile -> bool
  {
    (q: Profile) => SamePath(q.groups, x)
  }

  /** Under any path the map holds exactly the input profiles on that path, in input order. */
  lemma {:induction false} GroupedMembers(ps: seq<Profile>, x: seq<string>)
    ensures MembersAt(Grouped(ps), x) == Filter(OnPath(x), ps)
    decreases |ps|
  {
    if |ps| > 0 {
      var init, p := ps[..|ps| - 1], ps[|ps| - 1];
      GroupedMembers(init, x);
      GroupedWellFormed(init);
      AddToMembersAt(Grouped(init), p, x);
      assert ps == init + [p];
      FilterSnoc(OnPath(x), init, p);
    }
  }

  /** The bucket sizes add up to the number of profiles. */
  lemma {:induction false} GroupedTotal(ps: seq<Profile>)
    ensures TotalMembers(Grouped(ps)) == |ps|
    decreases |ps|
  {
    if |ps| > 0 {
      GroupedTotal(ps[..|ps| - 1]);
      AddToTotal(Grouped(ps[..|ps| - 1]), ps[|ps| - 1]);
    }
  }

  /** Each bucket holds exactly the input profiles on its path, in input order. */
  lemma BucketContents(ps: seq<Profile>, i: nat)
    requires i < |Grouped(ps)|
    ensures Grouped(ps)[i].members == Filter(OnPath(Grouped(ps)[i].key), ps)
  {
    GroupedWellFormed(ps);
    MembersAtKey(Grouped(ps), i);
    GroupedMembers(ps, Grouped(ps)[i].key);
  }

  /** Every input profile sits in exactly one bucket. */
  lemma ExactlyOneBucket(ps: seq<Profile>, q: Profile) returns (i: nat)
    requires q in ps
    ensures i < |Grouped(ps)| && q in Grouped(ps)[i].members
    ensures forall j :: 0 <= j < |Grouped(ps)| && q in Grouped(ps)[j].members ==> j == i
  {
    var g := Grouped(ps);
    GroupedMembers(ps, q.groups);
    FilterMembers(OnPath(q.groups), ps);
    SamePathEquivalence(q.groups, q.groups, q.groups);
    i := MembersAtFound(g, q.groups, q);
    forall j | 0 <= j < |g| && q in g[j].members
      ensures j == i
    {
      OnlyBucketOf(ps, q, i, j);
    }
  }

  /** Two buckets holding the same profile are the same bucket. */
  lemma OnlyBucketOf(ps: seq<Profile>, q: Profile, i: nat, j: nat)
    requires i < |Grouped(ps)| && j < |Grouped(ps)|
    requires q in Grouped(ps)[i].members && q in Grouped(ps)[j].members
    ensures i == j
  {
    var g := Grouped(ps);
    BucketContents(ps, i);
    BucketContents(ps, j);
    FilterMembers(OnPath(g[i].key), ps);
    FilterMembers(OnPath(g[j].key), ps);
    assert SamePath(q.groups, g[i].key) && SamePath(q.groups, g[j].key);
    SamePathEquivalence(g[i].key, q.groups, g[j].key);
    SamePathEquivalence(q.groups, g[i].key, g[j].key);
    PathCompareZero(g[i].key, g[j].key);
    PathCompareZero(g[j].key, g[i].key);
    GroupedWellFormed(ps);
  }

  /** Profiles whose paths are equal up to case land in the same bucket. */
  lemma SamePathSameBucket(ps: seq<Profile>, a: Profile, b: Profile)
    requires a in ps && b in ps && SamePath(a.groups, b.groups)
    ensures MembersAt(Grouped(ps), a.groups) == MembersAt(Grouped(ps), b.groups)
    ensures a in MembersAt(Grouped(ps), a.groups) && b in MembersAt(Grouped(ps), a.groups)
  {
    GroupedMembers(ps, a.groups);
    GroupedMembers(ps, b.groups);
    FilterMembers(OnPath(a.groups), ps);
    SamePathEquivalence(a.groups, b.groups, a.groups);
    SamePathEquivalence(b.groups, a.groups, b.groups);
    forall q | true
      ensures OnPath(a.groups)(q) == OnPath(b.groups)(q)
    {
      SamePathEquivalence(q.groups, a.groups, b.groups);
      SamePathEquivalence(q.groups, b.groups, a.groups);
    }
    FilterSame(OnPath(a.groups), OnPath(b.groups), ps);
  }

  /** Filters that agree everywhere keep the same elements. */
  lemma {:induction false} FilterSame(f: Profile -> bool, g: Profile -> bool, s: seq<Profile>)
    requires forall q :: f(q) == g(q)
    ensures Filter(f, s) == Filter(g, s)
    decreases |s|
  {
    if |s| > 0 {
      FilterSame(f, g, s[..|s| - 1]);
    }
  }

  // ---------------------------------------------------------------------
  // The map object

  class ProfileGroupMap {
    var buckets: seq<Bucket>

    /** Puts every profile into the bucket of its path, in list order. */
    constructor (profiles: seq<Profile>)
      ensures buckets == Grouped(profiles)
    {
      buckets := [];
      new;
      var i := 0;
      while i < |profiles|
        invariant 0 <= i <= |profiles|
        invariant buckets == Grouped(profiles[..i])
      {
        Add(profiles[i]);
        assert profiles[..i + 1][..i] == profiles[..i];
        i := i + 1;
      }
      assert profiles[..i] == profiles;
    }

    /** `computeIfAbsent(profile.getGroups(), ...).add(profile)`. */
    method Add(p: Profile)
      modifies this
      ensures buckets == AddTo(old(buckets), p)
    {
      var bs := buckets;
      var i, c := FindSlot(bs, p);
      AddToSplit(bs, p, i);
      AddToAt(bs, p, i);
      if i < |bs| && c == 0 {
        buckets := bs[..i] + [bs[i].(members := bs[i].members + [p])] + bs[i + 1..];
      } else {
        buckets := bs[..i] + [Bucket(p.groups, [p])] + bs[i..];
      }
    }
  }

  /** The search for a profile's bucket: past every key the path sorts after. */
  method FindSlot(bs: seq<Bucket>, p: Profile) returns (i: nat, c: int)
    ensures i <= |bs| && forall j :: 0 <= j < i ==> PathCompare(p.groups, bs[j].key) > 0
    ensures i < |bs| ==> c == PathCompare(p.groups, bs[i].key) && c <= 0
  {
    i := 0;
    c := 1;
    while i < |bs|
      invariant 0 <= i <= |bs|
      invariant forall j :: 0 <= j < i ==> PathCompare(p.groups, bs[j].key) > 0
    {
      c := ComparePaths(p.groups, bs[i].key);
      if c <= 0 {
        return;
      }
      i := i + 1;
    }
  }

  /** Adding goes past every leading key the path sorts after. */
  lemma {:induction false} AddToSplit(bs: seq<Bucket>, p: Profile, i: nat)
    requires i <= |bs| && forall j :: 0 <= j < i ==> PathCompare(p.groups, bs[j].key) > 0
    ensures AddTo(bs, p) == bs[..i] + AddTo(bs[i..], p)
    decreases i
  {
    if i > 0 {
      var rest := bs[1..];
      forall j | 0 <= j < i - 1
        ensures PathCompare(p.groups, rest[j].key) > 0
      {
        assert rest[j] == bs[j + 1];
      }
      calc {
        AddTo(bs, p);
        [bs[0]] + AddTo(rest, p);
        { AddToSplit(rest, p, i - 1); assert rest[i - 1..] == bs[i..]; }
        [bs[0]] + (rest[..i - 1] + AddTo(bs[i..], p));
        { assert bs[..i] == [bs[0]] + rest[..i - 1]; }
        bs[..i] + AddTo(bs[i..], p);
      }
    } else {
      assert bs[0..] == bs;
    }
  }

  /** Going past one key the path sorts after. */
  lemma AddToPast(bs: seq<Bucket>, p: Profile, i: nat)
    requires i < |bs| && PathCompare(p.groups, bs[i].key) > 0
    ensures AddTo(bs[i..], p) == [bs[i]] + AddTo(bs[i + 1..], p)
  {
    assert bs[i..][1..] == bs[i + 1..];
  }

  /** What adding does where the search stopped. */
  lemma AddToAt(bs: seq<Bucket>, p: Profile, i: nat)
    requires i <= |bs|
    ensures i < |bs| && PathCompare(p.groups, bs[i].key) == 0 ==>
              AddTo(bs[i..], p) == [bs[i].(members := bs[i].members + [p])] + bs[i + 1..]
    ensures i == |bs| || PathCompare(p.groups, bs[i].key) < 0 ==>
              AddTo(bs[i..], p) == [Bucket(p.groups, [p])] + bs[i..]
  {
    if i < |bs| {
      assert bs[i..][1..] == bs[i + 1..];
    }
  }
}
