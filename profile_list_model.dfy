/**
 * The list behind the connection dialog's profile tree: the visible
 * profiles, the ones a filter has hidden, and the "a profile was deleted"
 * flag; plus the renaming of profiles copied into a group.  The rebuilt
 * tree and the Swing events are not part of this model; a target group is
 * a `GroupNodes.Group` value that the copy operation returns updated.
 */
module ProfileLists {
  import opened Text
  import opened Seqs
  import opened ConnectionProfiles
  import opened GroupNodes

  /** The two search settings `applyNameFilter` consults. */
  datatype SearchSettings = SearchSettings(includeUrl: bool, includeUsername: bool)

  /** A tag filter keeps a profile whose tags include every requested tag. */
  predicate HasAllTags(p: Profile, tags: set<string>)
  {
    tags <= p.tags
  }

  /**
   * A name filter (already lower-cased) keeps a profile whose lower-cased
   * name contains it, or whose URL or user name does when the matching
   * setting is on; a missing value counts as empty text.
   */
  predicate MatchesName(p: Profile, value: string, settings: SearchSettings)
  {
    Contains(Lower(OrEmpty(p.name)), value) ||
    (settings.includeUrl && Contains(Lower(OrEmpty(p.url)), value)) ||
    (settings.includeUsername && Contains(Lower(OrEmpty(p.username)), value))
  }

  /** The tag filter as a test on one profile. */
  function TagTest(tags: set<string>): Profile -> bool
  {
    (p: Profile) => HasAllTags(p, tags)
  }

  /** The name filter as a test on one profile. */
  function NameTest(value: string, settings: SearchSettings): Profile -> bool
  {
    (p: Profile) => MatchesName(p, value, settings)
  }

  /** The profiles a test rejects. */
  function Not(test: Profile -> bool): Profile -> bool
  {
    (p: Profile) => !test(p)
  }

  /** `resetChangedFlags`: the profile counts as saved, neither edited, moved nor new. */
  function ResetFlags(p: Profile): (r: Profile)
    ensures !r.changed && !r.groupChanged && !r.isNew && !ProfileChanged(r)
    ensures r.(changed := p.changed, groupChanged := p.groupChanged, isNew := p.isNew) == p
  {
    p.(changed := false, groupChanged := false, isNew := false)
  }

  predicate AnyChanged(ps: seq<Profile>)
  {
    exists i :: 0 <= i < |ps| && ProfileChanged(ps[i])
  }

  predicate AnyGroupChanged(ps: seq<Profile>)
  {
    exists i :: 0 <= i < |ps| && ps[i].groupChanged
  }

  /**
   * The iterator loop of both filters: walk the list once, keeping the
   * profiles `keep` accepts and moving the others, in order, to the second list.
   */
  method Split(all: seq<Profile>, keep: Profile -> bool) returns (kept: seq<Profile>, removed: seq<Profile>)
    ensures kept == Filter(keep, all)
    ensures removed == Filter(Not(keep), all)
    ensures multiset(kept) + multiset(removed) == multiset(all)
  {
    kept, removed := [], [];
    var i := 0;
    while i < |all|
      invariant 0 <= i <= |all|
      invariant kept == Filter(keep, all[..i])
      invariant removed == Filter(Not(keep), all[..i])
    {
      FilterPrefixStep(keep, all, i);
      FilterPrefixStep(Not(keep), all, i);
      if keep(all[i]) {
        kept := kept + [all[i]];
      } else {
        removed := removed + [all[i]];
      }
      i := i + 1;
    }
    assert all[..i] == all;
    FilterPartition(keep, Not(keep), all);
  }

  class ProfileListModel {
    var profiles: seq<Profile>
    var filtered: seq<Profile>
    var profilesDeleted: bool

    /** A model over (copies of) the given profiles, nothing hidden, nothing deleted. */
    constructor(source: seq<Profile>)
      ensures profiles == source && filtered == [] && !profilesDeleted
    {
      profiles := source;
      filtered := [];
      profilesDeleted := false;
    }

    /** `getAllProfiles`: the visible profiles, then the hidden ones. */
    function AllProfiles(): seq<Profile>
      reads this
    {
      profiles + filtered
    }

    predicate IsFiltered()
      reads this
    {
      |filtered| > 0
    }

    /** `isChanged`: a deletion, or any profile (visible or hidden) edited, new or regrouped. */
    predicate IsChanged()
      reads this
    {
      profilesDeleted || AnyChanged(profiles) || AnyChanged(filtered) ||
      AnyGroupChanged(profiles) || AnyGroupChanged(filtered)
    }

    /** `getAllProfiles`, as the two copying loops. */
    method GetAllProfiles() returns (r: seq<Profile>)
      ensures r == AllProfiles()
      ensures |r| == |profiles| + |filtered|
    {
      r := [];
      var i := 0;
      while i < |profiles|
        invariant 0 <= i <= |profiles|
        invariant r == profiles[..i]
      {
        r := r + [profiles[i]];
        i := i + 1;
      }
      assert profiles[..i] == profiles;
      var j := 0;
      while j < |filtered|
        invariant 0 <= j <= |filtered|
        invariant r == profiles + filtered[..j]
      {
        r := r + [filtered[j]];
        j := j + 1;
      }
      assert filtered[..j] == filtered;
    }

    /** `resetFilter`: every hidden profile is visible again, after the visible ones. */
    method ResetFilter()
      modifies this
      ensures profiles == old(AllProfiles()) && filtered == []
      ensures !IsFiltered() && AllProfiles() == old(AllProfiles())
      ensures profilesDeleted == old(profilesDeleted)
    {
      profiles := profiles + filtered;
      filtered := [];
    }

    /**
     * `applyTagFilter`: restore, then (for a present, non-empty tag set)
     * hide every profile lacking one of the tags.
     */
    method ApplyTagFilter(tags: Option<set<string>>)
      modifies this
      ensures tags.None? || tags.value == {} ==> profiles == old(AllProfiles()) && filtered == []
      ensures tags.Some? && tags.value != {} ==>
        profiles == Filter(TagTest(tags.value), old(AllProfiles())) &&
        filtered == Filter(Not(TagTest(tags.value)), old(AllProfiles()))
      ensures multiset(AllProfiles()) == multiset(old(AllProfiles()))
      ensures profilesDeleted == old(profilesDeleted)
    {
      profiles := profiles + filtered;
      filtered := [];
      if tags.Some? && tags.value != {} {
        profiles, filtered := Split(profiles, TagTest(tags.value));
      }
    }

    /**
     * `applyNameFilter`: restore, then (for a non-blank value) hide every
     * profile the lower-cased value does not match.
     */
    method ApplyNameFilter(value: Option<string>, settings: SearchSettings)
      modifies this
      ensures value.None? || IsBlank(value.value) ==> profiles == old(AllProfiles()) && filtered == []
      ensures value.Some? && !IsBlank(value.value) ==>
        profiles == Filter(NameTest(Lower(value.value), settings), old(AllProfiles())) &&
        filtered == Filter(Not(NameTest(Lower(value.value), settings)), old(AllProfiles()))
      ensures multiset(AllProfiles()) == multiset(old(AllProfiles()))
      ensures profilesDeleted == old(profilesDeleted)
    {
      profiles := profiles + filtered;
      filtered := [];
      if value.Some? && !IsBlank(value.value) {
        profiles, filtered := Split(profiles, NameTest(Lower(value.value), settings));
      }
    }

    /** `deleteProfile`: remove the first equal visible profile; only a real removal counts as a deletion. */
    method DeleteProfile(p: Profile)
      modifies this
      ensures profiles == RemoveFirst(old(profiles), p)
      ensures profilesDeleted == (old(profilesDeleted) || p in old(profiles))
      ensures filtered == old(filtered)
    {
      var present := p in profiles;
      profiles := RemoveFirst(profiles, p);
      if present {
        profilesDeleted := true;
      }
    }

    /**
     * `resetChanged`: clears the flags of the visible profiles and the
     * deletion flag.  Hidden profiles keep their flags, so the model can
     * still report a change afterwards.
     */
    method ResetChanged()
      modifies this
      ensures profiles == Map(ResetFlags, old(profiles)) && filtered == old(filtered)
      ensures !profilesDeleted
      ensures IsChanged() <==> AnyChanged(filtered) || AnyGroupChanged(filtered)
    {
      var i := 0;
      while i < |profiles|
        invariant 0 <= i <= |profiles| == |old(profiles)|
        invariant forall j :: 0 <= j < i ==> profiles[j] == ResetFlags(old(profiles)[j])
        invariant forall j :: i <= j < |profiles| ==> profiles[j] == old(profiles)[j]
        invariant filtered == old(filtered)
      {
        profiles := profiles[i := ResetFlags(profiles[i])];
        i := i + 1;
      }
      profilesDeleted := false;
      assert !AnyChanged(profiles) && !AnyGroupChanged(profiles);
    }

    /**
     * `copyProfilesToGroup`: nothing for an empty list or a missing group.
     * Otherwise each present profile is copied, marked new, given the
     * group's path, renamed against the group's current children, and
     * appended to the visible list and to the group; the list then counts
     * as changed.  The result is the index of the first
     * new child (if any) and the updated group.
     */
    method CopyProfilesToGroup(dropped: seq<Option<Profile>>, group: Option<Group>, parents: seq<Parent>)
      returns (first: Option<nat>, updated: Option<Group>)
      requires group.Some? ==> LeafNamesPresent(group.value.children)
      requires forall i :: 0 <= i < |dropped| && dropped[i].Some? ==> dropped[i].value.name.Some?
      modifies this
      ensures |dropped| == 0 || group.None? ==>
        first.None? && updated == group && profiles == old(profiles)
      ensures |dropped| > 0 && group.Some? ==>
        var g := group.value;
        var added := Added(g.children, dropped, GroupPathOf(g.name, parents));
        updated == Some(g.(children := g.children + Map(AsLeaf, added))) &&
        profiles == old(profiles) + added &&
        (first.Some? <==> |added| > 0) &&
        (first.Some? ==> first.value == |g.children|)
      ensures filtered == old(filtered) && profilesDeleted == old(profilesDeleted)
      ensures first.Some? ==> IsChanged()
    {
      if |dropped| == 0 || group.None? {
        return None, group;
      }
      var g := group.value;
      var path := GroupPathOf(g.name, parents);
      var added := CopiesFor(g.children, dropped, path);
      profiles := profiles + added;
      first := if |added| > 0 then Some(|g.children|) else None;
      var children := g.children + Map(AsLeaf, added);
      updated := Some(g.(children := children));
      if |added| > 0 {
        CopiesAreNew(g.children, dropped, path);
        assert ProfileChanged(profiles[|old(profiles)|]);
      }
    }
  }

  function AsLeaf(p: Profile): Node
  {
    Leaf(p)
  }

  /** Every profile among the children has a name (the renaming reads them all). */
  predicate LeafNamesPresent(cs: seq<Node>)
  {
    forall i :: 0 <= i < |cs| && cs[i].Leaf? ==> cs[i].profile.name.Some?
  }

  lemma LeafNamesAppend(cs: seq<Node>, ps: seq<Profile>)
    requires LeafNamesPresent(cs)
    requires forall i :: 0 <= i < |ps| ==> ps[i].name.Some?
    ensures LeafNamesPresent(cs + Map(AsLeaf, ps))
  {
  }

  // ---------------------------------------------------------------------
  // Renaming a copy

  /** The characters the copy-suffix pattern accepts between the parentheses. */
  predicate IsCopyMark(c: char)
  {
    IsDigit(c) || c == '+'
  }

  /**
   * Where the pattern `\(([0-9+])\)$` matches: a parenthesised single digit
   * or `+` closing the name.
   */
  function CopySuffixStart(name: string): (r: Option<nat>)
    ensures r.Some? ==> r.value + 3 == |name| && name[r.value] == '(' && IsCopyMark(name[r.value + 1])
  {
    if |name| >= 3 && name[|name| - 3] == '(' && IsCopyMark(name[|name| - 2]) && name[|name| - 1] == ')'
    then Some(|name| - 3)
    else None
  }

  /** The lower-cased base name other names are compared with. */
  function PlainName(name: string): string
  {
    match CopySuffixStart(name)
    case Some(k) => Lower(Trim(name[..k]))
    case None => Lower(name)
  }

  /** How many profile children have a lower-cased name starting with `plain`. */
  function PrefixCount(cs: seq<Node>, plain: string): (r: nat)
    requires LeafNamesPresent(cs)
    ensures r <= |cs|
  {
    if |cs| == 0 then 0
    else
      PrefixCount(cs[..|cs| - 1], plain) +
      (if cs[|cs| - 1].Leaf? && StartsWith(Lower(cs[|cs| - 1].profile.name.value), plain) then 1 else 0)
  }

  /** The loop counting the matching children. */
  method CountPrefixed(cs: seq<Node>, plain: string) returns (count: nat)
    requires LeafNamesPresent(cs)
    ensures count == PrefixCount(cs, plain)
  {
    count := 0;
    var i := 0;
    while i < |cs|
      invariant 0 <= i <= |cs|
      invariant count == PrefixCount(cs[..i], plain)
    {
      assert cs[..i + 1][..i] == cs[..i];
      if cs[i].Leaf? && StartsWith(Lower(cs[i].profile.name.value), plain) {
        count := count + 1;
      }
      i := i + 1;
    }
    assert cs[..i] == cs;
  }

  /** The name a copy gets when `count` children match its base name. */
  function CopyName(name: string, count: nat): string
  {
    if count == 0 then name
    else
      var suffix := "(" + NatToString(count) + ")";
      match CopySuffixStart(name)
      case Some(k) => name[..k] + suffix
      case None => name + " " + suffix
  }

  /** `adjustCopiededProfileName`: the copy renamed against the group's children. */
  method AdjustCopiedProfileName(copy: Profile, cs: seq<Node>) returns (r: Profile)
    requires copy.name.Some? && LeafNamesPresent(cs)
    ensures r == Adjusted(copy, cs)
  {
    var name := copy.name.value;
    var plain := Lower(name);
    var start := CopySuffixStart(name);
    if start.Some? {
      plain := Lower(Trim(name[..start.value]));
    }
    var count := CountPrefixed(cs, plain);
    r := copy;
    if count > 0 {
      var suffix := "(" + NatToString(count) + ")";
      var renamed := if start.Some? then name[..start.value] + suffix else name + " " + suffix;
      r := copy.(name := Some(renamed));
    }
  }

  /** The function form of the renaming, for use in specifications. */
  function Adjusted(copy: Profile, cs: seq<Node>): (r: Profile)
    requires copy.name.Some? && LeafNamesPresent(cs)
    ensures r.name.Some? && r.(name := copy.name) == copy
  {
    copy.(name := Some(CopyName(copy.name.value, PrefixCount(cs, PlainName(copy.name.value)))))
  }

  /** The present entries of a list that may hold missing ones. */
  function Present(ps: seq<Option<Profile>>): (r: seq<Profile>)
    ensures |r| <= |ps|
  {
    if |ps| == 0 then []
    else Present(ps[..|ps| - 1]) + (if ps[|ps| - 1].Some? then [ps[|ps| - 1].value] else [])
  }

  /** `createCopy`, `setNew` and `setGroups(path)`: the copy before it is renamed. */
  function Copy(p: Profile, path: seq<string>): Profile
  {
    p.(isNew := true, groups := path, groupChanged := p.groupChanged || path != p.groups)
  }

  /** The copy is the original marked new (`setNew`) and then regrouped (`setGroups`). */
  lemma CopyIsNewRegrouped(p: Profile, path: seq<string>)
    ensures Copy(p, path) == WithGroups(SetNew(p), path)
    ensures ProfileChanged(Copy(p, path)) && Copy(p, path).groups == path
  {
  }

  /** A profile apart from its name. */
  function Unnamed(p: Profile): Profile
  {
    p.(name := None)
  }

  /** The copy of a profile for a group path, apart from its name. */
  function UnnamedCopy(path: seq<string>): Profile -> Profile
  {
    (p: Profile) => Unnamed(Copy(p, path))
  }

  /**
   * The copies `copyProfilesToGroup` adds to a group whose children are
   * `cs`: each present profile, with the group's path, renamed against the
   * children including the copies added before it.
   */
  function Added(cs: seq<Node>, ps: seq<Option<Profile>>, path: seq<string>): (r: seq<Profile>)
    requires LeafNamesPresent(cs)
    requires forall i :: 0 <= i < |ps| && ps[i].Some? ==> ps[i].value.name.Some?
    ensures forall i :: 0 <= i < |r| ==> r[i].name.Some?
    decreases |ps|
  {
    if |ps| == 0 then []
    else
      var prev := Added(cs, ps[..|ps| - 1], path);
      match ps[|ps| - 1]
      case None => prev
      case Some(p) =>
        LeafNamesAppend(cs, prev);
        prev + [Adjusted(Copy(p, path), cs + Map(AsLeaf, prev))]
  }

  /**
   * The copies are the present dropped profiles, in order, each marked new
   * and carrying the group's path (with the group-change mark `setGroups`
   * sets); apart from that only their names may differ.
   */
  lemma {:induction false} AddedCopies(cs: seq<Node>, ps: seq<Option<Profile>>, path: seq<string>)
    requires LeafNamesPresent(cs)
    requires forall i :: 0 <= i < |ps| && ps[i].Some? ==> ps[i].value.name.Some?
    ensures var r := Added(cs, ps, path);
      |r| == |Present(ps)| &&
      (forall i :: 0 <= i < |r| ==> r[i].groups == path && r[i].isNew) &&
      Map(Unnamed, r) == Map(UnnamedCopy(path), Present(ps))
    decreases |ps|
  {
    if |ps| > 0 {
      var init := ps[..|ps| - 1];
      AddedCopies(cs, init, path);
      var prev := Added(cs, init, path);
      if ps[|ps| - 1].Some? {
        var p := ps[|ps| - 1].value;
        LeafNamesAppend(cs, prev);
        var c := Adjusted(Copy(p, path), cs + Map(AsLeaf, prev));
        assert Added(cs, ps, path) == prev + [c];
        assert Present(ps) == Present(init) + [p];
        CopyFields(p, path, cs + Map(AsLeaf, prev));
        CopiesSnoc(prev, c, Present(init), p, path);
      } else {
        assert Added(cs, ps, path) == prev;
        assert Present(ps) == Present(init);
      }
    }
  }

  /** One more copy, for one more present profile. */
  lemma CopiesSnoc(prev: seq<Profile>, c: Profile, present: seq<Profile>, p: Profile, path: seq<string>)
    requires |prev| == |present| && forall i :: 0 <= i < |prev| ==> prev[i].groups == path && prev[i].isNew
    requires Map(Unnamed, prev) == Map(UnnamedCopy(path), present)
    requires c.groups == path && c.isNew && Unnamed(c) == UnnamedCopy(path)(p)
    ensures var r := prev + [c];
      |r| == |present + [p]| &&
      (forall i :: 0 <= i < |r| ==> r[i].groups == path && r[i].isNew) &&
      Map(Unnamed, r) == Map(UnnamedCopy(path), present + [p])
  {
    MapSnoc(Unnamed, prev, c);
    MapSnoc(UnnamedCopy(path), present, p);
    forall i | 0 <= i < |prev| + 1
      ensures (prev + [c])[i].groups == path && (prev + [c])[i].isNew
    {
      if i < |prev| {
        assert (prev + [c])[i] == prev[i];
      }
    }
  }

  /** A renamed copy keeps everything the copy was given but its name. */
  lemma CopyFields(p: Profile, path: seq<string>, cs: seq<Node>)
    requires p.name.Some? && LeafNamesPresent(cs)
    ensures var c := Adjusted(Copy(p, path), cs);
      c.groups == path && c.isNew && Unnamed(c) == UnnamedCopy(path)(p)
  {
    var q := Copy(p, path);
    var c := Adjusted(q, cs);
    assert c.(name := q.name) == q;
    assert Unnamed(c) == Unnamed(q);
    assert UnnamedCopy(path)(p) == Unnamed(q);
  }

  /** Every copy is marked new. */
  lemma CopiesAreNew(cs: seq<Node>, ps: seq<Option<Profile>>, path: seq<string>)
    requires LeafNamesPresent(cs)
    requires forall i :: 0 <= i < |ps| && ps[i].Some? ==> ps[i].value.name.Some?
    ensures forall i :: 0 <= i < |Added(cs, ps, path)| ==> ProfileChanged(Added(cs, ps, path)[i])
  {
    AddedCopies(cs, ps, path);
  }

  /** One more entry of the dropped list. */
  lemma AddedStep(cs: seq<Node>, ps: seq<Option<Profile>>, i: nat, path: seq<string>)
    requires LeafNamesPresent(cs) && i < |ps|
    requires forall j :: 0 <= j < |ps| && ps[j].Some? ==> ps[j].value.name.Some?
    ensures var prev := Added(cs, ps[..i], path);
      LeafNamesPresent(cs + Map(AsLeaf, prev)) &&
      Added(cs, ps[..i + 1], path) ==
        prev + (if ps[i].Some? then [Adjusted(Copy(ps[i].value, path), cs + Map(AsLeaf, prev))] else [])
  {
    assert ps[..i + 1][..i] == ps[..i];
    LeafNamesAppend(cs, Added(cs, ps[..i], path));
  }

  /** The copying loop: each present profile copied, regrouped and renamed against the children so far. */
  method CopiesFor(cs: seq<Node>, dropped: seq<Option<Profile>>, path: seq<string>) returns (added: seq<Profile>)
    requires LeafNamesPresent(cs)
    requires forall i :: 0 <= i < |dropped| && dropped[i].Some? ==> dropped[i].value.name.Some?
    ensures added == Added(cs, dropped, path)
  {
    added := [];
    var i := 0;
    while i < |dropped|
      invariant 0 <= i <= |dropped|
      invariant added == Added(cs, dropped[..i], path)
    {
      AddedStep(cs, dropped, i, path);
      if dropped[i].Some? {
        var renamed := AdjustCopiedProfileName(Copy(dropped[i].value, path), cs + Map(AsLeaf, added));
        added := added + [renamed];
      }
      i := i + 1;
    }
    assert dropped[..i] == dropped;
  }

  lemma AddedNamed(cs: seq<Node>, ps: seq<Option<Profile>>, path: seq<string>)
    requires LeafNamesPresent(cs)
    requires forall i :: 0 <= i < |ps| && ps[i].Some? ==> ps[i].value.name.Some?
    ensures forall i :: 0 <= i < |Added(cs, ps, path)| ==> Added(cs, ps, path)[i].name.Some?
  {
  }

  // ---------------------------------------------------------------------
  // Properties of the renaming

  /** With no matching child the name stays as it is. */
  lemma NoMatchKeepsName(copy: Profile, cs: seq<Node>)
    requires copy.name.Some? && LeafNamesPresent(cs)
    requires PrefixCount(cs, PlainName(copy.name.value)) == 0
    ensures Adjusted(copy, cs) == copy
  {
  }

  /** A renamed copy ends with the count in parentheses, after the name without its old suffix. */
  lemma RenamedEndsWithCount(name: string, count: nat)
    requires count > 0
    ensures var suffix := "(" + NatToString(count) + ")";
      EndsWith(CopyName(name, count), suffix) &&
      (CopySuffixStart(name).Some? ==> CopyName(name, count) == name[..|name| - 3] + suffix) &&
      (CopySuffixStart(name).None? ==> CopyName(name, count) == name + " " + suffix)
  {
  }

  /** Counts from ten on are not recognised as a copy suffix by the next copy. */
  lemma LongCountNotRecognised(name: string, count: nat)
    requires count >= 10
    ensures CopySuffixStart(CopyName(name, count)).None?
  {
    var digits := NatToString(count);
    assert |digits| >= 2 by {
      assert digits == NatToString(count / 10) + [DigitChar(count % 10)];
    }
    var r := CopyName(name, count);
    assert r[|r| - 1] == ')' && r[|r| - 2] == digits[|digits| - 1];
    assert r[|r| - 3] == digits[|digits| - 2];
    assert IsDigit(digits[|digits| - 2]);
  }

  /** A single-digit count is recognised, so copying a copy replaces its suffix. */
  lemma ShortCountRecognised(name: string, count: nat)
    requires 0 < count < 10
    ensures CopySuffixStart(CopyName(name, count)) == Some(|CopyName(name, count)| - 3)
  {
    assert NatToString(count) == [DigitChar(count)];
  }

  /**
   * The renamed copy is not always new: with "Foo" and "Foo (2)" in the
   * group, a copy of "Foo" is named "Foo (2)" as well.
   */
  lemma CopyNameMayRepeat(p: Profile)
    requires p.name == Some("Foo")
    ensures var cs := [Leaf(p), Leaf(p.(name := Some("Foo (2)")))];
      LeafNamesPresent(cs) && Adjusted(p, cs).name == Some("Foo (2)") &&
      Adjusted(p, cs).name == cs[1].profile.name
  {
    var cs := [Leaf(p), Leaf(p.(name := Some("Foo (2)")))];
    assert CopySuffixStart("Foo").None?;
    assert PlainName("Foo") == "foo";
    assert Lower("Foo") == "foo";
    assert Lower("Foo (2)") == "foo (2)";
    assert cs[..1][..0] == [];
    assert cs[..1] == [cs[0]];
    assert PrefixCount(cs[..1], "foo") == 1;
    assert PrefixCount(cs, "foo") == 2;
    assert NatToString(2) == "2";
    assert CopyName("Foo", 2) == "Foo (2)";
  }
}
