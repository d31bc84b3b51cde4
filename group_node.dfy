/**
 * The tree of profile groups shown by the connection dialog.  A group has a
 * name, a flag marking the invisible root, and an ordered list of children,
 * each either a sub-group or a profile.  The tree is a value here; a node's
 * ancestors, which the original reaches through parent links, are passed
 * along as a list of `Parent`s, nearest first.  A node inside the tree is
 * named by its address: the child indexes leading to it from the root.
 */
module GroupNodes {
  import opened Text
  import opened Seqs
  import opened ConnectionProfiles

  datatype Node = Sub(group: Group) | Leaf(profile: Profile)

  datatype Group = Group(name: string, isDummy: bool, children: seq<Node>)

  /** What a node needs to know about one of its ancestors. */
  datatype Parent = Parent(name: string, isDummy: bool)

  function AsParent(g: Group): Parent
  {
    Parent(g.name, g.isDummy)
  }

  // ---------------------------------------------------------------------
  // Group paths

  /** The name an ancestor contributes to a path: none for the dummy root. */
  function NameOf(x: Parent): seq<string>
  {
    if x.isDummy then [] else [x.name]
  }

  /** The names of the non-dummy ancestors, farthest first. */
  function AboveNames(parents: seq<Parent>): seq<string>
  {
    if |parents| == 0 then []
    else NameOf(parents[|parents| - 1]) + AboveNames(parents[..|parents| - 1])
  }

  /** The group path of a group called `name` below `parents`. */
  function GroupPathOf(name: string, parents: seq<Parent>): seq<string>
  {
    AboveNames(parents) + [name]
  }

  /** `getGroupPath`: start with the own name, then walk up inserting in front. */
  method GetGroupPath(name: string, parents: seq<Parent>) returns (path: seq<string>)
    ensures path == GroupPathOf(name, parents)
  {
    path := [name];
    var i := 0;
    while i < |parents|
      invariant 0 <= i <= |parents|
      invariant path == AboveNames(parents[..i]) + [name]
    {
      assert parents[..i + 1][..i] == parents[..i];
      if !parents[i].isDummy {
        path := [parents[i].name] + path;
      }
      i := i + 1;
    }
    assert parents[..i] == parents;
  }

  /** The own name is the last element of the path. */
  lemma GroupPathEndsWithName(name: string, parents: seq<Parent>)
    ensures |GroupPathOf(name, parents)| > 0
    ensures GroupPathOf(name, parents)[|GroupPathOf(name, parents)| - 1] == name
  {
  }

  /** The nearest ancestor's name is the last name contributed from above. */
  lemma {:induction false} AboveNamesCons(x: Parent, parents: seq<Parent>)
    ensures AboveNames([x] + parents) == AboveNames(parents) + NameOf(x)
    decreases |parents|
  {
    if |parents| == 0 {
      assert [x] + parents == [x];
    } else {
      var q := parents[..|parents| - 1];
      assert ([x] + parents)[..|parents|] == [x] + q;
      AboveNamesCons(x, q);
    }
  }

  /** A child's path is its parent's path (without a dummy root) plus its own name. */
  lemma ChildPathExtendsParent(g: Group, parents: seq<Parent>, child: string)
    ensures !g.isDummy ==> GroupPathOf(child, [AsParent(g)] + parents) == GroupPathOf(g.name, parents) + [child]
    ensures g.isDummy ==> GroupPathOf(child, [AsParent(g)] + parents) == AboveNames(parents) + [child]
  {
    AboveNamesCons(AsParent(g), parents);
  }

  /** A group directly under the dummy root has just its own name as path. */
  lemma TopLevelPath(root: Group, child: string)
    requires root.isDummy
    ensures GroupPathOf(child, [AsParent(root)]) == [child]
  {
    ChildPathExtendsParent(root, [], child);
  }

  // ---------------------------------------------------------------------
  // Direct children

  /** `getFirstProfileIndex`: the first child that is a profile, or -1. */
  method GetFirstProfileIndex(g: Group) returns (r: int)
    ensures -1 <= r < |g.children|
    ensures r >= 0 ==> g.children[r].Leaf? && forall j :: 0 <= j < r ==> g.children[j].Sub?
    ensures r == -1 <==> forall j :: 0 <= j < |g.children| ==> g.children[j].Sub?
  {
    var i := 0;
    while i < |g.children|
      invariant 0 <= i <= |g.children|
      invariant forall j :: 0 <= j < i ==> g.children[j].Sub?
    {
      if g.children[i].Leaf? {
        return i;
      }
      i := i + 1;
    }
    return -1;
  }

  /** `containsGroup`: a direct child group with exactly this name; never for a missing name. */
  method ContainsGroup(g: Group, group: Option<string>) returns (b: bool)
    ensures b <==> group.Some? && exists j :: 0 <= j < |g.children| && IsGroupNamed(g.children[j], group.value)
  {
    if group.None? {
      return false;
    }
    var i := 0;
    while i < |g.children|
      invariant 0 <= i <= |g.children|
      invariant forall j :: 0 <= j < i ==> !IsGroupNamed(g.children[j], group.value)
    {
      if g.children[i].Sub? && g.children[i].group.name == group.value {
        return true;
      }
      i := i + 1;
    }
    return false;
  }

  /** `containsProfile`: a direct child profile equal to this one; never for a missing profile. */
  method ContainsProfile(g: Group, profile: Option<Profile>) returns (b: bool)
    ensures b <==> profile.Some? && Leaf(profile.value) in g.children
  {
    if profile.None? {
      return false;
    }
    var i := 0;
    while i < |g.children|
      invariant 0 <= i <= |g.children|
      invariant Leaf(profile.value) !in g.children[..i]
    {
      assert g.children[..i + 1] == g.children[..i] + [g.children[i]];
      if g.children[i] == Leaf(profile.value) {
        return true;
      }
      i := i + 1;
    }
    assert g.children[..i] == g.children;
    return false;
  }

  predicate IsGroupNamed(n: Node, name: string)
  {
    n.Sub? && n.group.name == name
  }

  /** The index of the first child group with exactly this name, or -1. */
  function ChildGroupIndex(cs: seq<Node>, name: string): (r: int)
    ensures -1 <= r < |cs|
    ensures r >= 0 ==> IsGroupNamed(cs[r], name) && forall j :: 0 <= j < r ==> !IsGroupNamed(cs[j], name)
    ensures r == -1 ==> forall j :: 0 <= j < |cs| ==> !IsGroupNamed(cs[j], name)
  {
    if |cs| == 0 then -1
    else if IsGroupNamed(cs[0], name) then 0
    else
      var k := ChildGroupIndex(cs[1..], name);
      if k < 0 then -1 else k + 1
  }

  /** `findChildGroup`, as a scan over the children. */
  method FindChildGroup(g: Group, name: string) returns (r: int)
    ensures r == ChildGroupIndex(g.children, name)
  {
    var i := 0;
    while i < |g.children|
      invariant 0 <= i <= |g.children|
      invariant forall j :: 0 <= j < i ==> !IsGroupNamed(g.children[j], name)
    {
      if g.children[i].Sub? && g.children[i].group.name == name {
        return i;
      }
      i := i + 1;
    }
    return -1;
  }

  // ---------------------------------------------------------------------
  // Profiles below a group

  /** All profiles below `g`, depth first in child order. */
  function ProfilesOf(g: Group): seq<Profile>
    decreases g
  {
    ProfilesIn(g.children)
  }

  function ProfilesIn(cs: seq<Node>): seq<Profile>
    decreases cs
  {
    if |cs| == 0 then [] else ProfilesIn(cs[..|cs| - 1]) + ProfilesAt(cs[|cs| - 1])
  }

  function ProfilesAt(n: Node): seq<Profile>
    decreases n
  {
    match n
    case Leaf(p) => [p]
    case Sub(s) => ProfilesOf(s)
  }

  lemma {:induction false} ProfilesInAppend(a: seq<Node>, b: seq<Node>)
    ensures ProfilesIn(a + b) == ProfilesIn(a) + ProfilesIn(b)
    decreases |b|
  {
    if |b| == 0 {
      assert a + b == a;
    } else {
      var b' := b[..|b| - 1];
      assert (a + b)[..|a + b| - 1] == a + b';
      ProfilesInAppend(a, b');
    }
  }

  /** Child `i`'s profiles sit between those of the earlier and the later children. */
  lemma ProfilesInOrder(cs: seq<Node>, i: nat)
    requires i < |cs|
    ensures ProfilesIn(cs) == ProfilesIn(cs[..i]) + ProfilesAt(cs[i]) + ProfilesIn(cs[i + 1..])
  {
    var upto, after := cs[..i + 1], cs[i + 1..];
    assert cs == upto + after;
    ProfilesInAppend(upto, after);
    assert upto[..i] == cs[..i];
  }

  /** `getProfileNodes`: collects child by child, recursing into groups. */
  method CollectProfiles(g: Group) returns (r: seq<Profile>)
    ensures r == ProfilesOf(g)
    decreases g
  {
    r := [];
    var i := 0;
    while i < |g.children|
      invariant 0 <= i <= |g.children|
      invariant r == ProfilesIn(g.children[..i])
    {
      assert g.children[..i + 1][..i] == g.children[..i];
      var child := g.children[i];
      match child {
        case Leaf(p) =>
          r := r + [p];
        case Sub(s) =>
          var below := CollectProfiles(s);
          r := r + below;
      }
      i := i + 1;
    }
    assert g.children[..i] == g.children;
  }

  /**
   * `findFirstProfile`: the first child decides; a group there is searched
   * and its answer returned, even when it has no profile.
   */
  function FindFirstProfile(g: Group): Option<Profile>
    decreases g
  {
    if |g.children| == 0 then None
    else
      match g.children[0]
      case Leaf(p) => Some(p)
      case Sub(s) => FindFirstProfile(s)
  }

  /** A profile it finds is the first of all profiles below the group. */
  lemma {:induction false} FindFirstProfileIsFirst(g: Group)
    requires FindFirstProfile(g).Some?
    ensures |ProfilesOf(g)| > 0 && ProfilesOf(g)[0] == FindFirstProfile(g).value
    decreases g
  {
    ProfilesInOrder(g.children, 0);
    match g.children[0]
    case Leaf(p) =>
    case Sub(s) =>
      FindFirstProfileIsFirst(s);
  }

  /** An empty first sub-group hides every later profile. */
  lemma EmptyFirstGroupHidesProfiles(p: Profile)
    ensures var g := Group("", true, [Sub(Group("a", false, [])), Leaf(p)]);
      FindFirstProfile(g).None? && ProfilesOf(g) == [p]
  {
    var g := Group("", true, [Sub(Group("a", false, [])), Leaf(p)]);
    ProfilesInOrder(g.children, 1);
    assert g.children[..1] == [Sub(Group("a", false, []))];
    assert ProfilesIn(g.children[..1]) == [] by {
      assert g.children[..1][..0] == [];
    }
  }

  // ---------------------------------------------------------------------
  // Addresses

  /** The group reached from `g` along `addr`, if every step is a child group. */
  function GroupAt(g: Group, addr: seq<nat>): Option<Group>
    decreases |addr|
  {
    if |addr| == 0 then Some(g)
    else if addr[0] < |g.children| && g.children[addr[0]].Sub? then GroupAt(g.children[addr[0]].group, addr[1..])
    else None
  }

  /** The group path of the group reached from `g` (below `parents`) along `addr`. */
  function PathAt(g: Group, parents: seq<Parent>, addr: seq<nat>): Option<seq<string>>
    decreases |addr|
  {
    if |addr| == 0 then Some(GroupPathOf(g.name, parents))
    else if addr[0] < |g.children| && g.children[addr[0]].Sub? then
      PathAt(g.children[addr[0]].group, [AsParent(g)] + parents, addr[1..])
    else None
  }

  lemma {:induction false} PathAtReachesGroup(g: Group, parents: seq<Parent>, addr: seq<nat>)
    ensures PathAt(g, parents, addr).Some? <==> GroupAt(g, addr).Some?
    ensures GroupAt(g, addr).Some? ==> PathAt(g, parents, addr) == Some(GroupPathOf(GroupAt(g, addr).value.name, ParentsAt(g, parents, addr)))
    decreases |addr|
  {
    if |addr| > 0 && addr[0] < |g.children| && g.children[addr[0]].Sub? {
      PathAtReachesGroup(g.children[addr[0]].group, [AsParent(g)] + parents, addr[1..]);
    }
  }

  /** The ancestors, nearest first, of the group reached along `addr`. */
  function ParentsAt(g: Group, parents: seq<Parent>, addr: seq<nat>): seq<Parent>
    decreases |addr|
  {
    if |addr| == 0 then parents
    else if addr[0] < |g.children| && g.children[addr[0]].Sub? then
      ParentsAt(g.children[addr[0]].group, [AsParent(g)] + parents, addr[1..])
    else parents
  }

  /** Every group strictly below `g` is an ordinary (non-dummy) group. */
  predicate NoDummyBelow(g: Group)
    decreases g
  {
    forall i :: 0 <= i < |g.children| && g.children[i].Sub? ==>
      !g.children[i].group.isDummy && NoDummyBelow(g.children[i].group)
  }

  // ---------------------------------------------------------------------
  // getOrCreatePath

  /**
   * The first step of `getOrCreatePath`: the first child group with exactly
   * this name, or else a new ordinary group appended for it.  The result is
   * the index of that child and the (possibly extended) children.
   */
  function Locate(cs: seq<Node>, name: string): (r: (nat, seq<Node>))
    ensures |cs| <= |r.1| <= |cs| + 1 && r.1[..|cs|] == cs
    ensures r.0 < |r.1| && IsGroupNamed(r.1[r.0], name)
    ensures forall j :: 0 <= j < r.0 ==> !IsGroupNamed(r.1[j], name)
    ensures |r.1| > |cs| ==> r.1 == cs + [Sub(Group(name, false, []))]
    ensures |r.1| == |cs| <==> exists j :: 0 <= j < |cs| && IsGroupNamed(cs[j], name)
  {
    var k := ChildGroupIndex(cs, name);
    if k >= 0 then (k, cs) else (|cs|, cs + [Sub(Group(name, false, []))])
  }

  /** An existing child group is reused: the first one with the name. */
  lemma LocateFound(cs: seq<Node>, name: string, i: nat)
    requires i < |cs| && IsGroupNamed(cs[i], name)
    requires forall j :: 0 <= j < i ==> !IsGroupNamed(cs[j], name)
    ensures Locate(cs, name) == (i, cs)
  {
  }

  /**
   * `getOrCreatePath`: nothing for an empty path; otherwise locate the
   * child group for the path's first name and go on with the rest of the
   * path there.  The result is the changed tree and the address of the
   * group reached.
   */
  function GetOrCreatePath(g: Group, path: seq<string>): (r: Option<(Group, seq<nat>)>)
    ensures r.None? <==> |path| == 0
    ensures r.Some? ==> AsParent(r.value.0) == AsParent(g) && |r.value.1| == |path|
    decreases |path|
  {
    if |path| == 0 then None
    else
      var l := Locate(g.children, path[0]);
      var first := l.1[l.0].group;
      if |path| == 1 then Some((g.(children := l.1), [l.0]))
      else
        var below := GetOrCreatePath(first, path[1..]).value;
        Some((g.(children := l.1[l.0 := Sub(below.0)]), [l.0] + below.1))
  }

  /** The group reached has the given path appended to the receiver's own path. */
  lemma {:induction false} GetOrCreateReachesPath(g: Group, parents: seq<Parent>, path: seq<string>)
    requires |path| > 0 && NoDummyBelow(g)
    ensures var r := GetOrCreatePath(g, path).value;
      PathAt(r.0, parents, r.1) == Some(AboveNames([AsParent(g)] + parents) + path)
    decreases |path|
  {
    var l := Locate(g.children, path[0]);
    var idx, cs := l.0, l.1;
    var first := cs[idx].group;
    var r := GetOrCreatePath(g, path).value;
    LocatedNoDummy(g, path[0]);
    if |path| == 1 {
      assert r == (g.(children := cs), [idx]);
      assert r.1[1..] == [];
      assert AsParent(r.0) == AsParent(g);
      assert PathAt(r.0, parents, r.1) == PathAt(first, [AsParent(g)] + parents, []);
      assert path == [first.name];
    } else {
      var below := GetOrCreatePath(first, path[1..]).value;
      var g2 := g.(children := cs[idx := Sub(below.0)]);
      assert r == (g2, [idx] + below.1);
      GetOrCreateReachesPath(first, [AsParent(g)] + parents, path[1..]);
      ReachThroughChild(g, parents, cs, idx, below.0, below.1, path[1..]);
      assert [path[0]] + path[1..] == path;
    }
  }

  /** One step down: a child group replaced by `sub`, whose address `addr` reaches `rest` below it. */
  lemma ReachThroughChild(g: Group, parents: seq<Parent>, cs: seq<Node>, idx: nat,
                          sub: Group, addr: seq<nat>, rest: seq<string>)
    requires idx < |cs| && cs[idx].Sub? && !cs[idx].group.isDummy
    requires PathAt(sub, [AsParent(g)] + parents, addr) ==
      Some(AboveNames([AsParent(cs[idx].group)] + ([AsParent(g)] + parents)) + rest)
    ensures PathAt(g.(children := cs[idx := Sub(sub)]), parents, [idx] + addr) ==
      Some(AboveNames([AsParent(g)] + parents) + ([cs[idx].group.name] + rest))
  {
    var g2 := g.(children := cs[idx := Sub(sub)]);
    AboveNamesCons(AsParent(cs[idx].group), [AsParent(g)] + parents);
    assert AsParent(g2) == AsParent(g);
    assert ([idx] + addr)[1..] == addr;
    var above := AboveNames([AsParent(g)] + parents);
    assert above + [cs[idx].group.name] + rest == above + ([cs[idx].group.name] + rest);
  }

  /** The located child is an ordinary group without dummies below it. */
  lemma LocatedNoDummy(g: Group, name: string)
    requires NoDummyBelow(g)
    ensures var l := Locate(g.children, name);
      !l.1[l.0].group.isDummy && NoDummyBelow(l.1[l.0].group) && NoDummyBelow(g.(children := l.1))
  {
    var l := Locate(g.children, name);
    if |l.1| == |g.children| {
      assert l.1 == g.children;
    }
  }

  /** `getOrCreatePath` creates ordinary groups only. */
  lemma {:induction false} GetOrCreateNoDummy(g: Group, path: seq<string>)
    requires |path| > 0 && NoDummyBelow(g)
    ensures NoDummyBelow(GetOrCreatePath(g, path).value.0)
    decreases |path|
  {
    var l := Locate(g.children, path[0]);
    var first := l.1[l.0].group;
    LocatedNoDummy(g, path[0]);
    if |path| > 1 {
      GetOrCreateNoDummy(first, path[1..]);
      NoDummyKept(g.(children := l.1), l.0, GetOrCreatePath(first, path[1..]).value.0);
    }
  }

  /** Replacing child group `idx` by an ordinary group without dummies keeps the tree free of dummies. */
  lemma NoDummyKept(g: Group, idx: nat, sub: Group)
    requires NoDummyBelow(g) && idx < |g.children|
    requires !sub.isDummy && NoDummyBelow(sub)
    ensures NoDummyBelow(g.(children := g.children[idx := Sub(sub)]))
  {
    var cs := g.children[idx := Sub(sub)];
    forall i | 0 <= i < |cs| && cs[i].Sub?
      ensures !cs[i].group.isDummy && NoDummyBelow(cs[i].group)
    {
      if i != idx {
        assert cs[i] == g.children[i];
      }
    }
  }

  /** Under the dummy root, the group reached has exactly the requested path. */
  lemma GetOrCreateFromRoot(root: Group, path: seq<string>)
    requires |path| > 0 && root.isDummy && NoDummyBelow(root)
    ensures var r := GetOrCreatePath(root, path).value; PathAt(r.0, [], r.1) == Some(path)
  {
    var r := GetOrCreatePath(root, path).value;
    GetOrCreateReachesPath(root, [], path);
    var top: seq<Parent> := [AsParent(root)] + [];
    assert AboveNames(top) == [] by {
      assert top[..0] == [];
    }
    assert PathAt(r.0, [], r.1) == Some(AboveNames(top) + path);
    assert AboveNames(top) + path == path;
  }

  /** Asking again for the same path changes nothing and reaches the same group. */
  lemma {:induction false} GetOrCreateIdempotent(g: Group, path: seq<string>)
    requires |path| > 0
    ensures var r := GetOrCreatePath(g, path).value; GetOrCreatePath(r.0, path) == Some(r)
    decreases |path|
  {
    var l := Locate(g.children, path[0]);
    var idx, cs := l.0, l.1;
    var r := GetOrCreatePath(g, path).value;
    var first := cs[idx].group;
    if |path| == 1 {
      assert r == (g.(children := cs), [idx]);
      LocateFound(cs, path[0], idx);
      assert r.0.children == cs;
    } else {
      var below := GetOrCreatePath(first, path[1..]).value;
      var cs' := cs[idx := Sub(below.0)];
      assert r == (g.(children := cs'), [idx] + below.1);
      forall j | 0 <= j < idx
        ensures !IsGroupNamed(cs'[j], path[0])
      {
        assert cs'[j] == cs[j];
      }
      LocateFound(cs', path[0], idx);
      GetOrCreateIdempotent(first, path[1..]);
      Revisit(r.0, path, idx, below.0, below.1);
    }
  }

  /** A group whose located child already holds the rest of the path is left as it is. */
  lemma Revisit(h: Group, path: seq<string>, idx: nat, sub: Group, addr: seq<nat>)
    requires |path| > 1 && Locate(h.children, path[0]) == (idx, h.children)
    requires h.children[idx] == Sub(sub) && GetOrCreatePath(sub, path[1..]) == Some((sub, addr))
    ensures GetOrCreatePath(h, path) == Some((h, [idx] + addr))
  {
    assert h.children[idx := Sub(sub)] == h.children;
  }

  // ---------------------------------------------------------------------
  // findGroupNode and getProfilePath

  /**
   * `findGroupNode`: depth first over the child groups; a child whose group
   * path equals `path` is the answer, otherwise (for paths longer than one)
   * the search goes on inside it.
   */
  function FindGroupNode(g: Group, parents: seq<Parent>, path: seq<string>): Option<seq<nat>>
    decreases g, |g.children| + 1
  {
    if |path| == 0 then None else FindFrom(g, parents, path, 0)
  }

  function FindFrom(g: Group, parents: seq<Parent>, path: seq<string>, i: nat): Option<seq<nat>>
    decreases g, |g.children| - i
  {
    if i >= |g.children| then None
    else match g.children[i]
      case Leaf(_) => FindFrom(g, parents, path, i + 1)
      case Sub(s) =>
        var below := [AsParent(g)] + parents;
        if path == GroupPathOf(s.name, below) then Some([i])
        else if |path| > 1 then
          match FindGroupNode(s, below, path)
          case Some(a) => Some([i] + a)
          case None => FindFrom(g, parents, path, i + 1)
        else FindFrom(g, parents, path, i + 1)
  }

  /** Whatever `findGroupNode` returns has the requested path. */
  lemma {:induction false} FindGroupNodeSound(g: Group, parents: seq<Parent>, path: seq<string>)
    requires FindGroupNode(g, parents, path).Some?
    ensures PathAt(g, parents, FindGroupNode(g, parents, path).value) == Some(path)
    decreases g, |g.children| + 1
  {
    FindFromSound(g, parents, path, 0);
  }

  lemma {:induction false} FindFromSound(g: Group, parents: seq<Parent>, path: seq<string>, i: nat)
    requires FindFrom(g, parents, path, i).Some?
    ensures PathAt(g, parents, FindFrom(g, parents, path, i).value) == Some(path)
    decreases g, |g.children| - i
  {
    match g.children[i]
    case Leaf(_) =>
      FindFromSound(g, parents, path, i + 1);
    case Sub(s) =>
      var below := [AsParent(g)] + parents;
      if path == GroupPathOf(s.name, below) {
        assert [i][1..] == [];
      } else if |path| > 1 && FindGroupNode(s, below, path).Some? {
        var a := FindGroupNode(s, below, path).value;
        FindGroupNodeSound(s, below, path);
        assert ([i] + a)[1..] == a;
      } else {
        FindFromSound(g, parents, path, i + 1);
      }
  }

  /** With no dummy groups below, every group strictly below `g` is found by its path. */
  lemma {:induction false} FindGroupNodeComplete(g: Group, parents: seq<Parent>, addr: seq<nat>, path: seq<string>)
    requires NoDummyBelow(g) && |addr| > 0 && PathAt(g, parents, addr) == Some(path)
    ensures FindGroupNode(g, parents, path).Some?
    decreases g, |g.children| + 1
  {
    PathAtReachesGroup(g, parents, addr);
    FindFromComplete(g, parents, addr, path, 0);
  }

  lemma {:induction false} FindFromComplete(g: Group, parents: seq<Parent>, addr: seq<nat>, path: seq<string>, i: nat)
    requires NoDummyBelow(g) && |addr| > 0 && PathAt(g, parents, addr) == Some(path)
    requires i <= addr[0]
    ensures FindFrom(g, parents, path, i).Some?
    decreases g, |g.children| - i
  {
    var s := g.children[i];
    if i < addr[0] {
      if FindFrom(g, parents, path, i).None? {
        assert FindFrom(g, parents, path, i) == FindFrom(g, parents, path, i + 1);
        FindFromComplete(g, parents, addr, path, i + 1);
      }
    } else {
      var below := [AsParent(g)] + parents;
      var sub := s.group;
      if path != GroupPathOf(sub.name, below) {
        assert |addr| > 1;
        PathAtLength(sub, below, addr[1..]);
        FindGroupNodeComplete(sub, below, addr[1..], path);
      }
    }
  }

  /** Below an ordinary group every step of an address adds one name to the path. */
  lemma {:induction false} PathAtLength(g: Group, parents: seq<Parent>, addr: seq<nat>)
    requires !g.isDummy && NoDummyBelow(g) && PathAt(g, parents, addr).Some?
    ensures |PathAt(g, parents, addr).value| == |AboveNames(parents)| + 1 + |addr|
    decreases |addr|
  {
    if |addr| > 0 {
      AboveNamesCons(AsParent(g), parents);
      PathAtLength(g.children[addr[0]].group, [AsParent(g)] + parents, addr[1..]);
    }
  }

  /** `getProfilePath`: the last direct child of the found group equal to the profile. */
  method LastProfileIndex(cs: seq<Node>, p: Profile) returns (r: int)
    ensures -1 <= r < |cs|
    ensures r == -1 <==> Leaf(p) !in cs
    ensures r >= 0 ==> cs[r] == Leaf(p) && forall j :: r < j < |cs| ==> cs[j] != Leaf(p)
  {
    r := -1;
    var i := 0;
    while i < |cs|
      invariant 0 <= i <= |cs|
      invariant -1 <= r < i
      invariant r == -1 <==> Leaf(p) !in cs[..i]
      invariant r >= 0 ==> cs[r] == Leaf(p) && forall j :: r < j < i ==> cs[j] != Leaf(p)
    {
      assert cs[..i + 1] == cs[..i] + [cs[i]];
      if cs[i] == Leaf(p) {
        r := i;
      }
      i := i + 1;
    }
    assert cs[..i] == cs;
  }

  /**
   * `getProfilePath`: find the group named by the profile's own group path,
   * then the last direct child there equal to the profile.  The address of
   * that child is returned.
   */
  method GetProfilePath(g: Group, parents: seq<Parent>, profile: Option<Profile>) returns (r: Option<seq<nat>>)
    ensures profile.None? ==> r.None?
    ensures profile.Some? && FindGroupNode(g, parents, profile.value.groups).None? ==> r.None?
    ensures r.Some? ==> |r.value| > 0
    ensures r.Some? ==>
      var a := r.value[..|r.value| - 1];
      var i := r.value[|r.value| - 1];
      FindGroupNode(g, parents, profile.value.groups) == Some(a) &&
      PathAt(g, parents, a) == Some(profile.value.groups) &&
      GroupAt(g, a).Some? && i < |GroupAt(g, a).value.children| &&
      GroupAt(g, a).value.children[i] == Leaf(profile.value) &&
      forall j :: i < j < |GroupAt(g, a).value.children| ==> GroupAt(g, a).value.children[j] != Leaf(profile.value)
    ensures profile.Some? && FindGroupNode(g, parents, profile.value.groups).Some? ==>
      var a := FindGroupNode(g, parents, profile.value.groups).value;
      GroupAt(g, a).Some? && (r.None? <==> Leaf(profile.value) !in GroupAt(g, a).value.children)
  {
    if profile.None? {
      return None;
    }
    var found := FindGroupNode(g, parents, profile.value.groups);
    if found.None? {
      return None;
    }
    var a := found.value;
    FindGroupNodeSound(g, parents, profile.value.groups);
    PathAtReachesGroup(g, parents, a);
    var group := GroupAt(g, a).value;
    var i := LastProfileIndex(group.children, profile.value);
    if i < 0 {
      return None;
    }
    r := Some(a + [i]);
    assert r.value[..|r.value| - 1] == a;
  }

  // ---------------------------------------------------------------------
  // updateProfileGroups and setName

  /** Every profile below `g` gets `path` as its group path. */
  function AssignGroups(g: Group, path: seq<string>): Group
    decreases g
  {
    g.(children := AssignIn(g.children, path))
  }

  function AssignIn(cs: seq<Node>, path: seq<string>): seq<Node>
    decreases cs
  {
    if |cs| == 0 then [] else AssignIn(cs[..|cs| - 1], path) + [AssignNode(cs[|cs| - 1], path)]
  }

  function AssignNode(n: Node, path: seq<string>): Node
    decreases n
  {
    match n
    case Leaf(p) => Leaf(WithGroups(p, path))
    case Sub(s) => Sub(AssignGroups(s, path))
  }

  /** `updateProfileGroups` as written: the receiver's path goes to its whole subtree. */
  function UpdateProfileGroupsAsWritten(g: Group, parents: seq<Parent>): Group
  {
    AssignGroups(g, GroupPathOf(g.name, parents))
  }

  /** The profiles stay in place and all of them receive the one path. */
  lemma {:induction false} AssignGroupsProfiles(g: Group, path: seq<string>)
    ensures ProfilesOf(AssignGroups(g, path)) == Map((p: Profile) => WithGroups(p, path), ProfilesOf(g))
    decreases g, 1
  {
    AssignInProfiles(g.children, path);
  }

  lemma {:induction false} AssignInProfiles(cs: seq<Node>, path: seq<string>)
    ensures ProfilesIn(AssignIn(cs, path)) == Map((p: Profile) => WithGroups(p, path), ProfilesIn(cs))
    decreases cs, 0
  {
    if |cs| > 0 {
      var init := cs[..|cs| - 1];
      var last := cs[|cs| - 1];
      var n := AssignNode(last, path);
      AssignInProfiles(init, path);
      ProfilesInAppend(AssignIn(init, path), [n]);
      SingleChild([n]);
      assert ProfilesIn(AssignIn(cs, path)) == ProfilesIn(AssignIn(init, path)) + ProfilesAt(n);
      assert ProfilesIn(cs) == ProfilesIn(init) + ProfilesAt(last);
      AssignNodeProfiles(last, path);
      MapAppend((p: Profile) => WithGroups(p, path), ProfilesIn(init), ProfilesAt(last));
    }
  }

  lemma {:induction false} AssignNodeProfiles(n: Node, path: seq<string>)
    ensures ProfilesAt(AssignNode(n, path)) == Map((p: Profile) => WithGroups(p, path), ProfilesAt(n))
    decreases n, 2
  {
    match n
    case Leaf(p) =>
    case Sub(s) => AssignGroupsProfiles(s, path);
  }

  /** A nested profile is moved into its grandparent's group by the as-written update. */
  lemma NestedProfileLosesSubgroup(p: Profile)
    ensures var g := Group("a", false, [Sub(Group("b", false, [Leaf(p)]))]);
      ProfilesOf(UpdateProfileGroupsAsWritten(g, [])) == [WithGroups(p, ["a"])] &&
      HomesOf(g, []) == [["a", "b"]]
  {
    var inner := Group("b", false, [Leaf(p)]);
    var g := Group("a", false, [Sub(inner)]);
    assert GroupPathOf("a", []) == ["a"];
    AssignGroupsProfiles(g, ["a"]);
    SingleChild(g.children);
    SingleChild(inner.children);
    assert ProfilesOf(g) == [p];
    HomesOfNested(p);
  }

  lemma SingleChild(cs: seq<Node>)
    requires |cs| == 1
    ensures ProfilesIn(cs) == ProfilesAt(cs[0])
  {
    assert cs[..0] == [];
  }

  lemma HomesSingle(g: Group, parents: seq<Parent>)
    requires |g.children| == 1
    ensures HomesOf(g, parents) == HomesAt(g.children[0], GroupPathOf(g.name, parents), [AsParent(g)] + parents)
  {
    var cs := g.children;
    var own, below := GroupPathOf(g.name, parents), [AsParent(g)] + parents;
    assert cs[..0] == [];
    assert HomesIn(cs, own, below) == HomesIn([], own, below) + HomesAt(cs[0], own, below);
  }

  /** Where the tree places the profile of the nested example. */
  lemma HomesOfNested(p: Profile)
    ensures HomesOf(Group("a", false, [Sub(Group("b", false, [Leaf(p)]))]), []) == [["a", "b"]]
  {
    var inner := Group("b", false, [Leaf(p)]);
    var g := Group("a", false, [Sub(inner)]);
    var top := [Parent("a", false)];
    assert AsParent(g) == Parent("a", false);
    assert top + [] == top;
    HomesSingle(g, []);
    assert HomesOf(g, []) == HomesOf(inner, top);
    HomesSingle(inner, top);
    assert AboveNames(top) == ["a"] by {
      assert top[..0] == [];
    }
    assert GroupPathOf("b", top) == ["a", "b"];
    assert HomesOf(inner, top) == [GroupPathOf("b", top)];
  }

  /**
   * For each profile below `g`, in `ProfilesOf` order, the group path of the
   * group holding it directly: where the tree places it.
   */
  function HomesOf(g: Group, parents: seq<Parent>): seq<seq<string>>
    decreases g
  {
    HomesIn(g.children, GroupPathOf(g.name, parents), [AsParent(g)] + parents)
  }

  function HomesIn(cs: seq<Node>, own: seq<string>, below: seq<Parent>): seq<seq<string>>
    decreases cs
  {
    if |cs| == 0 then [] else HomesIn(cs[..|cs| - 1], own, below) + HomesAt(cs[|cs| - 1], own, below)
  }

  function HomesAt(n: Node, own: seq<string>, below: seq<Parent>): seq<seq<string>>
    decreases n
  {
    match n
    case Leaf(_) => [own]
    case Sub(s) => HomesOf(s, below)
  }

  /** Every profile below `g` gets the path of the group holding it. */
  function Regroup(g: Group, parents: seq<Parent>): Group
    decreases g
  {
    g.(children := RegroupIn(g.children, GroupPathOf(g.name, parents), [AsParent(g)] + parents))
  }

  function RegroupIn(cs: seq<Node>, own: seq<string>, below: seq<Parent>): seq<Node>
    decreases cs
  {
    if |cs| == 0 then [] else RegroupIn(cs[..|cs| - 1], own, below) + [RegroupNode(cs[|cs| - 1], own, below)]
  }

  function RegroupNode(n: Node, own: seq<string>, below: seq<Parent>): Node
    decreases n
  {
    match n
    case Leaf(p) => Leaf(WithGroups(p, own))
    case Sub(s) => Sub(Regroup(s, below))
  }

  /** `updateProfileGroups`, corrected: each profile gets its own group's path. */
  function UpdateProfileGroups(g: Group, parents: seq<Parent>): Group
  {
    Regroup(g, parents)
  }

  function GroupsOf(p: Profile): seq<string>
  {
    p.groups
  }

  /** A profile apart from its group path and the mark that the path changed. */
  function WithoutGroups(p: Profile): Profile
  {
    p.(groups := [], groupChanged := false)
  }

  /**
   * After the corrected update the profiles keep their place and all their
   * other fields, and each carries the path of the group holding it (the
   * group-change mark follows `setGroups`).
   */
  lemma {:induction false} RegroupPlacesProfiles(g: Group, parents: seq<Parent>)
    ensures Map(GroupsOf, ProfilesOf(UpdateProfileGroups(g, parents))) == HomesOf(g, parents)
    ensures Map(WithoutGroups, ProfilesOf(UpdateProfileGroups(g, parents))) == Map(WithoutGroups, ProfilesOf(g))
    decreases g, 1
  {
    RegroupInProfiles(g.children, GroupPathOf(g.name, parents), [AsParent(g)] + parents);
  }

  lemma {:induction false} RegroupInProfiles(cs: seq<Node>, own: seq<string>, below: seq<Parent>)
    ensures Map(GroupsOf, ProfilesIn(RegroupIn(cs, own, below))) == HomesIn(cs, own, below)
    ensures Map(WithoutGroups, ProfilesIn(RegroupIn(cs, own, below))) == Map(WithoutGroups, ProfilesIn(cs))
    decreases cs, 0
  {
    if |cs| > 0 {
      var init := cs[..|cs| - 1];
      var last := cs[|cs| - 1];
      var n := RegroupNode(last, own, below);
      RegroupInProfiles(init, own, below);
      ProfilesInAppend(RegroupIn(init, own, below), [n]);
      assert ProfilesIn([n]) == ProfilesAt(n) by {
        assert [n][..0] == [];
      }
      var before := ProfilesIn(RegroupIn(init, own, below));
      assert ProfilesIn(RegroupIn(cs, own, below)) == before + ProfilesAt(n);
      RegroupNodeProfiles(last, own, below);
      MapAppend(GroupsOf, before, ProfilesAt(n));
      MapAppend(WithoutGroups, before, ProfilesAt(n));
      MapAppend(WithoutGroups, ProfilesIn(init), ProfilesAt(last));
    }
  }

  lemma {:induction false} RegroupNodeProfiles(n: Node, own: seq<string>, below: seq<Parent>)
    ensures Map(GroupsOf, ProfilesAt(RegroupNode(n, own, below))) == HomesAt(n, own, below)
    ensures Map(WithoutGroups, ProfilesAt(RegroupNode(n, own, below))) == Map(WithoutGroups, ProfilesAt(n))
    decreases n, 2
  {
    match n
    case Leaf(p) =>
      assert Map(GroupsOf, [WithGroups(p, own)]) == [own];
    case Sub(s) =>
      RegroupPlacesProfiles(s, below);
  }

  /** The corrected update gives the nested profile of the example its own group's path. */
  lemma NestedProfileKeepsSubgroup(p: Profile)
    ensures var g := Group("a", false, [Sub(Group("b", false, [Leaf(p)]))]);
      Map(GroupsOf, ProfilesOf(UpdateProfileGroups(g, []))) == [["a", "b"]]
  {
    var g := Group("a", false, [Sub(Group("b", false, [Leaf(p)]))]);
    RegroupPlacesProfiles(g, []);
    HomesOfNested(p);
  }

  /** `setName` as written: rename the group, then hand its new path to every profile below it. */
  function SetName(g: Group, parents: seq<Parent>, newName: string): (r: Group)
    ensures r.name == newName && r.isDummy == g.isDummy
  {
    UpdateProfileGroupsAsWritten(g.(name := newName), parents)
  }

  /** As written, a rename gives every profile below, however deep, the renamed group's own path. */
  lemma SetNameFlattensPaths(g: Group, parents: seq<Parent>, newName: string)
    ensures ProfilesOf(SetName(g, parents, newName))
         == Map((p: Profile) => WithGroups(p, GroupPathOf(newName, parents)), ProfilesOf(g))
  {
    var renamed := g.(name := newName);
    AssignGroupsProfiles(renamed, GroupPathOf(newName, parents));
    assert ProfilesOf(renamed) == ProfilesOf(g);
  }

  /** `setName` with the corrected update of the profiles' paths. */
  function SetNameCorrected(g: Group, parents: seq<Parent>, newName: string): (r: Group)
    ensures r.name == newName && r.isDummy == g.isDummy
  {
    UpdateProfileGroups(g.(name := newName), parents)
  }

  /** After a corrected rename every profile below carries the path of its group under the new name. */
  lemma SetNameMovesProfiles(g: Group, parents: seq<Parent>, newName: string)
    ensures Map(GroupsOf, ProfilesOf(SetNameCorrected(g, parents, newName))) == HomesOf(g.(name := newName), parents)
    ensures Map(WithoutGroups, ProfilesOf(SetNameCorrected(g, parents, newName))) == Map(WithoutGroups, ProfilesOf(g))
  {
    RegroupPlacesProfiles(g.(name := newName), parents);
  }
}
