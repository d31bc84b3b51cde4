/**
 * The in-memory part of `MacroStorage`: the ordered list of macro groups,
 * the case-insensitive name-to-macro lookup map, the storage's own
 * `modified` flag and the current name filter.  Groups are objects shared
 * with their callers, so the storage holds them by reference; macros are
 * values (see `MacroGroups`).
 */
module MacroStorages {
  import opened Text
  import opened Seqs
  import opened MacroGroups

  // ---------------------------------------------------------------------
  // Specification functions over the group list

  /** `getSize`: the visible macros of all groups. */
  function SizeOf(gs: seq<MacroGroup>): nat
    reads gs
  {
    if |gs| == 0 then 0 else SizeOf(gs[..|gs| - 1]) + |gs[|gs| - 1].macros|
  }

  /** A group holds a visible macro of this name, ignoring case. */
  predicate Holds(g: MacroGroup, macroName: string)
    reads g
  {
    exists m :: m in g.macros && EqualsIgnoreCase(m.name, macroName)
  }

  /** `findMacroGroup`: the position of the first group holding the macro, if any. */
  function FirstHolding(gs: seq<MacroGroup>, macroName: string): (r: Option<nat>)
    reads gs
    ensures r.Some? ==> r.value < |gs| && Holds(gs[r.value], macroName)
    ensures r.Some? ==> forall j :: 0 <= j < r.value ==> !Holds(gs[j], macroName)
    ensures r.None? ==> forall j :: 0 <= j < |gs| ==> !Holds(gs[j], macroName)
  {
    if |gs| == 0 then None
    else if Holds(gs[0], macroName) then Some(0)
    else
      match FirstHolding(gs[1..], macroName)
      case None => None
      case Some(k) => Some(k + 1)
  }

  /** The group `findMacroGroup` returns. */
  function Source(gs: seq<MacroGroup>, macroName: string): (r: MacroGroup?)
    reads gs
    ensures r != null ==> r in gs && Holds(r, macroName)
  {
    match FirstHolding(gs, macroName)
    case None => null
    case Some(i) => gs[i]
  }

  /** A group whose name is not listed is not itself listed, so appending it keeps the list distinct. */
  lemma NotListed(gs: seq<MacroGroup>, group: MacroGroup)
    requires Distinct(gs) && !HasGroupNamed(gs, group.name)
    ensures Distinct(gs + [group])
  {
  }

  /** `containsGroup`: some group's name equals the given one, ignoring case. */
  predicate HasGroupNamed(gs: seq<MacroGroup>, groupName: string)
    reads gs
  {
    exists i :: 0 <= i < |gs| && EqualsIgnoreCase(gs[i].name, groupName)
  }

  /** `Map.put` of each macro in turn; the map compares keys ignoring case. */
  function PutAll(m: map<string, Macro>, ms: seq<Macro>): map<string, Macro>
    decreases |ms|
  {
    if |ms| == 0 then m
    else PutAll(m, ms[..|ms| - 1])[Lower(ms[|ms| - 1].name) := ms[|ms| - 1]]
  }

  /** `updateMap`: every visible macro of every group, later ones replacing earlier ones. */
  function MacroMap(gs: seq<MacroGroup>): map<string, Macro>
    reads gs
  {
    if |gs| == 0 then map[] else PutAll(MacroMap(gs[..|gs| - 1]), gs[|gs| - 1].macros)
  }

  /** The map's keys are exactly the lower-case names of the listed macros, each mapped to one of them. */
  lemma {:induction false} PutAllKeys(m: map<string, Macro>, ms: seq<Macro>)
    ensures forall k :: k in PutAll(m, ms) <==> k in m || exists x :: x in ms && Lower(x.name) == k
    ensures forall k :: k in PutAll(m, ms) ==>
              (k in m && PutAll(m, ms)[k] == m[k]) || (PutAll(m, ms)[k] in ms && Lower(PutAll(m, ms)[k].name) == k)
    decreases |ms|
  {
    if |ms| > 0 {
      var ms' := ms[..|ms| - 1];
      PutAllKeys(m, ms');
      assert ms == ms' + [ms[|ms| - 1]];
      forall k | k in PutAll(m, ms) ensures k in m || exists x :: x in ms && Lower(x.name) == k {
        if k != Lower(ms[|ms| - 1].name) && k !in m {
          var x :| x in ms' && Lower(x.name) == k;
          assert x in ms;
        }
      }
    }
  }

  lemma {:induction false} MacroMapKeys(gs: seq<MacroGroup>)
    ensures forall k :: k in MacroMap(gs) <==>
              exists i, x :: 0 <= i < |gs| && x in gs[i].macros && Lower(x.name) == k
    ensures forall k :: k in MacroMap(gs) ==>
              Lower(MacroMap(gs)[k].name) == k &&
              exists i :: 0 <= i < |gs| && MacroMap(gs)[k] in gs[i].macros
    decreases |gs|
  {
    if |gs| > 0 {
      var gs' := gs[..|gs| - 1];
      var last := gs[|gs| - 1];
      MacroMapKeys(gs');
      PutAllKeys(MacroMap(gs'), last.macros);
      forall k | k in MacroMap(gs)
        ensures exists i, x :: 0 <= i < |gs| && x in gs[i].macros && Lower(x.name) == k
        ensures Lower(MacroMap(gs)[k].name) == k
        ensures exists i :: 0 <= i < |gs| && MacroMap(gs)[k] in gs[i].macros
      {
        if k in MacroMap(gs') && MacroMap(gs)[k] == MacroMap(gs')[k] {
          var i, x :| 0 <= i < |gs'| && x in gs'[i].macros && Lower(x.name) == k;
          assert gs[i] == gs'[i];
          var j :| 0 <= j < |gs'| && MacroMap(gs')[k] in gs'[j].macros;
          assert gs[j] == gs'[j];
        } else {
          assert MacroMap(gs)[k] in last.macros;
        }
      }
      forall k | exists i, x :: 0 <= i < |gs| && x in gs[i].macros && Lower(x.name) == k
        ensures k in MacroMap(gs)
      {
        var i, x :| 0 <= i < |gs| && x in gs[i].macros && Lower(x.name) == k;
        if i < |gs| - 1 {
          assert gs'[i] == gs[i];
        }
      }
    }
  }

  /** `Sorter` on groups: the stable sort by each group's sort order. */
  function Keyed(gs: seq<MacroGroup>): (r: seq<(int, MacroGroup)>)
    reads gs
    ensures |r| == |gs|
    ensures forall i :: 0 <= i < |gs| ==> r[i] == (gs[i].sortOrder, gs[i])
  {
    seq(|gs|, i requires 0 <= i < |gs| reads gs => (gs[i].sortOrder, gs[i]))
  }

  predicate KeyLe(a: (int, MacroGroup), b: (int, MacroGroup)) { a.0 <= b.0 }

  function Second(p: (int, MacroGroup)): MacroGroup { p.1 }

  /** The group order `applySort` produces from the groups and their sort orders. */
  function ByOrder(keyed: seq<(int, MacroGroup)>): seq<MacroGroup>
  {
    Map(Second, Sort(keyed, KeyLe))
  }

  /** Sorting only reorders the groups. */
  lemma ByOrderPermutes(gs: seq<MacroGroup>, keyed: seq<(int, MacroGroup)>)
    requires |keyed| == |gs| && forall i :: 0 <= i < |gs| ==> keyed[i].1 == gs[i]
    ensures multiset(ByOrder(keyed)) == multiset(gs)
  {
    MapPermutation(Second, Sort(keyed, KeyLe), keyed);
    assert Map(Second, keyed) == gs;
  }

  /** Groups already in ascending sort order keep their order, so a group given the greatest order ends up last. */
  lemma ByOrderKeepsSorted(keyed: seq<(int, MacroGroup)>)
    requires forall i, j :: 0 <= i < j < |keyed| ==> keyed[i].0 <= keyed[j].0
    ensures ByOrder(keyed) == Map(Second, keyed)
  {
    SortKeepsSorted(keyed, KeyLe);
  }

  /** `addGroup` gives a new group the order after the last group's, or 1 for the first group. */
  function NextOrder(gs: seq<MacroGroup>): int
    reads gs
  {
    if |gs| > 0 then gs[|gs| - 1].sortOrder + 1 else 1
  }

  /**
   * When the orders are ascending and the appended key is above the last one,
   * sorting keeps every group in place and the appended one last.
   */
  lemma ByOrderAppendLast(keyed: seq<(int, MacroGroup)>, k: int, g: MacroGroup)
    requires forall i, j :: 0 <= i < j < |keyed| ==> keyed[i].0 <= keyed[j].0
    requires |keyed| > 0 ==> keyed[|keyed| - 1].0 < k
    ensures ByOrder(keyed + [(k, g)]) == Map(Second, keyed) + [g]
  {
    var all := keyed + [(k, g)];
    forall i, j | 0 <= i < j < |all| ensures all[i].0 <= all[j].0 {
      if j == |keyed| && i < |keyed| {
        assert keyed[i].0 <= keyed[|keyed| - 1].0;
      }
    }
    ByOrderKeepsSorted(all);
    MapSnoc(Second, keyed, (k, g));
  }

  /** `removeGroup`: `List.remove` with `MacroGroup.equals`, i.e. the first group of the same name ignoring case. */
  function RemoveSameName(gs: seq<MacroGroup>, groupName: string): (r: seq<MacroGroup>)
    reads gs
    ensures HasGroupNamed(gs, groupName) ==> |r| == |gs| - 1
    ensures !HasGroupNamed(gs, groupName) ==> r == gs
    ensures multiset(r) <= multiset(gs)
  {
    if |gs| == 0 then []
    else if EqualsIgnoreCase(gs[0].name, groupName) then
      assert gs == [gs[0]] + gs[1..];
      gs[1..]
    else
      assert gs == [gs[0]] + gs[1..];
      HasGroupNamedTail(gs, groupName);
      [gs[0]] + RemoveSameName(gs[1..], groupName)
  }

  /** A group whose name differs is not the one the search finds. */
  lemma HasGroupNamedTail(gs: seq<MacroGroup>, groupName: string)
    requires |gs| > 0 && !EqualsIgnoreCase(gs[0].name, groupName)
    ensures HasGroupNamed(gs, groupName) <==> HasGroupNamed(gs[1..], groupName)
  {
    if HasGroupNamed(gs, groupName) {
      var i :| 0 <= i < |gs| && EqualsIgnoreCase(gs[i].name, groupName);
      assert gs[1..][i - 1] == gs[i];
    }
    if HasGroupNamed(gs[1..], groupName) {
      var i :| 0 <= i < |gs[1..]| && EqualsIgnoreCase(gs[1..][i].name, groupName);
      assert gs[i + 1] == gs[1..][i];
    }
  }

  /** A group still carries the given name, tooltip, menu flags and hidden and deleted lists. */
  predicate Settled(g: MacroGroup, name: string, tooltip: Option<string>, showInMenu: bool, showInPopup: bool,
                    filtered: seq<Macro>, deleted: seq<Macro>)
    reads g
  {
    g.name == name && g.tooltip == tooltip && g.showInMenu == showInMenu && g.showInPopup == showInPopup &&
    g.filtered == filtered && g.deleted == deleted
  }

  /** The loop of `applySort`: number the groups by position and sort each group's macros. */
  method RenumberGroups(gs: seq<MacroGroup>)
    requires Distinct(gs)
    modifies set g | g in gs
    ensures forall k :: 0 <= k < |gs| ==> gs[k].sortOrder == k
    ensures forall g :: g in gs ==> g.macros == Arranged(old(g.macros))
    ensures forall g :: g in gs ==>
              Settled(g, old(g.name), old(g.tooltip), old(g.showInMenu), old(g.showInPopup), old(g.filtered), old(g.deleted))
  {
    for i := 0 to |gs|
      invariant forall k :: 0 <= k < i ==> gs[k].sortOrder == k
      invariant forall k :: 0 <= k < |gs| ==>
                  gs[k].macros == if k < i then Arranged(old(gs[k].macros)) else old(gs[k].macros)
      invariant forall k :: 0 <= k < |gs| ==> Settled(gs[k], old(gs[k].name), old(gs[k].tooltip),
                  old(gs[k].showInMenu), old(gs[k].showInPopup), old(gs[k].filtered), old(gs[k].deleted))
    {
      label Before:
      RenumberGroup(gs[i], i);
      forall k | 0 <= k < |gs| && k != i
        ensures gs[k].macros == old@Before(gs[k].macros) && gs[k].sortOrder == old@Before(gs[k].sortOrder)
        ensures Settled(gs[k], old(gs[k].name), old(gs[k].tooltip),
                  old(gs[k].showInMenu), old(gs[k].showInPopup), old(gs[k].filtered), old(gs[k].deleted))
      {
        assert gs[k] != gs[i];
      }
    }
    forall g | g in gs
      ensures g.macros == Arranged(old(g.macros))
      ensures Settled(g, old(g.name), old(g.tooltip), old(g.showInMenu), old(g.showInPopup), old(g.filtered), old(g.deleted))
    {
      var k :| 0 <= k < |gs| && gs[k] == g;
    }
  }

  /** One step of `applySort`'s loop: the group takes its position as order and sorts its macros. */
  method RenumberGroup(g: MacroGroup, order: int)
    modifies g
    ensures g.sortOrder == order && g.macros == Arranged(old(g.macros))
    ensures Settled(g, old(g.name), old(g.tooltip), old(g.showInMenu), old(g.showInPopup), old(g.filtered), old(g.deleted))
  {
    g.SetSortOrder(order);
    g.ApplySort();
  }

  /** What a list of groups holds: each group's name with its macro list. */
  ghost function Contents(gs: seq<MacroGroup>): (r: seq<(string, seq<Macro>)>)
    reads gs
    ensures |r| == |gs|
    ensures forall k :: 0 <= k < |gs| ==> r[k] == (gs[k].name, gs[k].macros)
  {
    seq(|gs|, k requires 0 <= k < |gs| reads gs => (gs[k].name, gs[k].macros))
  }

  /** Some entry carries this name, ignoring case. */
  predicate Named(c: seq<(string, seq<Macro>)>, groupName: string)
  {
    |c| > 0 && (Named(c[..|c| - 1], groupName) || EqualsIgnoreCase(c[|c| - 1].0, groupName))
  }

  lemma {:induction false} NamedContents(gs: seq<MacroGroup>, groupName: string)
    ensures Named(Contents(gs), groupName) == HasGroupNamed(gs, groupName)
    decreases |gs|
  {
    if |gs| > 0 {
      var init := gs[..|gs| - 1];
      assert Contents(gs)[..|gs| - 1] == Contents(init);
      NamedContents(init, groupName);
      if HasGroupNamed(gs, groupName) && !EqualsIgnoreCase(gs[|gs| - 1].name, groupName) {
        var k :| 0 <= k < |gs| && EqualsIgnoreCase(gs[k].name, groupName);
        assert init[k] == gs[k];
      }
    }
  }

  /** One group after `addMacro(groupName, ...)` visited it: a group of that name receives the macro. */
  function AddIfNamed(groupName: string, def: Macro): ((string, seq<Macro>)) -> (string, seq<Macro>)
  {
    (e: (string, seq<Macro>)) => if EqualsIgnoreCase(e.0, groupName) then (e.0, Arranged(e.1 + [def])) else e
  }

  /**
   * The groups after `addMacro(groupName, key, text)`: every group of that
   * name receives the macro, or a new group holding it is appended; without
   * a name the first group receives it.
   */
  function WithMacro(c: seq<(string, seq<Macro>)>, groupName: Option<string>, def: Macro): seq<(string, seq<Macro>)>
  {
    match groupName
    case None => if |c| == 0 then c else [(c[0].0, Arranged(c[0].1 + [def]))] + c[1..]
    case Some(n) => if Named(c, n) then Map(AddIfNamed(n, def), c) else c + [(n, Arranged([def]))]
  }

  /** Without a group of that name the loop of `addMacro` changes nothing. */
  lemma UnnamedUnchanged(c: seq<(string, seq<Macro>)>, groupName: string, def: Macro)
    requires !Named(c, groupName)
    ensures Map(AddIfNamed(groupName, def), c) == c
  {
    NamedExists(c, groupName);
  }

  /** `Named` is the existence of an entry of that name. */
  lemma {:induction false} NamedExists(c: seq<(string, seq<Macro>)>, groupName: string)
    ensures Named(c, groupName) <==> exists k :: 0 <= k < |c| && EqualsIgnoreCase(c[k].0, groupName)
    decreases |c|
  {
    if |c| > 0 {
      var init := c[..|c| - 1];
      NamedExists(init, groupName);
      if !Named(c, groupName) {
        forall k | 0 <= k < |c| ensures !EqualsIgnoreCase(c[k].0, groupName) {
          if k < |c| - 1 {
            assert init[k] == c[k];
          }
        }
      } else if !EqualsIgnoreCase(c[|c| - 1].0, groupName) {
        var k :| 0 <= k < |init| && EqualsIgnoreCase(init[k].0, groupName);
        assert c[k] == init[k];
      }
    }
  }

  /**
   * `addMacro` with a group name, group by group: the groups keep their
   * names and order, each group of that name (ignoring case) gains the
   * macro, every other group keeps its macros, and only when no group has
   * the name does a new group holding just the macro come last.
   */
  lemma WithMacroNamed(c: seq<(string, seq<Macro>)>, groupName: string, def: Macro)
    ensures |WithMacro(c, Some(groupName), def)| == if Named(c, groupName) then |c| else |c| + 1
    ensures forall k :: 0 <= k < |c| ==> WithMacro(c, Some(groupName), def)[k].0 == c[k].0
    ensures forall k :: 0 <= k < |c| && EqualsIgnoreCase(c[k].0, groupName) ==>
              WithMacro(c, Some(groupName), def)[k].1 == Arranged(c[k].1 + [def])
    ensures forall k :: 0 <= k < |c| && !EqualsIgnoreCase(c[k].0, groupName) ==>
              WithMacro(c, Some(groupName), def)[k].1 == c[k].1
    ensures !Named(c, groupName) ==> WithMacro(c, Some(groupName), def)[|c|] == (groupName, Arranged([def]))
    ensures Named(c, groupName) <==> exists k :: 0 <= k < |c| && EqualsIgnoreCase(c[k].0, groupName)
  {
    NamedExists(c, groupName);
    if !Named(c, groupName) {
      forall k | 0 <= k < |c|
        ensures WithMacro(c, Some(groupName), def)[k] == c[k]
      {
        assert !EqualsIgnoreCase(c[k].0, groupName);
      }
    }
  }

  /** `addMacro` without a group name: the first group gains the macro and nothing else changes. */
  lemma WithMacroFirst(c: seq<(string, seq<Macro>)>, def: Macro)
    requires |c| > 0
    ensures |WithMacro(c, None, def)| == |c|
    ensures WithMacro(c, None, def)[0] == (c[0].0, Arranged(c[0].1 + [def]))
    ensures forall k :: 1 <= k < |c| ==> WithMacro(c, None, def)[k] == c[k]
  {
    assert WithMacro(c, None, def) == [(c[0].0, Arranged(c[0].1 + [def]))] + c[1..];
  }

  /** The loop of `addMacro(groupName, ...)`: every group of that name receives the macro. */
  method AddToGroupsNamed(gs: seq<MacroGroup>, groupName: string, def: Macro) returns (added: bool)
    requires Distinct(gs)
    modifies set g | g in gs
    ensures added <==> old(HasGroupNamed(gs, groupName))
    ensures Contents(gs) == Map(AddIfNamed(groupName, def), old(Contents(gs)))
  {
    ghost var before := Contents(gs);
    NamedContents(gs, groupName);
    added := false;
    for i := 0 to |gs|
      invariant added == Named(before[..i], groupName)
      invariant forall k :: 0 <= k < |gs| ==>
                  (gs[k].name, gs[k].macros) == if k < i then AddIfNamed(groupName, def)(before[k]) else before[k]
    {
      label Before:
      assert before[..i + 1][..i] == before[..i];
      if EqualsIgnoreCase(gs[i].name, groupName) {
        gs[i].AddMacro(def);
        added := true;
      }
      forall k | 0 <= k < |gs| && k != i
        ensures gs[k].macros == old@Before(gs[k].macros) && gs[k].name == old@Before(gs[k].name)
      {
        assert gs[k] != gs[i];
      }
    }
    assert before[..|gs|] == before;
  }


  class MacroStorage {
    var groups: seq<MacroGroup>
    var allMacros: map<string, Macro>
    var modified: bool
    var currentFilter: Option<string>

    /** No group is listed twice. */
    ghost predicate Valid()
      reads this
    {
      Distinct(groups)
    }

    constructor ()
      ensures Valid() && groups == [] && allMacros == map[] && !modified && currentFilter == None
    {
      groups := [];
      allMacros := map[];
      modified := false;
      currentFilter := None;
    }

    /** `isModified`: the storage's own flag or any group's. */
    predicate Changed()
      reads this, groups
    {
      modified || exists i :: 0 <= i < |groups| && groups[i].Changed()
    }

    /** `isFiltered`. */
    predicate IsFiltered()
      reads this
    {
      currentFilter.Some?
    }

    /** `getMacro`: the map compares names ignoring case. */
    function GetMacro(key: string): Option<Macro>
      reads this
    {
      if Lower(key) in allMacros then Some(allMacros[Lower(key)]) else None
    }

    method GetSize() returns (size: nat)
      ensures size == SizeOf(groups)
    {
      size := 0;
      for i := 0 to |groups|
        invariant size == SizeOf(groups[..i])
      {
        assert groups[..i + 1][..i] == groups[..i];
        size := size + |groups[i].macros|;
      }
      assert groups[..|groups|] == groups;
    }

    method ContainsGroup(groupName: string) returns (r: bool)
      ensures r <==> HasGroupNamed(groups, groupName)
    {
      for i := 0 to |groups|
        invariant forall k :: 0 <= k < i ==> !EqualsIgnoreCase(groups[k].name, groupName)
      {
        if EqualsIgnoreCase(groups[i].name, groupName) {
          return true;
        }
      }
      return false;
    }

    method FindMacroGroup(macroName: string) returns (r: MacroGroup?)
      ensures r == Source(groups, macroName)
    {
      for i := 0 to |groups|
        invariant forall k :: 0 <= k < i ==> !Holds(groups[k], macroName)
      {
        var macros := groups[i].macros;
        for j := 0 to |macros|
          invariant forall l :: 0 <= l < j ==> !EqualsIgnoreCase(macros[l].name, macroName)
        {
          if EqualsIgnoreCase(macros[j].name, macroName) {
            FirstIsFound(groups, macroName, i);
            return groups[i];
          }
        }
      }
      return null;
    }

    /** `applySort`: order the groups by sort order, renumber them and sort each group's macros. */
    method ApplySort()
      requires Valid()
      modifies this, groups
      ensures Valid()
      ensures groups == ByOrder(old(Keyed(groups)))
      ensures forall i :: 0 <= i < |groups| ==> groups[i].sortOrder == i
      ensures forall g :: g in old(groups) ==> g.macros == Arranged(old(g.macros))
      ensures forall g :: g in old(groups) ==> Settled(g, old(g.name), old(g.tooltip), old(g.showInMenu), old(g.showInPopup), old(g.filtered), old(g.deleted))
      ensures forall g :: g in groups <==> g in old(groups)
      ensures modified
      ensures allMacros == old(allMacros) && currentFilter == old(currentFilter)
    {
      var sorted := ByOrder(Keyed(groups));
      ByOrderPermutes(groups, Keyed(groups));
      assert Distinct(sorted) by {
        DistinctPermutation(groups, sorted);
      }
      assert forall g :: g in sorted <==> g in groups by {
        assert forall g :: g in sorted <==> g in multiset(groups);
      }
      RenumberGroups(sorted);
      assert allMacros == old(allMacros) && currentFilter == old(currentFilter);
      groups := sorted;
      modified := true;
    }

    /**
     * `addGroup`: nothing happens when a group of the same name (ignoring
     * case) is listed; otherwise the group gets the order after the last one
     * and the list is sorted again.
     */
    method AddGroup(group: MacroGroup)
      requires Valid()
      modifies this, groups, group
      ensures Valid()
      ensures old(HasGroupNamed(groups, group.name)) ==>
                groups == old(groups) && modified == old(modified) &&
                group.sortOrder == old(group.sortOrder) && group.macros == old(group.macros)
      ensures !old(HasGroupNamed(groups, group.name)) ==>
                modified && groups == ByOrder(old(Keyed(groups) + [(NextOrder(groups), group)]))
      ensures !old(HasGroupNamed(groups, group.name)) ==> forall i :: 0 <= i < |groups| ==> groups[i].sortOrder == i
      ensures !old(HasGroupNamed(groups, group.name)) ==> group.macros == Arranged(old(group.macros)) && group in groups
      ensures old(HasGroupNamed(groups, group.name)) ==> forall g :: g in old(groups) ==> unchanged(g)
      ensures forall g :: g in old(groups) ==>
                g.macros == if old(HasGroupNamed(groups, group.name)) then old(g.macros) else Arranged(old(g.macros))
      ensures forall g :: g in old(groups) ==> Settled(g, old(g.name), old(g.tooltip), old(g.showInMenu), old(g.showInPopup), old(g.filtered), old(g.deleted))
      ensures forall g :: g in groups ==> g in old(groups) || g == group
      ensures allMacros == old(allMacros) && currentFilter == old(currentFilter)
    {
      var present := ContainsGroup(group.name);
      if !present {
        AppendGroup(group);
      }
    }

    /** The branch of `addGroup` for a new name: order after the last group, append, sort. */
    method AppendGroup(group: MacroGroup)
      requires Valid() && !HasGroupNamed(groups, group.name)
      modifies this, groups, group
      ensures Valid() && modified
      ensures groups == ByOrder(old(Keyed(groups) + [(NextOrder(groups), group)]))
      ensures forall i :: 0 <= i < |groups| ==> groups[i].sortOrder == i
      ensures group.macros == Arranged(old(group.macros)) && group in groups
      ensures forall g :: g in old(groups) ==> g.macros == Arranged(old(g.macros))
      ensures forall g :: g in old(groups) ==> Settled(g, old(g.name), old(g.tooltip), old(g.showInMenu), old(g.showInPopup), old(g.filtered), old(g.deleted))
      ensures forall g :: g in groups <==> g in old(groups) || g == group
      ensures allMacros == old(allMacros) && currentFilter == old(currentFilter)
    {
      var newIndex := 1;
      if |groups| > 0 {
        newIndex := groups[|groups| - 1].sortOrder + 1;
      }
      Enlist(group, newIndex);
      assert Keyed(groups) == old(Keyed(groups) + [(NextOrder(groups), group)]);
      label Listed:
      ApplySort();
      forall g | g in old(groups)
        ensures g.macros == Arranged(old(g.macros))
        ensures Settled(g, old(g.name), old(g.tooltip), old(g.showInMenu), old(g.showInPopup), old(g.filtered), old(g.deleted))
      {
        assert g in old@Listed(groups) && old@Listed(g.macros) == old(g.macros);
      }
    }

    /** Give a group not listed yet the sort order and append it; the listed groups stay as they are. */
    method Enlist(group: MacroGroup, order: int)
      requires Valid() && !HasGroupNamed(groups, group.name)
      modifies this, group
      ensures Valid() && groups == old(groups) + [group]
      ensures group.sortOrder == order && group.macros == old(group.macros)
      ensures forall g :: g in old(groups) ==> unchanged(g)
      ensures allMacros == old(allMacros) && currentFilter == old(currentFilter)
    {
      NotListed(groups, group);
      assert group !in groups;
      group.SetSortOrder(order);
      groups := groups + [group];
    }

    /**
     * `moveMacro`: find the group that shows a macro of this name; when it
     * is the target (by name, ignoring case) nothing happens, otherwise the
     * macro leaves that group and joins the target.
     */
    method MoveMacro(macro: Macro, newGroup: MacroGroup)
      requires Valid()
      modifies this, newGroup, Source(groups, macro.name)
      ensures Valid() && groups == old(groups)
      ensures var src := old(Source(groups, macro.name));
              if src != null && old(EqualsIgnoreCase(src.name, newGroup.name)) then
                modified == old(modified) && newGroup.macros == old(newGroup.macros) &&
                forall g :: g in groups ==> g.macros == old(g.macros)
              else
                modified &&
                newGroup.macros == Arranged(old(newGroup.macros) + [macro]) &&
                (src != null ==> src.macros == RemoveFirst(old(src.macros), macro)) &&
                forall g :: g in groups && g != src && g != newGroup ==> g.macros == old(g.macros)
      ensures var src := old(Source(groups, macro.name));
              src == null || !old(EqualsIgnoreCase(src.name, newGroup.name)) ==>
                newGroup.modified &&
                (src != null ==> src.deleted == if macro in old(src.macros) then old(src.deleted) + [macro] else old(src.deleted)) &&
                (src != null && macro in old(src.macros) ==> src.modified)
      ensures allMacros == old(allMacros) && currentFilter == old(currentFilter)
    {
      var currentGroup := FindMacroGroup(macro.name);
      if currentGroup != null && currentGroup.SameGroup(newGroup) {
        return;
      }
      if currentGroup != null {
        currentGroup.RemoveMacro(macro);
      }
      newGroup.AddMacro(macro);
      modified := true;
    }

    /**
     * `addMacro(group, macro)`: register the macro under its name, list the
     * group when no group of its name is listed, move the macro into it and
     * then give the macro the order one past the group's size.  `held` is
     * the group's list just before that last step.
     */
    method AddMacroTo(group: MacroGroup, macro: Macro) returns (ghost held: seq<Macro>)
      requires Valid()
      modifies this, groups, group
      ensures Valid() && modified
      ensures old(HasGroupNamed(groups, group.name)) ==> groups == old(groups)
      ensures !old(HasGroupNamed(groups, group.name)) ==> group in groups
      ensures forall g :: g in groups ==> g in old(groups) || g == group
      ensures var listed := if old(HasGroupNamed(groups, group.name)) then old(group.macros) else Arranged(old(group.macros));
              held == listed || held == Arranged(listed + [macro])
      ensures group.macros == Reordered(held, macro, |held| + 1)
      ensures allMacros == old(allMacros)[Lower(macro.name) := macro.(sortOrder := |held| + 1)]
      ensures currentFilter == old(currentFilter)
    {
      ghost var wasListed := HasGroupNamed(groups, group.name);
      var present := ContainsGroup(group.name);
      if !present {
        AddGroup(group);
      }
      assert listed: group.macros == if wasListed then old(group.macros) else Arranged(old(group.macros));
      assert Source(groups, macro.name) == null || Source(groups, macro.name) in old(groups)
          || Source(groups, macro.name) == group;
      held := MoveAndPlace(group, macro);
    }

    /**
     * The tail of `addMacro(group, macro)`: move the macro into the group,
     * give it the order one past the group's size and register it by name.
     */
    method MoveAndPlace(group: MacroGroup, macro: Macro) returns (ghost held: seq<Macro>)
      requires Valid()
      modifies this, group, Source(groups, macro.name)
      ensures Valid() && modified && groups == old(groups)
      ensures held == old(group.macros) || held == Arranged(old(group.macros) + [macro])
      ensures held != old(group.macros) ==> Numbered(held)
      ensures group.macros == Reordered(held, macro, |held| + 1)
      ensures allMacros == old(allMacros)[Lower(macro.name) := macro.(sortOrder := |held| + 1)]
      ensures currentFilter == old(currentFilter)
    {
      MoveMacro(macro, group);
      held := group.macros;
      var order := |group.macros| + 1;
      group.ReorderMacro(macro, order);
      // the lookup map holds the same definition, under its name
      allMacros := allMacros[Lower(macro.name) := macro.(sortOrder := order)];
      modified := true;
    }

    /**
     * `addMacro(groupName, key, text)` with the new definition given: every
     * group of that name (ignoring case) receives it; with no such group a
     * new one is appended; without a group name the first group receives it.
     */
    method AddMacroToGroup(groupName: Option<string>, def: Macro)
      requires Valid()
      requires groupName.None? ==> |groups| > 0
      modifies this, groups
      ensures Valid() && modified && allMacros == MacroMap(groups)
      ensures Contents(groups) == WithMacro(old(Contents(groups)), groupName, def)
    {
      if groupName.Some? {
        AddToNamedGroups(groupName.value, def);
      } else {
        AddToFirstGroup(def);
      }
      Rebuild();
    }

    /** The common tail of every change: rebuild the lookup map and mark the storage modified. */
    method Rebuild()
      modifies this
      ensures allMacros == MacroMap(groups) && modified
      ensures groups == old(groups) && currentFilter == old(currentFilter)
      ensures Contents(groups) == old(Contents(groups))
    {
      UpdateMap();
      modified := true;
    }

    /** The branch of `addMacro` with a group name. */
    method AddToNamedGroups(groupName: string, def: Macro)
      requires Valid()
      modifies this, groups
      ensures Valid()
      ensures old(Named(Contents(groups), groupName)) ==>
                Contents(groups) == Map(AddIfNamed(groupName, def), old(Contents(groups)))
      ensures !old(Named(Contents(groups), groupName)) ==>
                Contents(groups) == old(Contents(groups)) + [(groupName, Arranged([def]))]
    {
      ghost var before := Contents(groups);
      NamedContents(groups, groupName);
      var added := AddToGroupsNamed(groups, groupName, def);
      if !added {
        UnnamedUnchanged(before, groupName, def);
        AppendNewGroup(groupName, def);
      }
    }

    /** A group of the given name holding just the macro goes to the end of the list. */
    method AppendNewGroup(groupName: string, def: Macro)
      requires Valid()
      modifies this
      ensures Valid()
      ensures Contents(groups) == old(Contents(groups)) + [(groupName, Arranged([def]))]
    {
      ghost var before := Contents(groups);
      var group := new MacroGroup(groupName);
      group.AddMacro(def);
      ghost var kept := groups;
      groups := groups + [group];
      assert Contents(groups) == before + [(groupName, Arranged([def]))] by {
        assert [] + [def] == [def];
        assert Contents(kept) == before;
      }
      DistinctSnoc(kept, group);
    }

    /** The branch of `addMacro` without a group name: the first group receives the macro. */
    method AddToFirstGroup(def: Macro)
      requires Valid() && |groups| > 0
      modifies groups
      ensures Contents(groups) == WithMacro(old(Contents(groups)), None, def)
    {
      label Before:
      groups[0].AddMacro(def);
      forall k | 1 <= k < |groups|
        ensures groups[k].macros == old@Before(groups[k].macros) && groups[k].name == old@Before(groups[k].name)
      {
        assert groups[k] != groups[0];
      }
    }

    /**
     * `removeMacro`: drop the name from the lookup map and remove the macro
     * the map held under it from every group.
     */
    method RemoveMacro(toDelete: Macro)
      requires Valid()
      modifies this, groups
      ensures Valid() && groups == old(groups) && modified
      ensures allMacros == old(allMacros) - {Lower(toDelete.name)}
      ensures Lower(toDelete.name) in old(allMacros) ==>
                forall g :: g in groups ==>
                  g.macros == RemoveFirst(old(g.macros), old(allMacros)[Lower(toDelete.name)])
      ensures Lower(toDelete.name) !in old(allMacros) ==>
                forall g :: g in groups ==> g.macros == old(g.macros)
      ensures currentFilter == old(currentFilter)
    {
      var key := Lower(toDelete.name);
      if key in allMacros {
        var macro := allMacros[key];
        allMacros := allMacros - {key};
        for i := 0 to |groups|
          invariant groups == old(groups) && allMacros == old(allMacros) - {key}
          invariant forall k :: 0 <= k < |groups| ==>
                      groups[k].macros == if k < i then RemoveFirst(old(groups[k].macros), macro)
                                          else old(groups[k].macros)
          invariant currentFilter == old(currentFilter)
        {
          label Before:
          groups[i].RemoveMacro(macro);
          forall k | 0 <= k < |groups| && k != i
            ensures groups[k].macros == old@Before(groups[k].macros)
          {
            assert groups[k] != groups[i];
          }
        }
      }
      modified := true;
    }

    /** `removeGroup`: `List.remove` compares groups by name, ignoring case. */
    method RemoveGroup(group: MacroGroup)
      requires Valid()
      modifies this
      ensures Valid() && modified
      ensures groups == old(RemoveSameName(groups, group.name))
      ensures allMacros == old(allMacros) && currentFilter == old(currentFilter)
    {
      var remaining := RemoveSameName(groups, group.name);
      DistinctCounts(groups);
      DistinctCounts(remaining);
      groups := remaining;
      modified := true;
    }

    method IsModified() returns (r: bool)
      ensures r <==> Changed()
    {
      if modified {
        return true;
      }
      for i := 0 to |groups|
        invariant forall k :: 0 <= k < i ==> !groups[k].Changed()
      {
        var groupModified := groups[i].IsModified();
        if groupModified {
          return true;
        }
      }
      return false;
    }

    method ResetModified()
      requires Valid()
      modifies this, groups
      ensures Valid() && groups == old(groups) && !Changed()
      ensures forall g :: g in groups ==> g.macros == Map(Cleared, old(g.macros)) && g.deleted == []
      ensures allMacros == old(allMacros) && currentFilter == old(currentFilter)
    {
      modified := false;
      for i := 0 to |groups|
        invariant groups == old(groups) && !modified
        invariant forall k :: 0 <= k < |groups| ==>
                    if k < i then groups[k].macros == Map(Cleared, old(groups[k].macros)) && groups[k].deleted == [] && !groups[k].Changed()
                    else groups[k].macros == old(groups[k].macros)
        invariant allMacros == old(allMacros) && currentFilter == old(currentFilter)
      {
        label Before:
        groups[i].ResetModified();
        forall k | 0 <= k < |groups| && k != i
          ensures groups[k].macros == old@Before(groups[k].macros) && groups[k].deleted == old@Before(groups[k].deleted)
          ensures groups[k].Changed() == old@Before(groups[k].Changed())
        {
          assert groups[k] != groups[i];
        }
      }
    }

    /** `resetFilter`: every group shows all its macros again. */
    method ResetFilter()
      requires Valid()
      modifies this, groups
      ensures Valid() && groups == old(groups) && currentFilter == None && !IsFiltered()
      ensures forall g :: g in groups ==>
                g.macros == Arranged(old(g.macros) + old(g.filtered)) && g.filtered == []
      ensures allMacros == MacroMap(groups) && modified == old(modified)
    {
      for i := 0 to |groups|
        invariant groups == old(groups) && modified == old(modified)
        invariant forall k :: 0 <= k < |groups| ==>
                    if k < i then groups[k].macros == Arranged(old(groups[k].macros) + old(groups[k].filtered)) && groups[k].filtered == []
                    else groups[k].macros == old(groups[k].macros) && groups[k].filtered == old(groups[k].filtered)
      {
        label Before:
        groups[i].ResetFilter();
        forall k | 0 <= k < |groups| && k != i
          ensures groups[k].macros == old@Before(groups[k].macros) && groups[k].filtered == old@Before(groups[k].filtered)
        {
          assert groups[k] != groups[i];
        }
      }
      currentFilter := None;
      UpdateMap();
    }

    /** `applyFilter`: remember the filter, filter every group and rebuild the map. */
    method ApplyFilter(filter: Option<string>)
      requires Valid()
      modifies this, groups
      ensures Valid() && groups == old(groups) && currentFilter == filter
      ensures IsFiltered() <==> filter.Some?
      ensures forall g :: g in groups ==>
                (g.macros, g.filtered) == FilterOutcome(old(g.macros) + old(g.filtered), filter)
      ensures allMacros == MacroMap(groups) && modified == old(modified)
    {
      FilterGroups(filter);
      currentFilter := filter;
      UpdateMap();
    }

    /** The loop of `applyFilter`: every group filters its own macros. */
    method FilterGroups(filter: Option<string>)
      requires Valid()
      modifies groups
      ensures forall g :: g in groups ==>
                (g.macros, g.filtered) == FilterOutcome(old(g.macros) + old(g.filtered), filter)
    {
      for i := 0 to |groups|
        invariant forall k :: 0 <= k < |groups| ==>
                    (groups[k].macros, groups[k].filtered) ==
                      if k < i then FilterOutcome(old(groups[k].macros) + old(groups[k].filtered), filter)
                      else (old(groups[k].macros), old(groups[k].filtered))
      {
        label Before:
        groups[i].ApplyFilter(filter);
        forall k | 0 <= k < |groups| && k != i
          ensures groups[k].macros == old@Before(groups[k].macros) && groups[k].filtered == old@Before(groups[k].filtered)
        {
          assert groups[k] != groups[i];
        }
      }
    }

    /** Rebuild the name map from the groups' visible macros. */
    method UpdateMap()
      modifies this
      ensures allMacros == MacroMap(groups)
      ensures groups == old(groups) && modified == old(modified) && currentFilter == old(currentFilter)
      ensures unchanged(groups)
    {
      var result := map[];
      for i := 0 to |groups|
        invariant result == MacroMap(groups[..i])
      {
        var macros := groups[i].macros;
        ghost var before := result;
        for j := 0 to |macros|
          invariant result == PutAll(before, macros[..j])
        {
          assert macros[..j + 1][..j] == macros[..j];
          result := result[Lower(macros[j].name) := macros[j]];
        }
        assert macros[..|macros|] == macros;
        assert groups[..i + 1][..i] == groups[..i];
      }
      assert groups[..|groups|] == groups;
      allMacros := result;
    }
  }

  lemma FirstIsFound(gs: seq<MacroGroup>, macroName: string, i: nat)
    requires i < |gs|
    requires forall k :: 0 <= k < i ==> !Holds(gs[k], macroName)
    requires Holds(gs[i], macroName)
    ensures FirstHolding(gs, macroName) == Some(i)
  {
    var r := FirstHolding(gs, macroName);
    assert r.Some?;
  }
}
