/**
 * One macro group (`MacroGroup`): the visible macros, the macros a name
 * filter currently hides, the macros deleted since the last save, and the
 * group's own display settings together with its `modified` flag.
 *
 * A macro definition is a value here: `MacroDefinition` itself is not part of
 * this model, so a macro is reduced to the attributes the group reads and
 * writes (name, sort order, the two visibility flags, the DbTree flag and its
 * own modified flag).
 */
module MacroGroups {
  import opened Text
  import opened Seqs

  datatype Macro = Macro(
    name: string,
    sortOrder: int,
    visibleInMenu: bool,
    visibleInPopup: bool,
    dbTree: bool,
    modified: bool)

  // ---------------------------------------------------------------------
  // Orders and renumbering

  /** The `Sorter` order on sortable items: ascending sort order. */
  predicate OrderLe(a: Macro, b: Macro) { a.sortOrder <= b.sortOrder }

  /** The comparator of `sortByName`: `compareToIgnoreCase` on the names. */
  predicate NameLe(a: Macro, b: Macro) { CompareIgnoreCase(a.name, b.name) <= 0 }

  /** Each macro's sort order is its position. */
  predicate Numbered(s: seq<Macro>) { forall i :: 0 <= i < |s| ==> s[i].sortOrder == i }

  /** `setSortOrder(i)` for every position `i`. */
  function Renumbered(s: seq<Macro>): (r: seq<Macro>)
    ensures |r| == |s|
    ensures forall i :: 0 <= i < |s| ==> r[i] == s[i].(sortOrder := i)
    ensures Numbered(r)
  {
    seq(|s|, i requires 0 <= i < |s| => s[i].(sortOrder := i))
  }

  /** `applySort(list)`: a stable sort by sort order, then renumbering from 0. */
  function Arranged(s: seq<Macro>): seq<Macro>
  {
    Renumbered(Sort(s, OrderLe))
  }

  /** `sortByName`: a stable sort by name ignoring case, then renumbering from 0. */
  function ArrangedByName(s: seq<Macro>): seq<Macro>
  {
    Renumbered(Sort(s, NameLe))
  }

  /** A macro apart from its position. */
  function Unnumbered(m: Macro): Macro { m.(sortOrder := 0) }

  /** What `MacroDefinition.resetModified` leaves. */
  function Cleared(m: Macro): Macro { m.(modified := false) }

  predicate InMenu(m: Macro) { m.visibleInMenu }
  predicate InMenuNotDbTree(m: Macro) { m.visibleInMenu && !m.dbTree }
  predicate InPopupNotDbTree(m: Macro) { m.visibleInPopup && !m.dbTree }

  /** The `applyFilter` test, for a filter already in lower case. */
  function Matches(filter: string): Macro -> bool
  {
    (m: Macro) => Contains(Lower(m.name), filter)
  }

  function Misses(filter: string): Macro -> bool
  {
    (m: Macro) => !Contains(Lower(m.name), filter)
  }

  predicate BlankFilter(filter: Option<string>)
  {
    filter.None? || IsBlank(filter.value)
  }

  lemma OrderLeTotal()
    ensures Total(OrderLe)
  {
  }

  lemma NameLeTotal()
    ensures Total(NameLe)
  {
    forall a: Macro, b: Macro
      ensures NameLe(a, b) || NameLe(b, a)
    {
      CompareAntisym(Lower(a.name), Lower(b.name));
    }
  }

  // ---------------------------------------------------------------------
  // What sorting and renumbering promise

  /** Renumbering only changes positions: the macros are the same, in the same order. */
  lemma {:induction false} RenumberedKeepsMacros(s: seq<Macro>)
    ensures Numbered(Renumbered(s))
    ensures Map(Unnumbered, Renumbered(s)) == Map(Unnumbered, s)
  {
    var r := Renumbered(s);
    assert forall i :: 0 <= i < |s| ==> Map(Unnumbered, r)[i] == Unnumbered(s[i]);
  }

  /**
   * After `applySort` the sort orders are exactly 0..n-1, the macros are
   * those of the input up to their sort order, and they follow the input's
   * sort orders.
   */
  lemma ArrangedSpec(s: seq<Macro>)
    ensures |Arranged(s)| == |s|
    ensures Numbered(Arranged(s))
    ensures multiset(Map(Unnumbered, Arranged(s))) == multiset(Map(Unnumbered, s))
    ensures forall i, j :: 0 <= i < j < |s| ==>
              Sort(s, OrderLe)[i].sortOrder <= Sort(s, OrderLe)[j].sortOrder
  {
    var t := Sort(s, OrderLe);
    RenumberedKeepsMacros(t);
    MapPermutation(Unnumbered, t, s);
    OrderLeTotal();
    SortSorted(s, OrderLe);
    SortedByOrder(t);
  }

  /** Adjacent order implies order between any two positions. */
  lemma {:induction false} SortedByOrder(t: seq<Macro>)
    requires Sorted(t, OrderLe)
    ensures forall i, j :: 0 <= i < j < |t| ==> t[i].sortOrder <= t[j].sortOrder
    decreases |t|
  {
    if |t| > 1 {
      var t' := t[..|t| - 1];
      assert Sorted(t', OrderLe);
      SortedByOrder(t');
      forall i, j | 0 <= i < j < |t|
        ensures t[i].sortOrder <= t[j].sortOrder
      {
        if j < |t| - 1 {
          assert t[i] == t'[i] && t[j] == t'[j];
        } else if i < j - 1 {
          assert t[i] == t'[i] && t[j - 1] == t'[j - 1];
        }
      }
    }
  }

  /** A renumbered list is left as it is by a second `applySort`. */
  lemma ArrangedIdempotent(s: seq<Macro>)
    ensures Arranged(Arranged(s)) == Arranged(s)
  {
    var a := Arranged(s);
    ArrangedSpec(s);
    SortKeepsSorted(a, OrderLe);
    assert Renumbered(a) == a;
  }

  /** After `addMacro` the new macro is listed (at whatever position its sort order gives it). */
  lemma AddedIsListed(s: seq<Macro>, m: Macro)
    ensures |Arranged(s + [m])| == |s| + 1
    ensures Numbered(Arranged(s + [m]))
    ensures Unnumbered(m) in Map(Unnumbered, Arranged(s + [m]))
  {
    ArrangedSpec(s + [m]);
    MapSnoc(Unnumbered, s, m);
    assert Unnumbered(m) in multiset(Map(Unnumbered, s + [m]));
  }

  /** The same definition apart from its position: how a held macro is recognised. */
  predicate SameMacro(a: Macro, b: Macro) { Unnumbered(a) == Unnumbered(b) }

  /** `setSortOrder(order)` on a definition, as seen in a list that holds it. */
  function Reordered(s: seq<Macro>, m: Macro, order: int): seq<Macro>
  {
    seq(|s|, i requires 0 <= i < |s| => if SameMacro(s[i], m) then s[i].(sortOrder := order) else s[i])
  }

  /**
   * In a numbered list, the order one past the list's size puts the macro
   * after every other one and changes nothing but that macro's order.
   */
  lemma ReorderedPlacesLast(s: seq<Macro>, m: Macro)
    requires Numbered(s)
    ensures var r := Reordered(s, m, |s| + 1);
      |r| == |s| && Map(Unnumbered, r) == Map(Unnumbered, s) &&
      (forall i :: 0 <= i < |r| ==> (SameMacro(r[i], m) <==> SameMacro(s[i], m))) &&
      (forall i :: 0 <= i < |r| && SameMacro(r[i], m) ==> r[i].sortOrder == |s| + 1) &&
      (forall i, j :: 0 <= i < |r| && 0 <= j < |r| && !SameMacro(r[i], m) && SameMacro(r[j], m) ==>
         r[i].sortOrder < r[j].sortOrder)
  {
    var r := Reordered(s, m, |s| + 1);
    assert forall i :: 0 <= i < |r| ==> Map(Unnumbered, r)[i] == Unnumbered(s[i]);
  }

  /**
   * What `addMacro(group, macro)` leaves when the macro moves into a group of
   * `s`: the macro is listed, carries the order one past the group's new size
   * and sorts after every other macro of the group.
   */
  lemma AddedSortsLast(s: seq<Macro>, m: Macro)
    ensures var r := Reordered(Arranged(s + [m]), m, |s| + 2);
      |r| == |s| + 1 &&
      (exists j :: 0 <= j < |r| && SameMacro(r[j], m) && r[j].sortOrder == |s| + 2) &&
      (forall i, j :: 0 <= i < |r| && 0 <= j < |r| && !SameMacro(r[i], m) && SameMacro(r[j], m) ==>
         r[i].sortOrder < r[j].sortOrder)
  {
    var a := Arranged(s + [m]);
    AddedIsListed(s, m);
    ReorderedPlacesLast(a, m);
    var k :| 0 <= k < |a| && Map(Unnumbered, a)[k] == Unnumbered(m);
    assert SameMacro(a[k], m);
  }

  /** `sortByName` leaves the macros in name order, numbered by position. */
  lemma ArrangedByNameSpec(s: seq<Macro>)
    ensures Numbered(ArrangedByName(s))
    ensures Sorted(ArrangedByName(s), NameLe)
    ensures multiset(Map(Unnumbered, ArrangedByName(s))) == multiset(Map(Unnumbered, s))
  {
    var t := Sort(s, NameLe);
    NameLeTotal();
    SortSorted(s, NameLe);
    RenumberedKeepsMacros(t);
    MapPermutation(Unnumbered, t, s);
    var r := Renumbered(t);
    forall i | 0 < i < |r|
      ensures NameLe(r[i - 1], r[i])
    {
      assert r[i - 1].name == t[i - 1].name && r[i].name == t[i].name;
    }
  }

  /**
   * A sorted permutation of a list numbered 0..n-1 is that list: no two of
   * its macros share a sort order, so there is only one way to sort them.
   */
  lemma {:induction false} SortedPermutationOfNumbered(t: seq<Macro>, a: seq<Macro>)
    requires Numbered(a)
    requires Sorted(t, OrderLe)
    requires multiset(t) == multiset(a)
    ensures t == a
    decreases |a|
  {
    assert |t| == |multiset(t)| == |multiset(a)| == |a|;
    if |a| > 0 {
      var n := |a| - 1;
      LastOfSortedPermutation(t, a);
      DropLastOfBoth(t, a);
      SortedPermutationOfNumbered(t[..n], a[..n]);
      assert t == t[..n] + [t[n]];
      assert a == a[..n] + [a[n]];
    }
  }

  /** Dropping the common last macro keeps both sides of a sorted permutation of a numbered list. */
  lemma DropLastOfBoth(t: seq<Macro>, a: seq<Macro>)
    requires Numbered(a) && Sorted(t, OrderLe) && multiset(t) == multiset(a)
    requires |t| == |a| > 0 && t[|t| - 1] == a[|a| - 1]
    ensures Numbered(a[..|a| - 1]) && Sorted(t[..|t| - 1], OrderLe)
    ensures multiset(t[..|t| - 1]) == multiset(a[..|a| - 1])
  {
    var n := |a| - 1;
    MultisetDropLast(t, a);
    forall i | 0 <= i < n ensures a[..n][i].sortOrder == i {
      assert a[..n][i] == a[i];
    }
    forall i | 0 < i < n ensures OrderLe(t[..n][i - 1], t[..n][i]) {
      assert t[..n][i - 1] == t[i - 1] && t[..n][i] == t[i];
    }
  }

  /** The last macro of a sorted permutation of a numbered list is the list's last macro. */
  lemma LastOfSortedPermutation(t: seq<Macro>, a: seq<Macro>)
    requires Numbered(a)
    requires Sorted(t, OrderLe)
    requires multiset(t) == multiset(a)
    requires |t| == |a| > 0
    ensures t[|t| - 1] == a[|a| - 1]
  {
    var n := |a| - 1;
    SortedByOrder(t);
    assert a[n] in multiset(t);
    var k :| 0 <= k < |t| && t[k] == a[n];
    assert n <= t[n].sortOrder by {
      assert t[k].sortOrder == n;
      assert k == n || t[k].sortOrder <= t[n].sortOrder;
    }
    assert t[n] in multiset(a);
    var j :| 0 <= j < |a| && a[j] == t[n];
    assert j == n;
  }

  /** Splitting a renumbered list and arranging the parts again gives the list back. */
  lemma FilterThenArrange(a: seq<Macro>, filter: string)
    requires Numbered(a)
    ensures Arranged(Filter(Matches(filter), a) + Filter(Misses(filter), a)) == a
  {
    var b := Filter(Matches(filter), a) + Filter(Misses(filter), a);
    FilterPartition(Matches(filter), Misses(filter), a);
    OrderLeTotal();
    SortSorted(b, OrderLe);
    SortedPermutationOfNumbered(Sort(b, OrderLe), a);
    assert Renumbered(a) == a;
  }

  /** `getVisibleMacroSize` counts every menu macro, so it never undercounts `getVisibleMacros`. */
  lemma VisibleSizeCoversVisibleList(s: seq<Macro>)
    ensures |Filter(InMenuNotDbTree, s)| <= |Filter(InMenu, s)|
    ensures (exists m :: m in s && m.visibleInMenu && m.dbTree) ==>
              |Filter(InMenuNotDbTree, s)| < |Filter(InMenu, s)|
  {
    FilterStronger(InMenuNotDbTree, InMenu, s);
    if exists m :: m in s && m.visibleInMenu && m.dbTree {
      var m :| m in s && m.visibleInMenu && m.dbTree;
      DbTreeCounted(s, m);
    }
  }

  lemma {:induction false} DbTreeCounted(s: seq<Macro>, m: Macro)
    requires m in s && m.visibleInMenu && m.dbTree
    ensures |Filter(InMenuNotDbTree, s)| < |Filter(InMenu, s)|
    decreases |s|
  {
    var s' := s[..|s| - 1];
    var x := s[|s| - 1];
    assert s == s' + [x];
    FilterSnoc(InMenuNotDbTree, s', x);
    FilterSnoc(InMenu, s', x);
    if x == m {
      FilterStronger(InMenuNotDbTree, InMenu, s');
    } else {
      assert m in s';
      DbTreeCounted(s', m);
    }
  }

  // ---------------------------------------------------------------------
  // Loops over macro lists

  /** The renumbering loop of `applySort`/`sortByName`. */
  method Renumber(s: seq<Macro>) returns (r: seq<Macro>)
    ensures r == Renumbered(s)
  {
    r := s;
    for i := 0 to |r|
      invariant |r| == |s|
      invariant forall k :: 0 <= k < i ==> r[k] == s[k].(sortOrder := k)
      invariant forall k :: i <= k < |s| ==> r[k] == s[k]
    {
      r := r[i := r[i].(sortOrder := i)];
    }
  }

  /** `applySort(List)` on a list of its own. */
  method Arrange(s: seq<Macro>) returns (r: seq<Macro>)
    ensures r == Arranged(s)
  {
    var sorted := Sort(s, OrderLe);
    r := Renumber(sorted);
  }

  /** Collect the macros that satisfy a visibility test, in list order. */
  method Select(s: seq<Macro>, p: Macro -> bool) returns (r: seq<Macro>)
    ensures r == Filter(p, s)
    ensures forall m :: m in r <==> m in s && p(m)
  {
    r := [];
    for i := 0 to |s|
      invariant r == Filter(p, s[..i])
    {
      FilterPrefixStep(p, s, i);
      if p(s[i]) {
        r := r + [s[i]];
      }
    }
    assert s[..|s|] == s;
    FilterMembers(p, s);
  }

  /** The loop of `applyFilter`: the macros a lower-case filter keeps and those it hides. */
  method Split(all: seq<Macro>, f: string) returns (kept: seq<Macro>, moved: seq<Macro>)
    ensures kept == Filter(Matches(f), all) && moved == Filter(Misses(f), all)
  {
    kept, moved := [], [];
    for i := 0 to |all|
      invariant kept == Filter(Matches(f), all[..i])
      invariant moved == Filter(Misses(f), all[..i])
    {
      var macro := all[i];
      FilterPrefixStep(Matches(f), all, i);
      FilterPrefixStep(Misses(f), all, i);
      if !Contains(Lower(macro.name), f) {
        moved := moved + [macro];
      } else {
        kept := kept + [macro];
      }
    }
    assert all[..|all|] == all;
  }

  /** Filtering a numbered list loses nothing: the two parts arrange back into the list. */
  lemma SplitKeepsAll(all: seq<Macro>, f: string)
    requires Numbered(all)
    ensures multiset(Filter(Matches(f), all)) + multiset(Filter(Misses(f), all)) == multiset(all)
    ensures |Filter(Matches(f), all)| + |Filter(Misses(f), all)| == |all|
    ensures Arranged(Filter(Matches(f), all) + Filter(Misses(f), all)) == all
    ensures forall m :: m in Filter(Matches(f), all) <==> m in all && Contains(Lower(m.name), f)
  {
    FilterPartition(Matches(f), Misses(f), all);
    assert |multiset(Filter(Matches(f), all))| + |multiset(Filter(Misses(f), all))| == |multiset(all)|;
    FilterThenArrange(all, f);
    FilterMembers(Matches(f), all);
  }

  /** The visible and the hidden list that `applyFilter` leaves, given all macros of the group. */
  function FilterOutcome(both: seq<Macro>, filter: Option<string>): (seq<Macro>, seq<Macro>)
  {
    var all := Arranged(both);
    if BlankFilter(filter) then (all, [])
    else (Filter(Matches(Lower(filter.value)), all), Filter(Misses(Lower(filter.value)), all))
  }

  /**
   * Filtering hides macros but loses none: the two lists together are all
   * macros, so `getTotalSize` and `getAllMacros` are what they were; a blank
   * filter shows everything, any other shows exactly the matching macros.
   */
  lemma FilterOutcomeSpec(both: seq<Macro>, filter: Option<string>)
    ensures multiset(FilterOutcome(both, filter).0) + multiset(FilterOutcome(both, filter).1)
            == multiset(Arranged(both))
    ensures |FilterOutcome(both, filter).0| + |FilterOutcome(both, filter).1| == |both|
    ensures Arranged(FilterOutcome(both, filter).0 + FilterOutcome(both, filter).1) == Arranged(both)
    ensures BlankFilter(filter) ==> FilterOutcome(both, filter) == (Arranged(both), [])
    ensures !BlankFilter(filter) ==>
              forall m :: m in FilterOutcome(both, filter).0 <==>
                m in Arranged(both) && Contains(Lower(m.name), Lower(filter.value))
  {
    var all := Arranged(both);
    ArrangedSpec(both);
    if BlankFilter(filter) {
      ArrangedIdempotent(both);
      assert all + [] == all;
    } else {
      SplitKeepsAll(all, Lower(filter.value));
    }
  }

  class MacroGroup {
    var name: string
    var macros: seq<Macro>
    var filtered: seq<Macro>
    var deleted: seq<Macro>
    var sortOrder: int
    var tooltip: Option<string>
    var modified: bool
    var showInMenu: bool
    var showInPopup: bool

    constructor (groupName: string)
      ensures name == groupName && macros == [] && filtered == [] && deleted == []
      ensures sortOrder == 0 && tooltip == None && !modified && showInMenu && showInPopup
    {
      name := groupName;
      macros := [];
      filtered := [];
      deleted := [];
      sortOrder := 0;
      tooltip := None;
      modified := false;
      showInMenu := true;
      showInPopup := true;
    }

    /** `isModified`: the group's own flag or any visible macro's flag. */
    predicate Changed()
      reads this
    {
      modified || exists m :: m in macros && m.modified
    }

    /** `equals`: the names agree ignoring case. */
    predicate SameGroup(other: MacroGroup)
      reads this, other
    {
      EqualsIgnoreCase(name, other.name)
    }

    /** What `hashCode` is computed from. */
    function HashKey(): string
      reads this
    {
      Lower(name)
    }

    // ----- setters: each sets `modified` only when the value changes

    method SetTooltip(tip: Option<string>)
      modifies this
      ensures modified == (old(modified) || old(tooltip) != tip)
      ensures tooltip == TrimToNull(tip)
      ensures name == old(name) && sortOrder == old(sortOrder)
      ensures showInMenu == old(showInMenu) && showInPopup == old(showInPopup)
      ensures macros == old(macros) && filtered == old(filtered) && deleted == old(deleted)
    {
      modified := modified || tooltip != tip;
      tooltip := TrimToNull(tip);
    }

    method SetVisibleInMenu(flag: bool)
      modifies this
      ensures modified == (old(modified) || flag != old(showInMenu))
      ensures showInMenu == flag
      ensures name == old(name) && sortOrder == old(sortOrder) && tooltip == old(tooltip)
      ensures showInPopup == old(showInPopup)
      ensures macros == old(macros) && filtered == old(filtered) && deleted == old(deleted)
    {
      modified := modified || flag != showInMenu;
      showInMenu := flag;
    }

    method SetVisibleInPopup(flag: bool)
      modifies this
      ensures modified == (old(modified) || flag != old(showInPopup))
      ensures showInPopup == flag
      ensures name == old(name) && sortOrder == old(sortOrder) && tooltip == old(tooltip)
      ensures showInMenu == old(showInMenu)
      ensures macros == old(macros) && filtered == old(filtered) && deleted == old(deleted)
    {
      modified := modified || flag != showInPopup;
      showInPopup := flag;
    }

    method SetSortOrder(order: int)
      modifies this
      ensures modified == (old(modified) || order != old(sortOrder))
      ensures sortOrder == order
      ensures name == old(name) && tooltip == old(tooltip)
      ensures showInMenu == old(showInMenu) && showInPopup == old(showInPopup)
      ensures macros == old(macros) && filtered == old(filtered) && deleted == old(deleted)
    {
      modified := modified || sortOrder != order;
      sortOrder := order;
    }

    method SetName(macroName: string)
      modifies this
      ensures modified == (old(modified) || macroName != old(name))
      ensures name == macroName
      ensures sortOrder == old(sortOrder) && tooltip == old(tooltip)
      ensures showInMenu == old(showInMenu) && showInPopup == old(showInPopup)
      ensures macros == old(macros) && filtered == old(filtered) && deleted == old(deleted)
    {
      modified := modified || name != macroName;
      name := macroName;
    }

    // ----- the macro lists

    method ApplySort()
      modifies this
      ensures macros == Arranged(old(macros))
      ensures filtered == old(filtered) && deleted == old(deleted) && modified == old(modified)
      ensures name == old(name) && sortOrder == old(sortOrder) && tooltip == old(tooltip)
      ensures showInMenu == old(showInMenu) && showInPopup == old(showInPopup)
    {
      macros := Arrange(macros);
    }

    method AddMacro(macro: Macro)
      modifies this
      ensures macros == Arranged(old(macros) + [macro])
      ensures modified
      ensures filtered == old(filtered) && deleted == old(deleted)
      ensures name == old(name) && sortOrder == old(sortOrder) && tooltip == old(tooltip)
      ensures showInMenu == old(showInMenu) && showInPopup == old(showInPopup)
    {
      macros := macros + [macro];
      ApplySort();
      modified := true;
    }

    /** `setSortOrder` on a definition the group holds: its entries take the order. */
    method ReorderMacro(m: Macro, order: int)
      modifies this
      ensures macros == Reordered(old(macros), m, order)
      ensures filtered == old(filtered) && deleted == old(deleted) && modified == old(modified)
      ensures name == old(name) && sortOrder == old(sortOrder) && tooltip == old(tooltip)
      ensures showInMenu == old(showInMenu) && showInPopup == old(showInPopup)
    {
      macros := Reordered(macros, m, order);
    }

    method SortByName()
      modifies this
      ensures macros == ArrangedByName(old(macros))
      ensures Numbered(macros) && Sorted(macros, NameLe)
      ensures filtered == old(filtered) && deleted == old(deleted) && modified == old(modified)
      ensures name == old(name) && sortOrder == old(sortOrder) && tooltip == old(tooltip)
      ensures showInMenu == old(showInMenu) && showInPopup == old(showInPopup)
    {
      var sorted := Sort(macros, NameLe);
      macros := Renumber(sorted);
      ArrangedByNameSpec(old(macros));
    }

    method VisibleMacros() returns (r: seq<Macro>)
      ensures r == Filter(InMenuNotDbTree, macros)
      ensures forall m :: m in r <==> m in macros && m.visibleInMenu && !m.dbTree
    {
      r := Select(macros, InMenuNotDbTree);
    }

    method MacrosForPopup() returns (r: seq<Macro>)
      ensures r == Filter(InPopupNotDbTree, macros)
      ensures forall m :: m in r <==> m in macros && m.visibleInPopup && !m.dbTree
    {
      r := Select(macros, InPopupNotDbTree);
    }

    method SetMacros(newMacros: seq<Macro>)
      modifies this
      ensures macros == Arranged(newMacros) && Numbered(macros)
      ensures filtered == [] && !modified
      ensures deleted == old(deleted)
      ensures name == old(name) && sortOrder == old(sortOrder) && tooltip == old(tooltip)
      ensures showInMenu == old(showInMenu) && showInPopup == old(showInPopup)
    {
      filtered := [];
      macros := newMacros;
      ApplySort();
      modified := false;
    }

    /** `getAllMacros`: visible and hidden macros together, in a sorted copy. */
    method AllMacros() returns (r: seq<Macro>)
      ensures r == Arranged(macros + filtered)
      ensures |r| == |macros| + |filtered| && Numbered(r)
    {
      r := Arrange(macros + filtered);
      ArrangedSpec(macros + filtered);
    }

    method RemoveMacro(macro: Macro)
      modifies this
      ensures macro in old(macros) ==>
                macros == RemoveFirst(old(macros), macro) && |macros| == |old(macros)| - 1 &&
                deleted == old(deleted) + [macro] && modified
      ensures macro !in old(macros) ==>
                macros == old(macros) && deleted == old(deleted) && modified == old(modified)
      ensures filtered == old(filtered)
      ensures name == old(name) && sortOrder == old(sortOrder) && tooltip == old(tooltip)
      ensures showInMenu == old(showInMenu) && showInPopup == old(showInPopup)
    {
      var before := |macros|;
      macros := RemoveFirst(macros, macro);
      if |macros| < before {
        deleted := deleted + [macro];
        modified := true;
      }
    }

    method IsModified() returns (r: bool)
      ensures r <==> Changed()
    {
      if modified {
        return true;
      }
      for i := 0 to |macros|
        invariant forall k :: 0 <= k < i ==> !macros[k].modified
      {
        if macros[i].modified {
          return true;
        }
      }
      return false;
    }

    method ResetModified()
      modifies this
      ensures macros == Map(Cleared, old(macros)) && deleted == [] && !modified
      ensures !Changed()
      ensures filtered == old(filtered)
      ensures name == old(name) && sortOrder == old(sortOrder) && tooltip == old(tooltip)
      ensures showInMenu == old(showInMenu) && showInPopup == old(showInPopup)
    {
      modified := false;
      for i := 0 to |macros|
        invariant |macros| == |old(macros)|
        invariant forall k :: 0 <= k < i ==> macros[k] == Cleared(old(macros)[k])
        invariant forall k :: i <= k < |macros| ==> macros[k] == old(macros)[k]
        invariant filtered == old(filtered) && !modified
        invariant name == old(name) && sortOrder == old(sortOrder) && tooltip == old(tooltip)
        invariant showInMenu == old(showInMenu) && showInPopup == old(showInPopup)
      {
        macros := macros[i := Cleared(macros[i])];
      }
      deleted := [];
    }

    /** `getVisibleMacroSize`: counts the menu macros, DbTree macros included. */
    method VisibleMacroSize() returns (size: nat)
      ensures size == |Filter(InMenu, macros)|
      ensures size >= |Filter(InMenuNotDbTree, macros)|
    {
      size := 0;
      for i := 0 to |macros|
        invariant size == |Filter(InMenu, macros[..i])|
      {
        FilterPrefixStep(InMenu, macros, i);
        if macros[i].visibleInMenu {
          size := size + 1;
        }
      }
      assert macros[..|macros|] == macros;
      VisibleSizeCoversVisibleList(macros);
    }

    function TotalSize(): nat
      reads this
    {
      |macros| + |filtered|
    }

    function Size(): nat
      reads this
    {
      |macros|
    }

    predicate IsFiltered()
      reads this
    {
      |filtered| > 0
    }

    method ResetFilter()
      modifies this
      ensures macros == Arranged(old(macros) + old(filtered)) && filtered == []
      ensures deleted == old(deleted) && modified == old(modified)
      ensures name == old(name) && sortOrder == old(sortOrder) && tooltip == old(tooltip)
      ensures showInMenu == old(showInMenu) && showInPopup == old(showInPopup)
    {
      macros := macros + filtered;
      filtered := [];
      ApplySort();
    }

    /**
     * `applyFilter`: restore every macro, then (for a non-blank filter) move
     * those whose lower-case name does not contain the lower-case filter to
     * the hidden list, keeping the order of both lists.
     */
    method ApplyFilter(filter: Option<string>)
      modifies this
      ensures (macros, filtered) == FilterOutcome(old(macros) + old(filtered), filter)
      ensures deleted == old(deleted) && modified == old(modified)
      ensures name == old(name) && sortOrder == old(sortOrder) && tooltip == old(tooltip)
      ensures showInMenu == old(showInMenu) && showInPopup == old(showInPopup)
    {
      ResetFilter();
      if !BlankFilter(filter) {
        HideMisses(Lower(filter.value));
      }
    }

    /** The loop of `applyFilter`: macros whose lower-case name lacks `f` move to the hidden list. */
    method HideMisses(f: string)
      requires filtered == []
      modifies this
      ensures macros == Filter(Matches(f), old(macros)) && filtered == Filter(Misses(f), old(macros))
      ensures deleted == old(deleted) && modified == old(modified)
      ensures name == old(name) && sortOrder == old(sortOrder) && tooltip == old(tooltip)
      ensures showInMenu == old(showInMenu) && showInPopup == old(showInPopup)
    {
      var kept, moved := Split(macros, f);
      macros := kept;
      filtered := filtered + moved;
    }
  }
}
