/**
 * The tab properties of a workspace (`tabs.properties`): keys of the form
 * `tab<index><suffix>`, typed getters over them, and the tab count of a
 * workspace written by an older version that stored no total.
 */
module WorkspaceTabs {
  import opened Text

  /** The properties of the tab-info file. */
  type Props = map<string, string>

  /** The kind of panel a tab holds, as far as the workspace names them. */
  datatype PanelType = SqlPanel | DbExplorer

  function PanelTypeName(t: PanelType): string
  {
    match t
    case SqlPanel => "sqlPanel"
    case DbExplorer => "dbExplorer"
  }

  /** `PanelType.valueOf`, with any unknown name falling back to an SQL panel. */
  function ParsePanelType(name: string): (r: PanelType)
    ensures name == PanelTypeName(r) || (r == SqlPanel && name != "dbExplorer")
  {
    if name == "dbExplorer" then DbExplorer else SqlPanel
  }

  /** The key of one property of tab `index`. */
  function TabKey(index: int, suffix: string): string
  {
    "tab" + IntToString(index) + suffix
  }

  const TOTAL_COUNT_KEY := "tab.total.count"
  const EXPLORER_COUNT_KEY := "dbexplorer.visible"
  const SELECTED_KEY := "tab.selected"

  /**
   * A number stored in the properties: `Integer.parseInt` of the stored
   * text, the default when the key is absent or the text is no `int`.
   */
  function IntOr(info: Props, key: string, default: int): (r: int)
    ensures key !in info ==> r == default
    ensures key in info && ParseInt(info[key]).Some? ==> r == ParseInt(info[key]).value
    ensures key in info && ParseInt(info[key]).None? ==> r == default
  {
    if key in info then
      match ParseInt(info[key])
      case Some(v) => v
      case None => default
    else default
  }

  /** A number stored with `Integer.toString` is read back by `IntOr`. */
  lemma StoredIntReadBack(info: Props, key: string, n: int, default: int)
    requires INT_MIN <= n <= INT_MAX
    ensures IntOr(info[key := IntToString(n)], key, default) == n
  {
    ParseLongOfString(n);
  }

  /** `getMaxRows`: 0 when absent or unparsable. */
  function MaxRows(info: Props, index: int): (r: int)
    ensures TabKey(index, ".maxrows") !in info || ParseInt(info[TabKey(index, ".maxrows")]).None? ==> r == 0
    ensures TabKey(index, ".maxrows") in info && ParseInt(info[TabKey(index, ".maxrows")]).Some? ==> r == ParseInt(info[TabKey(index, ".maxrows")]).value
  {
    IntOr(info, TabKey(index, ".maxrows"), 0)
  }

  /** `getQueryTimeout`: 0 when absent or unparsable. */
  function QueryTimeout(info: Props, index: int): (r: int)
    ensures TabKey(index, ".timeout") !in info || ParseInt(info[TabKey(index, ".timeout")]).None? ==> r == 0
    ensures TabKey(index, ".timeout") in info && ParseInt(info[TabKey(index, ".timeout")]).Some? ==> r == ParseInt(info[TabKey(index, ".timeout")]).value
  {
    IntOr(info, TabKey(index, ".timeout"), 0)
  }

  /** `getExternalFileCursorPos`: -1 when absent or unparsable. */
  function CursorPos(info: Props, index: int): (r: int)
    ensures TabKey(index, ".file.cursorpos") !in info || ParseInt(info[TabKey(index, ".file.cursorpos")]).None? ==> r == -1
    ensures TabKey(index, ".file.cursorpos") in info && ParseInt(info[TabKey(index, ".file.cursorpos")]).Some? ==> r == ParseInt(info[TabKey(index, ".file.cursorpos")]).value
  {
    IntOr(info, TabKey(index, ".file.cursorpos"), -1)
  }

  /** `getSelectedTab`: 0 when absent. */
  function SelectedTab(info: Props): (r: int)
    ensures SELECTED_KEY !in info ==> r == 0
  {
    IntOr(info, SELECTED_KEY, 0)
  }

  /** `getPanelType`: an SQL panel unless the tab's type names another kind. */
  function PanelTypeOf(info: Props, index: int): (r: PanelType)
    ensures TabKey(index, ".type") !in info ==> r == SqlPanel
    ensures r == DbExplorer <==> TabKey(index, ".type") in info && info[TabKey(index, ".type")] == "dbExplorer"
  {
    var key := TabKey(index, ".type");
    if key in info then ParsePanelType(info[key]) else ParsePanelType("sqlPanel")
  }

  /** `isSelectedTabExplorer`. */
  predicate IsSelectedTabExplorer(info: Props)
  {
    PanelTypeOf(info, SelectedTab(info)) == DbExplorer
  }

  /** `getExternalFileEncoding`: the configured default when the stored value is absent or empty. */
  function FileEncoding(info: Props, index: int, defaultEncoding: string): (r: string)
    ensures r == defaultEncoding || (TabKey(index, ".encoding") in info && r == info[TabKey(index, ".encoding")] && r != "")
  {
    var key := TabKey(index, ".encoding");
    if key !in info || info[key] == "" then defaultEncoding else info[key]
  }

  /** What the setters for max rows, timeout, cursor position and the selected tab store is read back. */
  lemma TabIntRoundTrip(info: Props, index: int, n: int)
    requires INT_MIN <= n <= INT_MAX
    ensures MaxRows(info[TabKey(index, ".maxrows") := IntToString(n)], index) == n
    ensures QueryTimeout(info[TabKey(index, ".timeout") := IntToString(n)], index) == n
    ensures CursorPos(info[TabKey(index, ".file.cursorpos") := IntToString(n)], index) == n
    ensures SelectedTab(info[SELECTED_KEY := IntToString(n)]) == n
  {
    StoredIntReadBack(info, TabKey(index, ".maxrows"), n, 0);
    StoredIntReadBack(info, TabKey(index, ".timeout"), n, 0);
    StoredIntReadBack(info, TabKey(index, ".file.cursorpos"), n, -1);
    StoredIntReadBack(info, SELECTED_KEY, n, 0);
  }

  /** A non-empty encoding that was stored is read back; any other falls back to the default. */
  lemma EncodingRoundTrip(info: Props, index: int, encoding: string, defaultEncoding: string)
    ensures FileEncoding(info[TabKey(index, ".encoding") := encoding], index, defaultEncoding)
      == if encoding == "" then defaultEncoding else encoding
  {
  }

  // ---------------------------------------------------------------------
  // Tab indices inside keys

  /** The length of the run of digits that starts `s`. */
  function DigitRun(s: string): (r: nat)
    ensures r <= |s|
    ensures forall i :: 0 <= i < r ==> IsDigit(s[i])
    ensures r < |s| ==> !IsDigit(s[r])
  {
    if |s| > 0 && IsDigit(s[0]) then 1 + DigitRun(s[1..]) else 0
  }

  lemma {:induction false} DigitRunOf(d: string, t: string)
    requires AllDigits(d) && |t| > 0 && !IsDigit(t[0])
    ensures DigitRun(d + t) == |d|
    decreases |d|
  {
    if |d| > 0 {
      assert (d + t)[1..] == d[1..] + t;
      DigitRunOf(d[1..], t);
    } else {
      assert d + t == t;
    }
  }

  /** The tab index a key `tab<digits>.…` names, if it has that form. */
  function KeyIndex(k: string): Option<nat>
  {
    if |k| >= 3 && k[..3] == "tab" then
      var rest := k[3..];
      var n := DigitRun(rest);
      if 0 < n < |rest| && rest[n] == '.' then Some(ParseDigits(rest[..n])) else None
    else None
  }

  /** A key built for tab `n` names tab `n`: keys of different tabs never collide. */
  lemma KeyIndexOf(n: nat, suffix: string)
    requires |suffix| > 0 && suffix[0] == '.'
    ensures KeyIndex(TabKey(n, suffix)) == Some(n)
  {
    var d := NatToString(n);
    var k := TabKey(n, suffix);
    assert k == "tab" + (d + suffix);
    assert k[..3] == "tab";
    assert k[3..] == d + suffix;
    DigitRunOf(d, suffix);
    assert (d + suffix)[..|d|] == d;
    NatToStringParses(n);
  }

  /** Keys of different tabs never collide. */
  lemma TabKeyInjective(i: nat, j: nat, s1: string, s2: string)
    requires |s1| > 0 && s1[0] == '.' && |s2| > 0 && s2[0] == '.'
    ensures TabKey(i, s1) == TabKey(j, s2) ==> i == j
  {
    KeyIndexOf(i, s1);
    KeyIndexOf(j, s2);
  }

  /** `k` is none of the type keys of tabs `lo` to `hi - 1`. */
  predicate AvoidsTypeKeys(k: string, lo: nat, hi: nat)
  {
    forall m: nat :: lo <= m < hi ==> k != TabKey(m, ".type")
  }

  lemma TabKeyAvoids(n: nat, suffix: string, lo: nat, hi: nat)
    requires |suffix| > 0 && suffix[0] == '.'
    requires n < lo || hi <= n
    ensures AvoidsTypeKeys(TabKey(n, suffix), lo, hi)
  {
    forall m: nat | lo <= m < hi
      ensures TabKey(n, suffix) != TabKey(m, ".type")
    {
      TabKeyInjective(n, m, suffix, ".type");
    }
  }

  lemma ExplorerKeyAvoids(lo: nat, hi: nat)
    ensures AvoidsTypeKeys(EXPLORER_COUNT_KEY, lo, hi)
  {
    forall m: nat | lo <= m < hi
      ensures EXPLORER_COUNT_KEY != TabKey(m, ".type")
    {
      assert TabKey(m, ".type")[0] == 't';
    }
  }

  /** The keys that name tab `i` or a later one. */
  function KeysFrom(info: Props, i: nat): set<string>
  {
    set k | k in info.Keys && KeyIndex(k).Some? && KeyIndex(k).value >= i
  }

  // ---------------------------------------------------------------------
  // The tab count of old workspaces

  /** Tab `i` has one of the keys an older version wrote for an SQL panel. */
  predicate HasLegacyKeys(info: Props, i: nat)
  {
    TabKey(i, ".maxrows") in info || TabKey(i, ".title") in info || TabKey(i, ".append.results") in info
  }

  /** Tab `i` is present: it has legacy keys or a type. */
  predicate HasTab(info: Props, i: nat)
  {
    HasLegacyKeys(info, i) || TabKey(i, ".type") in info
  }

  lemma SubsetSmaller(a: set<string>, b: set<string>)
    requires a < b
    ensures |a| < |b|
  {
    var c := b - a;
    assert b == a + c;
    assert a * c == {};
  }

  lemma KeysFromShrink(info: Props, i: nat)
    requires HasTab(info, i)
    ensures |KeysFrom(info, i + 1)| < |KeysFrom(info, i)|
  {
    var k := if TabKey(i, ".maxrows") in info then TabKey(i, ".maxrows")
      else if TabKey(i, ".title") in info then TabKey(i, ".title")
      else if TabKey(i, ".append.results") in info then TabKey(i, ".append.results")
      else TabKey(i, ".type");
    KeyIndexOf(i, ".maxrows");
    KeyIndexOf(i, ".title");
    KeyIndexOf(i, ".append.results");
    KeyIndexOf(i, ".type");
    assert k in KeysFrom(info, i) && k !in KeysFrom(info, i + 1);
    SubsetSmaller(KeysFrom(info, i + 1), KeysFrom(info, i));
  }

  /** The first index from `i` on without a tab: the number of consecutive tabs counted. */
  function ConsecutiveTabs(info: Props, i: nat): (r: nat)
    ensures r >= i && !HasTab(info, r)
    decreases |KeysFrom(info, i)|
  {
    if HasTab(info, i) then
      KeysFromShrink(info, i);
      ConsecutiveTabs(info, i + 1)
    else i
  }

  lemma {:induction false} ConsecutiveTabsPresent(info: Props, i: nat, j: nat)
    requires i <= j < ConsecutiveTabs(info, i)
    ensures HasTab(info, j)
    decreases |KeysFrom(info, i)|
  {
    if HasTab(info, i) {
      KeysFromShrink(info, i);
      if j > i {
        ConsecutiveTabsPresent(info, i + 1, j);
      }
    }
  }

  /** The properties after the first `n` tabs with legacy keys were given the type `sqlPanel`. */
  function TypedLegacy(info: Props, n: nat): Props
  {
    if n == 0 then info
    else
      var t := TypedLegacy(info, n - 1);
      if HasLegacyKeys(info, n - 1) then t[TabKey(n - 1, ".type") := PanelTypeName(SqlPanel)] else t
  }

  /** Typing the tabs below `n` leaves every key of other tabs, or of no tab, alone. */
  lemma {:induction false} TypedLegacyAbove(info: Props, n: nat, k: string)
    requires AvoidsTypeKeys(k, 0, n)
    ensures k in TypedLegacy(info, n) <==> k in info
    ensures k in info ==> TypedLegacy(info, n)[k] == info[k]
  {
    if n > 0 {
      assert k != TabKey(n - 1, ".type");
      TypedLegacyAbove(info, n - 1, k);
    }
  }

  lemma TypedLegacySameTab(info: Props, n: nat)
    ensures HasTab(TypedLegacy(info, n), n) == HasTab(info, n)
    ensures HasLegacyKeys(TypedLegacy(info, n), n) == HasLegacyKeys(info, n)
  {
    TabKeyAvoids(n, ".maxrows", 0, n);
    TabKeyAvoids(n, ".title", 0, n);
    TabKeyAvoids(n, ".append.results", 0, n);
    TabKeyAvoids(n, ".type", 0, n);
    TypedLegacyAbove(info, n, TabKey(n, ".maxrows"));
    TypedLegacyAbove(info, n, TabKey(n, ".title"));
    TypedLegacyAbove(info, n, TabKey(n, ".append.results"));
    TypedLegacyAbove(info, n, TabKey(n, ".type"));
  }

  /** Keys are only ever added by typing. */
  lemma {:induction false} TypedLegacyKeeps(info: Props, n: nat, k: string)
    requires k in info
    ensures k in TypedLegacy(info, n)
  {
    if n > 0 {
      TypedLegacyKeeps(info, n - 1, k);
    }
  }

  /** The properties after `count` tabs from `from` on were given the type `dbExplorer`. */
  function TypedExplorers(info: Props, from: nat, count: nat): Props
  {
    if count == 0 then info
    else TypedExplorers(info, from, count - 1)[TabKey(from + count - 1, ".type") := PanelTypeName(DbExplorer)]
  }

  lemma {:induction false} TypedExplorersKeeps(info: Props, from: nat, count: nat, k: string)
    requires k in info
    requires AvoidsTypeKeys(k, from, from + count)
    ensures k in TypedExplorers(info, from, count) && TypedExplorers(info, from, count)[k] == info[k]
  {
    if count > 0 {
      assert k != TabKey(from + count - 1, ".type");
      TypedExplorersKeeps(info, from, count - 1, k);
    }
  }

  lemma {:induction false} TypedExplorersType(info: Props, from: nat, count: nat, j: nat)
    requires from <= j < from + count
    ensures TabKey(j, ".type") in TypedExplorers(info, from, count)
    ensures TypedExplorers(info, from, count)[TabKey(j, ".type")] == "dbExplorer"
  {
    if j < from + count - 1 {
      TabKeyInjective(j, from + count - 1, ".type", ".type");
      TypedExplorersType(info, from, count - 1, j);
    }
  }

  function Max0(n: int): nat { if n > 0 then n else 0 }

  /**
   * `calculateTabCount` as a function of the tab properties: the stored
   * total when it is positive; otherwise the consecutive tabs from 0 that
   * have legacy keys or a type, followed by as many explorer tabs as
   * `dbexplorer.visible` says.
   */
  function TabCount(info: Props): (r: int)
    ensures r >= 0
    ensures IntOr(info, TOTAL_COUNT_KEY, -1) > 0 ==> r == IntOr(info, TOTAL_COUNT_KEY, -1)
  {
    var total := IntOr(info, TOTAL_COUNT_KEY, -1);
    if total > 0 then total
    else ConsecutiveTabs(info, 0) + Max0(IntOr(info, EXPLORER_COUNT_KEY, 0))
  }

  /** The tab properties after `calculateTabCount` filled in the missing types. */
  function TypedInfo(info: Props): Props
  {
    if IntOr(info, TOTAL_COUNT_KEY, -1) > 0 then info
    else
      var legacy := ConsecutiveTabs(info, 0);
      TypedExplorers(TypedLegacy(info, legacy), legacy, Max0(IntOr(info, EXPLORER_COUNT_KEY, 0)))
  }

  /**
   * After counting without a stored total, every counted tab has a type:
   * the explorer tabs are typed `dbExplorer`, a tab with legacy keys is
   * an SQL panel (whatever type it had), and any other counted tab keeps
   * its type.
   */
  lemma CountedTabsTyped(info: Props, j: nat)
    requires IntOr(info, TOTAL_COUNT_KEY, -1) <= 0
    requires j < TabCount(info)
    ensures TabKey(j, ".type") in TypedInfo(info)
    ensures var legacy := ConsecutiveTabs(info, 0);
      j >= legacy ==> PanelTypeOf(TypedInfo(info), j) == DbExplorer
    ensures var legacy := ConsecutiveTabs(info, 0);
      j < legacy && HasLegacyKeys(info, j) ==> PanelTypeOf(TypedInfo(info), j) == SqlPanel
    ensures var legacy := ConsecutiveTabs(info, 0);
      j < legacy && !HasLegacyKeys(info, j) ==>
        TabKey(j, ".type") in info && TypedInfo(info)[TabKey(j, ".type")] == info[TabKey(j, ".type")]
  {
    var legacy := ConsecutiveTabs(info, 0);
    var explorers := Max0(IntOr(info, EXPLORER_COUNT_KEY, 0));
    var typed := TypedLegacy(info, legacy);
    var key := TabKey(j, ".type");
    if j >= legacy {
      TypedExplorersType(typed, legacy, explorers, j);
    } else {
      ConsecutiveTabsPresent(info, 0, j);
      LegacyTypeKept(info, legacy, j);
      TabKeyAvoids(j, ".type", legacy, legacy + explorers);
      TypedExplorersKeeps(typed, legacy, explorers, key);
    }
  }

  /** A tab below `n` has a type after typing: `sqlPanel` when it has legacy keys, else its own. */
  lemma {:induction false} LegacyTypeKept(info: Props, n: nat, j: nat)
    requires j < n && HasTab(info, j)
    ensures TabKey(j, ".type") in TypedLegacy(info, n)
    ensures !HasLegacyKeys(info, j) ==> TypedLegacy(info, n)[TabKey(j, ".type")] == info[TabKey(j, ".type")]
    ensures HasLegacyKeys(info, j) ==> TypedLegacy(info, n)[TabKey(j, ".type")] == "sqlPanel"
  {
    var key := TabKey(j, ".type");
    if j < n - 1 {
      LegacyTypeKept(info, n - 1, j);
      TabKeyInjective(j, n - 1, ".type", ".type");
    } else {
      TabKeyAvoids(j, ".type", 0, j);
      TypedLegacyAbove(info, j, key);
    }
  }

  /** A positive stored total is the count, and nothing is added. */
  lemma StoredTotalWins(info: Props, n: int)
    requires 0 < n <= INT_MAX
    ensures TabCount(info[TOTAL_COUNT_KEY := IntToString(n)]) == n
    ensures TypedInfo(info[TOTAL_COUNT_KEY := IntToString(n)]) == info[TOTAL_COUNT_KEY := IntToString(n)]
  {
    StoredIntReadBack(info, TOTAL_COUNT_KEY, n, -1);
  }

  /** Without tab keys, a total or explorer tabs, the count is 0. */
  lemma EmptyInfoNoTabs()
    ensures TabCount(map[]) == 0 && TypedInfo(map[]) == map[]
  {
  }

  // ---------------------------------------------------------------------
  // The loops of calculateTabCount

  /** The first loop: counts consecutive tabs, typing those with legacy keys. */
  method CountLegacyTabs(info: Props) returns (index: nat, typed: Props)
    ensures index == ConsecutiveTabs(info, 0)
    ensures typed == TypedLegacy(info, index)
  {
    typed := info;
    index := 0;
    var found := true;
    while found
      invariant typed == TypedLegacy(info, index)
      invariant found ==> ConsecutiveTabs(info, index) == ConsecutiveTabs(info, 0)
      invariant !found ==> index == ConsecutiveTabs(info, 0)
      decreases |KeysFrom(info, index)|, found
    {
      TypedLegacySameTab(info, index);
      if HasLegacyKeys(typed, index) {
        KeysFromShrink(info, index);
        typed := typed[TabKey(index, ".type") := PanelTypeName(SqlPanel)];
        index := index + 1;
      } else if TabKey(index, ".type") in typed {
        KeysFromShrink(info, index);
        index := index + 1;
      } else {
        found := false;
      }
    }
  }

  /** The second loop: types `count` explorer tabs from `from` on. */
  method TypeExplorerTabs(info: Props, from: nat, count: int) returns (index: nat, typed: Props)
    ensures index == from + Max0(count)
    ensures typed == TypedExplorers(info, from, Max0(count))
  {
    typed := info;
    index := from;
    var i := 0;
    while i < count
      invariant 0 <= i <= Max0(count)
      invariant index == from + i
      invariant typed == TypedExplorers(info, from, i)
    {
      typed := typed[TabKey(index, ".type") := PanelTypeName(DbExplorer)];
      index := index + 1;
      i := i + 1;
    }
  }

  /** `calculateTabCount` over the tab properties, returning the count and the updated properties. */
  method CalculateTabCount(info: Props) returns (count: int, typed: Props)
    ensures count == TabCount(info) && typed == TypedInfo(info)
  {
    var total := IntOr(info, TOTAL_COUNT_KEY, -1);
    if total > 0 {
      return total, info;
    }
    var legacy;
    legacy, typed := CountLegacyTabs(info);
    ExplorerKeyAvoids(0, legacy);
    TypedLegacyAbove(info, legacy, EXPLORER_COUNT_KEY);
    var explorers := IntOr(typed, EXPLORER_COUNT_KEY, 0);
    assert explorers == IntOr(info, EXPLORER_COUNT_KEY, 0);
    var index;
    index, typed := TypeExplorerTabs(typed, legacy, explorers);
    count := index;
  }
}
