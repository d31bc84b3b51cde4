/**
 * User-defined primary keys for tables without one: a map from a table
 * name (or full table expression) to a comma-separated column list, loaded
 * from a properties file and consulted when rows must be identified.
 */
module PkMappings {
  import opened Text
  import opened Seqs

  /** A table as the mapping sees it: its bare name and its full expression. */
  datatype TableRef = TableRef(name: string, expression: string)

  /** A column of a table definition and whether it belongs to the primary key. */
  datatype Column = Column(name: string, isPk: bool)

  /**
   * What reading the mapping file produced: no file (or no name given),
   * the properties read, or a failure after which `partial` holds what had
   * been read before it.
   */
  datatype MappingFile = Missing | Loaded(props: map<string, string>) | Failed(partial: map<string, string>)

  /** `StringUtil.isEmpty`: absent or of length zero. */
  predicate IsEmpty(s: Option<string>) { s.None? || |s.value| == 0 }

  /** The entries of a properties map that `loadMapping` keeps: those with a column list. */
  function NonEmptyEntries(props: map<string, string>): (r: map<string, string>)
    ensures forall k :: k in r <==> k in props && props[k] != ""
    ensures forall k :: k in r ==> r[k] == props[k]
  {
    map k | k in props && props[k] != "" :: props[k]
  }

  /** The map after `addMapping(table, columns)`: the lowercased table is bound to the columns. */
  function Added(m: map<string, string>, table: Option<string>, columns: Option<string>): (r: map<string, string>)
    ensures IsEmpty(table) || IsEmpty(columns) ==> r == m
    ensures !IsEmpty(table) && !IsEmpty(columns) ==>
      Lower(table.value) in r && r[Lower(table.value)] == columns.value &&
      forall k :: k != Lower(table.value) ==> (k in r <==> k in m) && (k in m ==> r[k] == m[k])
  {
    if IsEmpty(table) || IsEmpty(columns) then m else m[Lower(table.value) := columns.value]
  }

  /** The map after `removeMapping(table)`: the key exactly as given is gone. */
  function Removed(m: map<string, string>, table: Option<string>): (r: map<string, string>)
    ensures table.Some? ==> table.value !in r
    ensures forall k :: table != Some(k) ==> (k in r <==> k in m) && (k in r ==> r[k] == m[k])
  {
    if table.None? then m else m - {table.value}
  }

  /**
   * `getPKColumns`: the column list stored for the lowercased table name,
   * failing that for the lowercased full expression, else nothing.
   */
  function Lookup(m: map<string, string>, tbl: TableRef): (r: Option<string>)
    ensures r.Some? <==> Lower(tbl.name) in m || Lower(tbl.expression) in m
    ensures Lower(tbl.name) in m ==> r == Some(m[Lower(tbl.name)])
    ensures Lower(tbl.name) !in m && Lower(tbl.expression) in m ==> r == Some(m[Lower(tbl.expression)])
  {
    var tname := Lower(tbl.name);
    if tname in m then Some(m[tname])
    else
      var full := Lower(tbl.expression);
      if full in m then Some(m[full]) else None
  }

  /** One line of `getMappingAsText`. */
  function EntryLine(m: map<string, string>, k: string): string
    requires k in m
  {
    k + "=" + m[k] + "\n"
  }

  /** The lines of the entries in the order the map hands them out. */
  function EntryLines(m: map<string, string>, order: seq<string>): string
    requires forall k :: k in order ==> k in m
  {
    if |order| == 0 then ""
    else EntryLines(m, order[..|order| - 1]) + EntryLine(m, order[|order| - 1])
  }

  lemma EntryLinesSnoc(m: map<string, string>, order: seq<string>, k: string)
    requires forall x :: x in order ==> x in m
    requires k in m
    ensures EntryLines(m, order + [k]) == EntryLines(m, order) + EntryLine(m, k)
  {
    assert (order + [k])[..|order|] == order;
  }

  lemma ContainsExtend(s: string, t: string, p: string)
    requires Contains(s, p)
    ensures Contains(s + t, p)
  {
    var k := ContainsWitness(s, p);
    assert (s + t)[k..k + |p|] == s[k..k + |p|];
    ContainsAt(s + t, p, k);
  }

  /** Every listed entry has its `table=columns` line in the text. */
  lemma {:induction false} EntryLinesHaveEveryEntry(m: map<string, string>, order: seq<string>, i: nat)
    requires forall k :: k in order ==> k in m
    requires i < |order|
    ensures Contains(EntryLines(m, order), EntryLine(m, order[i]))
    decreases |order|
  {
    var front := order[..|order| - 1];
    var last := EntryLine(m, order[|order| - 1]);
    var text := EntryLines(m, order);
    assert text == EntryLines(m, front) + last;
    if i == |order| - 1 {
      assert text[|text| - |last|..|text|] == last;
      ContainsAt(text, last, |text| - |last|);
    } else {
      assert front[i] == order[i];
      EntryLinesHaveEveryEntry(m, front, i);
      ContainsExtend(EntryLines(m, front), last, EntryLine(m, order[i]));
    }
  }

  /** What the column loop of `addMapping(table, columns[])` builds: PK names, a comma before each once the text is non-empty. */
  function PkColumnText(cols: seq<Column>): string
  {
    if |cols| == 0 then ""
    else
      var acc := PkColumnText(cols[..|cols| - 1]);
      var c := cols[|cols| - 1];
      if c.isPk then (if |acc| > 0 then acc + "," else acc) + c.name else acc
  }

  function ColumnName(c: Column): string { c.name }

  function IsPkColumn(c: Column): bool { c.isPk }

  /** With no empty PK column name, the loop's text is the comma-joined PK names, in order. */
  lemma {:induction false} PkColumnTextJoins(cols: seq<Column>)
    requires forall i :: 0 <= i < |cols| && cols[i].isPk ==> cols[i].name != ""
    ensures PkColumnText(cols) == Join(Map(ColumnName, Filter(IsPkColumn, cols)), ",")
    ensures |PkColumnText(cols)| > 0 <==> |Filter(IsPkColumn, cols)| > 0
    decreases |cols|
  {
    if |cols| > 0 {
      var front := cols[..|cols| - 1];
      var c := cols[|cols| - 1];
      assert cols == front + [c];
      PkColumnTextJoins(front);
      FilterSnoc(IsPkColumn, front, c);
      if c.isPk {
        MapSnoc(ColumnName, Filter(IsPkColumn, front), c);
        JoinSnoc(Map(ColumnName, Filter(IsPkColumn, front)), c.name, ",");
      } else {
        assert Filter(IsPkColumn, cols) == Filter(IsPkColumn, front) + [];
        assert Filter(IsPkColumn, front) + [] == Filter(IsPkColumn, front);
      }
    }
  }

  /** Without a PK-flagged column the loop builds nothing. */
  lemma {:induction false} NoPkColumnNoText(cols: seq<Column>)
    requires forall i :: 0 <= i < |cols| ==> !cols[i].isPk
    ensures PkColumnText(cols) == ""
    decreases |cols|
  {
    if |cols| > 0 {
      NoPkColumnNoText(cols[..|cols| - 1]);
    }
  }

  /**
   * The loop adds a comma only once the text is non-empty, so a leading PK
   * column with an empty name leaves no trace, where a join would keep its
   * separator.
   */
  lemma EmptyLeadingNameDropsSeparator()
    ensures PkColumnText([Column("", true), Column("id", true)]) == "id"
    ensures Join(["", "id"], ",") == ",id"
  {
    var cols := [Column("", true), Column("id", true)];
    assert cols[..1] == [Column("", true)];
    assert [Column("", true)][..0] == [];
    assert ["", "id"][..1] == [""];
  }

  class PkMapping {
    var mapping: map<string, string>

    /** `PkMapping(File)`: an empty map filled from the mapping file. */
    constructor(source: MappingFile)
      ensures source.Missing? ==> mapping == map[]
      ensures source.Loaded? ==> mapping == NonEmptyEntries(source.props)
      ensures source.Failed? ==> mapping == NonEmptyEntries(source.partial)
    {
      mapping := map[];
      new;
      LoadMapping(source);
    }

    /** `clear`. */
    method Clear()
      modifies this
      ensures mapping == map[]
    {
      mapping := map[];
    }

    /**
     * `loadMapping`: a missing file changes nothing; a failed read clears
     * the map first; then every read entry with a non-empty column list is
     * stored under its key exactly as written.
     */
    method LoadMapping(source: MappingFile)
      modifies this
      ensures source.Missing? ==> mapping == old(mapping)
      ensures source.Loaded? ==> mapping == old(mapping) + NonEmptyEntries(source.props)
      ensures source.Failed? ==> mapping == NonEmptyEntries(source.partial)
    {
      if source.Missing? {
        return;
      }
      var props: map<string, string>;
      if source.Failed? {
        mapping := map[];
        props := source.partial;
      } else {
        props := source.props;
      }
      MergeEntries(props);
    }

    /** The loop of `loadMapping` over the properties read. */
    method MergeEntries(props: map<string, string>)
      modifies this
      ensures mapping == old(mapping) + NonEmptyEntries(props)
    {
      mapping := PutNonEmpty(mapping, props);
    }

    /** `removeMapping`: the key exactly as given, an absent one changes nothing. */
    method RemoveMapping(table: Option<string>)
      modifies this
      ensures mapping == Removed(old(mapping), table)
    {
      if table.Some? {
        mapping := mapping - {table.value};
      }
    }

    /** `addMapping(String, String)`. */
    method AddMapping(table: Option<string>, columns: Option<string>)
      modifies this
      ensures mapping == Added(old(mapping), table, columns)
    {
      if !IsEmpty(table) && !IsEmpty(columns) {
        mapping := mapping[Lower(table.value) := columns.value];
      }
    }

    /** `addMapping(TableIdentifier, String)`: keyed by the full table expression. */
    method AddTableMapping(table: TableRef, columns: Option<string>)
      modifies this
      ensures mapping == Added(old(mapping), Some(table.expression), columns)
    {
      AddMapping(Some(table.expression), columns);
    }

    /** `addMapping(TableIdentifier, ColumnIdentifier[])`: the PK-flagged columns, comma-joined. */
    method AddColumnMapping(table: TableRef, cols: seq<Column>)
      modifies this
      ensures PkColumnText(cols) == "" ==> mapping == old(mapping)
      ensures PkColumnText(cols) != "" ==>
        mapping == Added(old(mapping), Some(table.expression), Some(PkColumnText(cols)))
    {
      var colNames := "";
      var i := 0;
      while i < |cols|
        invariant i <= |cols|
        invariant colNames == PkColumnText(cols[..i])
      {
        assert cols[..i + 1][..i] == cols[..i];
        if cols[i].isPk {
          if |colNames| > 0 {
            colNames := colNames + ",";
          }
          colNames := colNames + cols[i].name;
        }
        i := i + 1;
      }
      assert cols[..i] == cols;
      if |colNames| > 0 {
        AddTableMapping(table, Some(colNames));
      }
    }

    /**
     * `getMappingAsText`: nothing for an empty map, otherwise one
     * `table=columns` line per entry, in the map's own iteration order
     * (returned as `order`).
     */
    method GetMappingAsText() returns (text: Option<string>, ghost order: seq<string>)
      ensures text.None? <==> |mapping| == 0
      ensures Distinct(order) && forall k :: k in order <==> k in mapping
      ensures text.Some? ==> text.value == EntryLines(mapping, order)
    {
      text, order := MappingText(mapping);
    }
  }

  lemma MergedAll(r: map<string, string>, m: map<string, string>, props: map<string, string>)
    requires forall k :: k in r <==> k in m || (k in props && props[k] != "")
    requires forall k :: k in r ==> r[k] == if k in props && props[k] != "" then props[k] else m[k]
    ensures r == m + NonEmptyEntries(props)
  {
  }

  /** Puts every entry of `props` with a non-empty column list into `m`, one at a time. */
  method PutNonEmpty(m: map<string, string>, props: map<string, string>) returns (r: map<string, string>)
    ensures r == m + NonEmptyEntries(props)
  {
    r := m;
    var rest := props.Keys;
    while rest != {}
      invariant rest <= props.Keys
      invariant forall k :: k in r <==> k in m || (k in props && k !in rest && props[k] != "")
      invariant forall k :: k in r ==>
        r[k] == if k in props && k !in rest && props[k] != "" then props[k] else m[k]
      decreases |rest|
    {
      var table :| table in rest;
      var columns := props[table];
      if columns != "" {
        r := r[table := columns];
      }
      rest := rest - {table};
    }
    MergedAll(r, m, props);
  }

  /** The text of `getMappingAsText` for the map `m`, visiting its entries in `order`. */
  method MappingText(m: map<string, string>) returns (text: Option<string>, ghost order: seq<string>)
    ensures text.None? <==> |m| == 0
    ensures Distinct(order) && forall k :: k in order <==> k in m
    ensures text.Some? ==> text.value == EntryLines(m, order)
  {
    order := [];
    if |m| == 0 {
      return None, order;
    }
    var result := "";
    var rest := m.Keys;
    while rest != {}
      invariant rest <= m.Keys
      invariant forall k :: k in order ==> k in m && k !in rest
      invariant forall k :: k in m ==> k in order || k in rest
      invariant Distinct(order)
      invariant result == EntryLines(m, order)
      decreases |rest|
    {
      var table :| table in rest;
      EntryLinesSnoc(m, order, table);
      result := result + table + "=" + m[table] + "\n";
      DistinctSnoc(order, table);
      order := order + [table];
      rest := rest - {table};
    }
    text := Some(result);
  }

  /** A table added under any capitalisation is found by its bare name in any capitalisation. */
  lemma AddThenLookup(m: map<string, string>, table: string, columns: string, tbl: TableRef)
    requires table != "" && columns != ""
    requires Lower(tbl.name) == Lower(table)
    ensures Lookup(Added(m, Some(table), Some(columns)), tbl) == Some(columns)
  {
  }

  /** A table added by its full expression is found through it when the bare name is not mapped. */
  lemma AddExpressionThenLookup(m: map<string, string>, columns: string, tbl: TableRef)
    requires tbl.expression != "" && columns != ""
    requires Lower(tbl.name) !in m && Lower(tbl.name) != Lower(tbl.expression)
    ensures Lookup(Added(m, Some(tbl.expression), Some(columns)), tbl) == Some(columns)
  {
  }

  /**
   * Removal does not lowercase: a mapping added as "Person" is kept when
   * "Person" is removed, and still answers lookups.
   */
  lemma RemoveIsCaseSensitive(m: map<string, string>, columns: string)
    requires columns != ""
    ensures var after := Removed(Added(m, Some("Person"), Some(columns)), Some("Person"));
      Lookup(after, TableRef("Person", "public.Person")) == Some(columns)
  {
    var added := Added(m, Some("Person"), Some(columns));
    assert Lower("Person") == "person";
    assert "person" != "Person";
  }

  /**
   * Keys read from the mapping file are stored as written, while lookups
   * lowercase: an entry written "Person" is never found.
   */
  lemma LoadedMixedCaseNotFound(columns: string)
    requires columns != ""
    ensures Lookup(NonEmptyEntries(map["Person" := columns]), TableRef("Person", "Person")) == None
  {
    assert Lower("Person") == "person";
    assert "person" != "Person";
  }
}
