/**
 * What the import statements promise: which columns are keys, how column
 * expressions are found, when a supported mode really yields a statement,
 * which columns the upserts assign, and the two statements the original
 * gets wrong (SQL Anywhere's ON EXISTING clause, the standard MERGE with
 * constant columns) next to their corrections.
 */
module ImportDmlProps {
  import opened Text
  import opened Seqs
  import opened ImportGates
  import opened ImportDml

  lemma MapMember<A, B>(f: A -> B, s: seq<A>, x: A)
    requires x in s
    ensures f(x) in Map(f, s)
  {
    var i :| 0 <= i < |s| && s[i] == x;
    assert Map(f, s)[i] == f(x);
  }

  // ---------------------------------------------------------------------
  // Keys

  /** The keys are the explicit ones when there are any, otherwise exactly the PK-flagged targets. */
  lemma ResolvedKeysMembers(s: Setup)
    ensures forall c :: c in ResolvedKeys(s) <==>
      if |s.keyColumns| == 0 then c in s.targets && c.isPk else c in s.keyColumns
  {
    FilterMembers(IsPk, s.targets);
  }

  /** Without explicit keys there is a real primary key exactly when some target is PK-flagged. */
  lemma ImplicitKeysRealPk(s: Setup)
    requires |s.keyColumns| == 0
    ensures HasRealPk(ResolvedKeys(s)) <==> exists i :: 0 <= i < |s.targets| && s.targets[i].isPk
  {
    var keys := Filter(IsPk, s.targets);
    FilterMembers(IsPk, s.targets);
    if exists i :: 0 <= i < |s.targets| && s.targets[i].isPk {
      var i :| 0 <= i < |s.targets| && s.targets[i].isPk;
      assert s.targets[i] in keys;
    }
    if HasRealPk(keys) {
      assert keys[0] in s.targets;
      var i :| 0 <= i < |s.targets| && s.targets[i] == keys[0];
      assert s.targets[i].isPk;
    }
  }

  /**
   * Explicit keys that are not all PK-flagged (a unique key chosen by the user) make upserts
   * and, where a PK is required for it, insert-ignore unavailable on the PK-requiring DBMS.
   */
  lemma ExplicitNonPkKeys(s: Setup, c: Column)
    requires c in s.keyColumns && !c.isPk
    ensures UpsertRequiresPK(s.env.server.dialect) ==> !ModeSupported(s, Upsert)
    ensures IgnoreRequiresPK(s.env.server.dialect) ==> !ModeSupported(s, InsertIgnore)
  {
    var i :| 0 <= i < |s.keyColumns| && s.keyColumns[i] == c;
    assert ResolvedKeys(s)[i] == c;
  }

  // ---------------------------------------------------------------------
  // Column expressions

  /**
   * A column expression is found for a name exactly when some entry's name equals it ignoring
   * case, and then it is the value of the last such entry.
   */
  lemma {:induction false} LookupLastWins(entries: seq<(string, string)>, key: string)
    ensures Lookup(CaseInsensitiveMap(entries), key).Some? <==>
      exists i :: 0 <= i < |entries| && Lower(entries[i].0) == Lower(key)
    ensures Lookup(CaseInsensitiveMap(entries), key).Some? ==>
      exists i :: 0 <= i < |entries| && Lower(entries[i].0) == Lower(key)
        && entries[i].1 == Lookup(CaseInsensitiveMap(entries), key).value
        && forall j :: i < j < |entries| ==> Lower(entries[j].0) != Lower(key)
    decreases |entries|
  {
    if |entries| > 0 {
      var init := entries[..|entries| - 1];
      var last := entries[|entries| - 1];
      LookupLastWins(init, key);
      if Lower(last.0) == Lower(key) {
        assert Lookup(CaseInsensitiveMap(entries), key) == Some(last.1);
      } else {
        assert Lookup(CaseInsensitiveMap(entries), key) == Lookup(CaseInsensitiveMap(init), key);
        assert forall i :: 0 <= i < |init| ==> init[i] == entries[i];
      }
    }
  }

  /** Names that differ only in case find the same expression. */
  lemma LookupIgnoresCase(m: map<string, string>, a: string, b: string)
    requires EqualsIgnoreCase(a, b)
    ensures Lookup(m, a) == Lookup(m, b)
  {
  }

  // ---------------------------------------------------------------------
  // Modes

  lemma ModeSupportedTable(s: Setup)
    ensures !ModeSupported(s, Insert) && !ModeSupported(s, Update)
    ensures ModeSupported(s, InsertUpdate) == ModeSupported(s, UpdateInsert) == ModeSupported(s, Upsert)
    ensures ModeSupported(s, Upsert) ==> |ResolvedKeys(s)| > 0
    ensures ModeSupported(s, Upsert) && s.env.server.dialect != SqlAnywhere ==> SupportsUpsert(Some(s.env.server))
    ensures ModeSupported(s, InsertIgnore) && !IgnoreRequiresPK(s.env.server.dialect) ==>
      SupportsInsertIgnore(Some(s.env.server))
  {
  }

  /** SQL Anywhere's upsert gate is the primary key alone: a server before version 10 passes it too. */
  lemma AnywhereUpsertIgnoresVersion(s: Setup)
    requires s.env.server.dialect == SqlAnywhere && !AtLeast(s.env.server, 10, 0)
    requires HasRealPk(ResolvedKeys(s))
    ensures ModeSupported(s, Upsert) && !SupportsUpsert(Some(s.env.server))
  {
  }

  /**
   * A supported insert-ignore yields a statement whenever there are keys and target columns
   * (Postgres needs keys for ON CONFLICT, MySQL's dummy update names the first target), with
   * the statements as written and as corrected alike.
   */
  lemma IgnoreSupportedGivesStatement(s: Setup, ks: seq<Constant>, start: Option<string>, corrected: bool)
    requires ModeSupported(s, InsertIgnore)
    requires |ResolvedKeys(s)| > 0 && |s.targets| > 0
    ensures InsertIgnoreDispatch(s, ks, start, corrected).Sql?
  {
  }

  /** A supported upsert always yields a statement, as written and as corrected. */
  lemma UpsertSupportedGivesStatement(s: Setup, ks: seq<Constant>, start: Option<string>, corrected: bool)
    requires ModeSupported(s, Upsert)
    ensures UpsertDispatch(s, ks, start, corrected).Sql?
  {
  }

  /**
   * Postgres before 9.5 falls through to the MySQL statement, but only where the mode check
   * already refuses both modes.
   */
  lemma OldPostgresFallsThrough(s: Setup, ks: seq<Constant>, start: Option<string>)
    requires s.env.server.dialect == Postgres && !AtLeast(s.env.server, 9, 5)
    ensures InsertIgnoreText(s, ks, start) == MySqlText(s, ks, start, true)
    ensures UpsertText(s, ks, start) == MySqlText(s, ks, start, false)
    ensures !ModeSupported(s, InsertIgnore) && !ModeSupported(s, Upsert)
  {
  }

  /** The DBMS without a statement of a kind get none. */
  lemma MissingStatements(s: Setup, ks: seq<Constant>, start: Option<string>)
    ensures s.env.server.dialect == OtherDbms ==> UpsertText(s, ks, start) == NoStatement
    ensures s.env.server.dialect in {OtherDbms, H2, Hana, Firebird, MariaDb} ==>
      (InsertIgnoreText(s, ks, start) == NoStatement <==> s.env.server.dialect != MariaDb)
  {
  }

  // ---------------------------------------------------------------------
  // INSERT

  /** The INSERT opens with the caller's start text, else the DBMS's import insert, else `INSERT INTO`. */
  lemma InsertOpening(s: Setup, ks: seq<Constant>, start: Option<string>)
    ensures StartsWith(InsertText(s, ks, start),
      if start.Some? && !IsBlank(start.value) then start.value
      else if s.env.insertForImport.Some? && !IsBlank(s.env.insertForImport.value) then s.env.insertForImport.value
      else "INSERT INTO")
  {
    var p := InsertPrefix(s, start);
    var fallback := FirstNonBlank([s.env.insertForImport], "INSERT INTO");
    assert [start, s.env.insertForImport][1..] == [s.env.insertForImport];
    assert p == if start.Some? && !IsBlank(start.value) then start.value else fallback;
    assert [s.env.insertForImport][1..] == [];
    assert fallback == if s.env.insertForImport.Some? && !IsBlank(s.env.insertForImport.value)
      then s.env.insertForImport.value else FirstNonBlank([], "INSERT INTO");
    assert (p + " ")[..|p|] == p;
    var t := p + " ";
    StartsWithExtend(t, s.env.tableName, p);
    t := t + s.env.tableName;
    StartsWithExtend(t, " (", p);
    t := t + " (";
    StartsWithExtend(t, InsertColumnsText(s, ks), p);
    t := t + InsertColumnsText(s, ks);
    StartsWithExtend(t, ")\n", p);
    t := t + ")\n";
    StartsWithExtend(t, OverrideText(s.overrideIdentity), p);
    t := t + OverrideText(s.overrideIdentity);
    StartsWithExtend(t, ValuesKeyword, p);
    t := t + ValuesKeyword;
    StartsWithExtend(t, InsertValuesText(s, ks), p);
    t := t + InsertValuesText(s, ks);
    StartsWithExtend(t, ")", p);
    assert t + ")" == InsertText(s, ks, start);
    assert p == if start.Some? && !IsBlank(start.value) then start.value
      else if s.env.insertForImport.Some? && !IsBlank(s.env.insertForImport.value) then s.env.insertForImport.value
      else "INSERT INTO";
  }

  /** Columns and values pair up: one entry per target and one per constant, in the same order. */
  lemma InsertListsAlign(s: Setup, ks: seq<Constant>, i: nat)
    requires i < |s.targets| + |ks|
    ensures |Map(DisplayQuoted(s.env), s.targets) + Map(ConstColumnName, ks)| == |s.targets| + |ks|
    ensures |Map(TargetValue(s), s.targets) + Map(ConstValue, ks)| == |s.targets| + |ks|
    ensures i < |s.targets| ==>
      (Map(DisplayQuoted(s.env), s.targets) + Map(ConstColumnName, ks))[i] == s.env.quote(s.targets[i].displayName)
      && (Map(TargetValue(s), s.targets) + Map(ConstValue, ks))[i] ==
         (var e := Lookup(s.expressions, s.env.quote(s.targets[i].displayName));
          if e.Some? && !IsBlank(e.value) then e.value else s.env.dmlExpression(s.targets[i]))
    ensures |s.targets| <= i ==>
      (Map(DisplayQuoted(s.env), s.targets) + Map(ConstColumnName, ks))[i] == ks[i - |s.targets|].column.columnName
      && (Map(TargetValue(s), s.targets) + Map(ConstValue, ks))[i] ==
         (if ks[i - |s.targets|].functionLiteral.Some? then ks[i - |s.targets|].functionLiteral.value else "?")
  {
  }

  // ---------------------------------------------------------------------
  // Postgres and MySQL

  /**
   * Postgres needs keys; DO UPDATE assigns exactly the target and constant columns that are not
   * key columns.
   */
  lemma PostgresAssignments(s: Setup, ks: seq<Constant>, start: Option<string>, ignore: bool)
    ensures PostgresText(s, ks, start, ignore) == NoStatement <==> |ResolvedKeys(s)| == 0
    ensures forall c :: c in PostgresUpdated(s, ks) <==>
      (c in s.targets || c in Map(ConstColumn, ks)) && !ContainsColumn(s.env, ResolvedKeys(s), c)
  {
    var keys := ResolvedKeys(s);
    var keep := NotInKeys(s.env, keys);
    var fromTargets, fromConstants := Filter(keep, s.targets), Filter(keep, Map(ConstColumn, ks));
    assert PostgresUpdated(s, ks) == fromTargets + fromConstants;
    FilterMembers(keep, s.targets);
    FilterMembers(keep, Map(ConstColumn, ks));
    forall c
      ensures c in fromTargets + fromConstants <==>
                (c in s.targets || c in Map(ConstColumn, ks)) && !ContainsColumn(s.env, keys, c)
    {
      assert keep(c) == !ContainsColumn(s.env, keys, c);
    }
  }

  /**
   * The MySQL ignore form fails exactly without target columns; the upsert form always gives a
   * statement, and its ON DUPLICATE KEY UPDATE list sets every target column `c` to `VALUES(c)`.
   */
  lemma MySqlAssignments(s: Setup, ks: seq<Constant>, start: Option<string>)
    ensures MySqlText(s, ks, start, true) == Failure <==> |s.targets| == 0
    ensures MySqlText(s, ks, start, false).Sql?
    ensures forall c :: c in s.targets ==>
      Contains(MySqlText(s, ks, start, false).text, s.env.quote(c.displayName) + " = VALUES(" + s.env.quote(c.displayName) + ")")
  {
    var insert := InsertText(s, ks, start) + "\nON DUPLICATE KEY UPDATE \n  ";
    var updates := Map(ValuesAssignment(s.env), s.targets);
    forall c | c in s.targets
      ensures Contains(MySqlText(s, ks, start, false).text, s.env.quote(c.displayName) + " = VALUES(" + s.env.quote(c.displayName) + ")")
    {
      var i :| 0 <= i < |s.targets| && s.targets[i] == c;
      assert updates[i] == s.env.quote(c.displayName) + " = VALUES(" + s.env.quote(c.displayName) + ")";
      JoinContainsItem(updates, ",\n  ", i);
      ContainsSuffix(insert, Join(updates, ",\n  "), updates[i]);
    }
  }

  // ---------------------------------------------------------------------
  // MERGE

  /**
   * WHEN MATCHED updates exactly the target columns that are not key columns: every such target
   * and every non-key constant column has its quoted name in the SET list, and the list holds
   * at most one entry per column.
   */
  lemma MergeUpdatesNonKeys(s: Setup, ks: seq<Constant>)
    ensures forall c :: c in Filter(NotKeyColumn(s), s.targets) <==> c in s.targets && !IsKeyColumn(s, c)
    ensures forall c :: c in s.targets && !IsKeyColumn(s, c) ==> s.env.quote(c.displayName) in MergeSetNames(s, ks)
    ensures forall k :: k in ks && !IsKeyColumn(s, k.column) ==> s.env.quote(k.column.columnName) in MergeSetNames(s, ks)
    ensures |MergeSetNames(s, ks)| <= |s.targets| + |ks|
  {
    FilterMembers(NotKeyColumn(s), s.targets);
    forall c | c in s.targets && !IsKeyColumn(s, c)
      ensures s.env.quote(c.displayName) in MergeSetNames(s, ks)
    {
      SetNameOfTarget(s, ks, c);
    }
    forall k | k in ks && !IsKeyColumn(s, k.column)
      ensures s.env.quote(k.column.columnName) in MergeSetNames(s, ks)
    {
      SetNameOfConstant(s, ks, k);
    }
  }

  /** A mapped member: `f(x)` is in the image of a sequence holding `x`. */
  lemma MappedMember<A, B>(f: A -> B, xs: seq<A>, x: A)
    requires x in xs
    ensures f(x) in Map(f, xs)
  {
    var i :| 0 <= i < |xs| && xs[i] == x;
    assert Map(f, xs)[i] == f(x);
  }

  /** A non-key target column's quoted display name is in the SET list. */
  lemma SetNameOfTarget(s: Setup, ks: seq<Constant>, c: Column)
    requires c in s.targets && !IsKeyColumn(s, c)
    ensures s.env.quote(c.displayName) in MergeSetNames(s, ks)
  {
    FilterMembers(NotKeyColumn(s), s.targets);
    assert NotKeyColumn(s)(c);
    MappedMember(DisplayQuoted(s.env), Filter(NotKeyColumn(s), s.targets), c);
  }

  /** A non-key constant column's quoted column name is in the SET list. */
  lemma SetNameOfConstant(s: Setup, ks: seq<Constant>, k: Constant)
    requires k in ks && !IsKeyColumn(s, k.column)
    ensures s.env.quote(k.column.columnName) in MergeSetNames(s, ks)
  {
    var cols := Map(ConstColumn, ks);
    MappedMember(ConstColumn, ks, k);
    FilterMembers(NotKeyColumn(s), cols);
    assert NotKeyColumn(s)(k.column);
    MappedMember(NameQuoted(s.env), Filter(NotKeyColumn(s), cols), k.column);
  }

  // ---------------------------------------------------------------------
  // Finding: SQL Anywhere's ON EXISTING clause

  /** `Replace` passes over a part holding no occurrence of the pattern's first character. */
  lemma {:induction false} ReplaceSkips(a: string, b: string, pat: string, rep: string)
    requires |pat| > 0 && pat[0] !in a
    ensures Replace(a + b, pat, rep) == a + Replace(b, pat, rep)
    decreases |a|
  {
    if |a| == 0 {
      assert a + b == b;
    } else if |a + b| >= |pat| {
      assert (a + b)[0] != pat[0];
      assert (a + b)[1..] == a[1..] + b;
      ReplaceSkips(a[1..], b, pat, rep);
      assert [a[0]] + a[1..] == a;
    }
  }

  /**
   * As written: the statement never holds `) VALUES (`, since the column list closes with
   * `)` and a line break, so the replacement finds nothing and the ON EXISTING clause is lost
   * whenever no table name, column, expression or literal holds a `)`.
   */
  lemma SqlAnywhereDropsClause(s: Setup, ks: seq<Constant>, ignore: bool)
    requires ')' !in InsertHead(s, None) + InsertColumnsText(s, ks)
    requires ')' !in InsertValuesText(s, ks)
    ensures SqlAnywhereText(s, ks, ignore) == InsertText(s, ks, None)
  {
    var p := InsertHead(s, None) + InsertColumnsText(s, ks);
    var o := OverrideText(s.overrideIdentity);
    var v := InsertValuesText(s, ks);
    var rep := if ignore then ") ON EXISTING SKIP VALUES (" else ") ON EXISTING UPDATE VALUES (";
    FixedPartsFree(s.overrideIdentity);
    var q := o + ValuesKeyword + v;
    assert ')' !in q;
    assert InsertText(s, ks, None) == p + (")\n" + q + ")");
    ReplaceSkips(p, ")\n" + q + ")", AnywhereFragment, rep);
    ReplaceAfterLineBreak(q, rep);
  }

  lemma FixedPartsFree(o: Option<OverrideIdentity>)
    ensures ')' !in OverrideText(o) + ValuesKeyword
  {
  }

  /** A `)` followed by a line break starts no `) VALUES (`. */
  lemma ReplaceAfterLineBreak(q: string, rep: string)
    requires ')' !in q
    ensures Replace(")\n" + q + ")", AnywhereFragment, rep) == ")\n" + q + ")"
  {
    var u := ")\n" + q + ")";
    if |u| >= |AnywhereFragment| {
      assert u[1] != AnywhereFragment[1];
      assert u[..|AnywhereFragment|] != AnywhereFragment;
      assert u[1..] == "\n" + q + ")";
    }
    assert ')' !in "\n" + q;
    ReplaceSkips("\n" + q, ")", AnywhereFragment, rep);
    assert [')'] + ("\n" + q + ")") == u;
  }

  /** Corrected: the clause stands right before the value list, as the DBMS expects. */
  lemma SqlAnywhereCorrectedClause(s: Setup, ks: seq<Constant>, ignore: bool)
    ensures Contains(SqlAnywhereTextCorrected(s, ks, ignore),
      (if ignore then "ON EXISTING SKIP " else "ON EXISTING UPDATE ") + ValuesKeyword)
  {
    var clause := (if ignore then "ON EXISTING SKIP " else "ON EXISTING UPDATE ") + ValuesKeyword;
    var before := InsertHead(s, None) + InsertColumnsText(s, ks) + ")\n" + OverrideText(s.overrideIdentity);
    var after := InsertValuesText(s, ks) + ")";
    var t := SqlAnywhereTextCorrected(s, ks, ignore);
    assert t == before + clause + after;
    assert t[|before|..|before| + |clause|] == clause;
    ContainsAt(t, clause, |before|);
  }

  // ---------------------------------------------------------------------
  // Finding: the standard MERGE with constant columns

  /**
   * As written, with one target `a` and one constant `c = now()`: the source row puts `now()`
   * in the slot of `a`, and `vals` has no column `c` although the INSERT reads `vals.c`.
   */
  lemma MergeConstantsAsWritten()
    ensures
      var env := Env(Server(HsqlDb, Version(2, 0), false), (x: string) => x, (c: Column) => "?",
                     (a: Column, b: Column) => a == b, "t", "t", None);
      var s := Setup(env, [Column("a", "a", false)], [], map[], None);
      var ks := [Constant(Column("c", "c", false), Some("now()"))];
      MergeRowAsWritten(ks, |s.targets|) == ["now()"]
      && Map(DisplayQuoted(env), s.targets) == ["a"]
      && MergeInsertNames(s, ks) == ["a", "c"]
  {
    var env := Env(Server(HsqlDb, Version(2, 0), false), (x: string) => x, (c: Column) => "?",
                   (a: Column, b: Column) => a == b, "t", "t", None);
    var s := Setup(env, [Column("a", "a", false)], [], map[], None);
    var ks := [Constant(Column("c", "c", false), Some("now()"))];
    assert MergeRowAsWritten(ks, 1) == MergeRowAsWritten(ks, 0) + [RowEntryAsWritten(ks, 0)];
    assert Map(ConstColumn, ks) == [Column("c", "c", false)];
    assert Map(NameQuoted(env), [Column("c", "c", false)]) == ["c"];
  }

  /** Slot `i` of the row as written holds entry `i`, whatever the row's length beyond it. */
  lemma {:induction false} MergeRowEntry(ks: seq<Constant>, n: nat, i: nat)
    requires i < n
    ensures MergeRowAsWritten(ks, n)[i] == RowEntryAsWritten(ks, i)
    decreases n
  {
    if i < n - 1 {
      MergeRowEntry(ks, n - 1, i);
    }
  }

  /**
   * As written, in general: where constant `i` is a function call and there is an `i`-th target,
   * the `vals` column of that target (the `i`-th column of `vals`) receives the constant's
   * literal instead of a marker for the target's own value.
   */
  lemma MergeConstantMisplaced(s: Setup, ks: seq<Constant>, i: nat)
    requires i < |s.targets| && i < |ks| && ks[i].functionLiteral.Some?
    ensures MergeRowAsWritten(ks, |s.targets|)[i] == ks[i].functionLiteral.value
  {
    MergeRowEntry(ks, |s.targets|, i);
  }

  /** As written, in general: with any constant the INSERT names more columns than `vals` has. */
  lemma MergeAsWrittenShort(s: Setup, ks: seq<Constant>)
    requires |ks| > 0
    ensures |MergeRowAsWritten(ks, |s.targets|)| == |Map(DisplayQuoted(s.env), s.targets)| < |MergeInsertNames(s, ks)|
  {
  }

  /**
   * Corrected: the source row has a value for every `vals` column, and every `vals.x` that
   * WHEN MATCHED or WHEN NOT MATCHED reads is one of them.
   */
  lemma MergeCorrectedConsistent(s: Setup, ks: seq<Constant>)
    ensures |MergeRowCorrected(s, ks)| == |MergeValsCorrected(s, ks)|
    ensures forall q :: q in MergeInsertNames(s, ks) ==> q in MergeValsCorrected(s, ks)
    ensures forall q :: q in MergeSetNames(s, ks) ==> q in MergeValsCorrected(s, ks)
  {
    var cs := Map(ConstColumn, ks);
    FilterMembers(NotKeyColumn(s), s.targets);
    FilterMembers(NotKeyColumn(s), cs);
    forall q | q in MergeSetNames(s, ks)
      ensures q in MergeValsCorrected(s, ks)
    {
      var a := Map(DisplayQuoted(s.env), Filter(NotKeyColumn(s), s.targets));
      if q in a {
        var i :| 0 <= i < |a| && a[i] == q;
        MapMember(DisplayQuoted(s.env), s.targets, Filter(NotKeyColumn(s), s.targets)[i]);
      } else {
        var b := Map(NameQuoted(s.env), Filter(NotKeyColumn(s), cs));
        var i :| 0 <= i < |b| && b[i] == q;
        MapMember(NameQuoted(s.env), cs, Filter(NotKeyColumn(s), cs)[i]);
      }
    }
  }
}
