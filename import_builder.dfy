/**
 * `ImportDMLStatementBuilder` itself: the mutable key columns, column
 * expressions and override mode, and the statement builders written as the
 * original's accumulation loops.  Every builder is proved to return exactly
 * the statement described in `ImportDml`.
 */
module ImportBuilder {
  import opened Text
  import opened Seqs
  import opened ImportGates
  import opened ImportDml

  function Kept(ignored: Column -> bool): Column -> bool
  {
    (c: Column) => !ignored(c)
  }

  class ImportDmlStatementBuilder {
    const env: Env
    const targetColumns: seq<Column>
    var keyColumns: seq<Column>
    var columnExpressions: map<string, string>
    var overrideIdentity: Option<OverrideIdentity>

    /** The builder's state as a value. */
    function Current(): Setup
      reads this
    {
      Setup(env, targetColumns, keyColumns, columnExpressions, overrideIdentity)
    }

    /** Keeps the columns the column filter does not ignore, in order. */
    constructor(env: Env, columns: seq<Column>, ignored: Column -> bool)
      ensures this.env == env
      ensures targetColumns == Filter(Kept(ignored), columns)
      ensures keyColumns == [] && columnExpressions == map[] && overrideIdentity == None
    {
      var cols: seq<Column> := [];
      for i := 0 to |columns|
        invariant cols == Filter(Kept(ignored), columns[..i])
      {
        FilterPrefixStep(Kept(ignored), columns, i);
        if !ignored(columns[i]) {
          cols := cols + [columns[i]];
        }
      }
      assert columns[..|columns|] == columns;
      this.env := env;
      targetColumns := cols;
      keyColumns := [];
      columnExpressions := map[];
      overrideIdentity := None;
    }

    method SetOverrideStrategy(strategy: Option<OverrideIdentity>)
      modifies this
      ensures overrideIdentity == strategy
      ensures keyColumns == old(keyColumns) && columnExpressions == old(columnExpressions)
    {
      overrideIdentity := strategy;
    }

    /** Clears the expressions, then puts every given entry (a missing map leaves none). */
    method SetColumnExpressions(expressions: Option<seq<(string, string)>>)
      modifies this
      ensures columnExpressions == if expressions.None? then map[] else CaseInsensitiveMap(expressions.value)
      ensures keyColumns == old(keyColumns) && overrideIdentity == old(overrideIdentity)
    {
      columnExpressions := map[];
      if expressions.Some? {
        columnExpressions := CaseInsensitiveMap(expressions.value);
      }
    }

    /** A fresh list holding copies of the keys; a missing list leaves it empty. */
    method SetKeyColumns(keys: Option<seq<Column>>)
      modifies this
      ensures keyColumns == if keys.None? then [] else keys.value
      ensures columnExpressions == old(columnExpressions) && overrideIdentity == old(overrideIdentity)
    {
      keyColumns := [];
      if keys.None? {
        return;
      }
      for i := 0 to |keys.value|
        invariant keyColumns == keys.value[..i]
        invariant columnExpressions == old(columnExpressions) && overrideIdentity == old(overrideIdentity)
      {
        keyColumns := keyColumns + [keys.value[i]];
      }
    }

    // -------------------------------------------------------------------
    // Keys

    method GetPkColumns() returns (keys: seq<Column>)
      ensures keys == PkColumns(targetColumns)
    {
      keys := [];
      for i := 0 to |targetColumns|
        invariant keys == Filter(IsPk, targetColumns[..i])
      {
        FilterPrefixStep(IsPk, targetColumns, i);
        if targetColumns[i].isPk {
          keys := keys + [targetColumns[i]];
        }
      }
      assert targetColumns[..|targetColumns|] == targetColumns;
    }

    method GetKeyColumns() returns (keys: seq<Column>)
      ensures keys == ResolvedKeys(Current())
    {
      if |keyColumns| == 0 {
        keys := GetPkColumns();
      } else {
        keys := keyColumns;
      }
    }

    /** True iff there are key columns and every one of them is flagged as primary key. */
    method HasRealPK() returns (r: bool)
      ensures r <==> |ResolvedKeys(Current())| > 0 && forall c :: c in ResolvedKeys(Current()) ==> c.isPk
    {
      var keyCols := GetKeyColumns();
      if |keyCols| == 0 {
        return false;
      }
      for i := 0 to |keyCols|
        invariant forall j :: 0 <= j < i ==> keyCols[j].isPk
      {
        if !keyCols[i].isPk {
          return false;
        }
      }
      return true;
    }

    method SupportsUpsert() returns (r: bool)
      ensures r == SupportsUpsertHere(Current())
    {
      if UpsertRequiresPK(env.server.dialect) {
        r := HasRealPK();
        return;
      }
      var keys := GetKeyColumns();
      r := |keys| > 0 && ImportGates.SupportsUpsert(Some(env.server));
    }

    method IsModeSupported(mode: ImportMode) returns (r: bool)
      ensures r == ModeSupported(Current(), mode)
    {
      match mode {
        case InsertIgnore =>
          if IgnoreRequiresPK(env.server.dialect) {
            r := HasRealPK();
          } else {
            r := SupportsInsertIgnore(Some(env.server));
          }
        case InsertUpdate =>
          r := SupportsUpsert();
        case UpdateInsert =>
          r := SupportsUpsert();
        case Upsert =>
          r := SupportsUpsert();
        case _ =>
          r := false;
      }
    }

    // -------------------------------------------------------------------
    // Plain INSERT

    /** Quoted display names joined by `,`: the column lists of the INSERT, ON CONFLICT and MATCHING clauses. */
    method QuotedList(cols: seq<Column>) returns (r: string)
      ensures r == Join(Map(DisplayQuoted(env), cols), ",")
    {
      r := "";
      for i := 0 to |cols|
        invariant r == Join(Map(DisplayQuoted(env), cols[..i]), ",")
      {
        MapPrefixStep(DisplayQuoted(env), cols, i);
        var colname := env.quote(cols[i].displayName);
        JoinSnoc(Map(DisplayQuoted(env), cols[..i]), colname, ",");
        if i > 0 {
          r := r + ",";
        }
        r := r + colname;
      }
      assert cols[..|cols|] == cols;
    }

    method CreateInsertStatement(constants: seq<Constant>, insertSqlStart: Option<string>) returns (r: string)
      ensures r == InsertText(Current(), constants, insertSqlStart)
    {
      r := InsertStatementWith(constants, insertSqlStart, "VALUES \n(");
    }

    /** The INSERT with a given opening of its value clause: `VALUES \n(` for the plain statement. */
    method InsertStatementWith(constants: seq<Constant>, insertSqlStart: Option<string>, valuesKeyword: string)
      returns (r: string)
      ensures r == InsertTextWith(Current(), constants, insertSqlStart, valuesKeyword)
    {
      var s := Current();
      var head := FirstNonBlank([insertSqlStart, env.insertForImport], "INSERT INTO") + " " + env.tableName + " (";
      var text := "";
      var parms := "";
      var colIndex := 0;
      for i := 0 to |targetColumns|
        invariant colIndex == i
        invariant text == Join(Map(DisplayQuoted(env), targetColumns[..i]), ",")
        invariant parms == Join(Map(TargetValue(s), targetColumns[..i]), ",")
      {
        var col := targetColumns[i];
        MapPrefixStep(DisplayQuoted(env), targetColumns, i);
        MapPrefixStep(TargetValue(s), targetColumns, i);
        var colname := env.quote(col.displayName);
        var value: string;
        var expr := Lookup(columnExpressions, colname);
        if expr.Some? && !IsBlank(expr.value) {
          value := expr.value;
        } else {
          value := env.dmlExpression(col);
        }
        assert value == TargetValue(s)(col);
        JoinSnoc(Map(DisplayQuoted(env), targetColumns[..i]), colname, ",");
        JoinSnoc(Map(TargetValue(s), targetColumns[..i]), value, ",");
        if colIndex > 0 {
          text := text + ",";
          parms := parms + ",";
        }
        text := text + colname;
        parms := parms + value;
        colIndex := colIndex + 1;
      }
      assert targetColumns[..|targetColumns|] == targetColumns;
      var constCols := "";
      var constParms := "";
      for i := 0 to |constants|
        invariant constCols == PrefixEach(Map(ConstColumnName, constants[..i]), ",")
        invariant constParms == PrefixEach(Map(ConstValue, constants[..i]), ",")
      {
        MapPrefixStep(ConstColumnName, constants, i);
        MapPrefixStep(ConstValue, constants, i);
        var value: string;
        if constants[i].functionLiteral.Some? {
          value := constants[i].functionLiteral.value;
        } else {
          value := "?";
        }
        assert value == ConstValue(constants[i]);
        PrefixEachSnoc(Map(ConstColumnName, constants[..i]), constants[i].column.columnName, ",");
        PrefixEachSnoc(Map(ConstValue, constants[..i]), value, ",");
        constCols := constCols + "," + constants[i].column.columnName;
        constParms := constParms + "," + value;
      }
      assert constants[..|constants|] == constants;
      var over := OverrideClause();
      r := head + (text + constCols) + ")\n" + over + valuesKeyword + (parms + constParms) + ")";
    }

    /** `appendOverride`: the OVERRIDING clause the override mode asks for, if any. */
    method OverrideClause() returns (r: string)
      ensures r == OverrideText(overrideIdentity)
    {
      r := "";
      if overrideIdentity.None? {
        return;
      }
      match overrideIdentity.value {
        case OverrideSystem =>
          r := "OVERRIDING SYSTEM VALUE \n";
        case OverrideUser =>
          r := "OVERRIDING USER VALUE \n";
        case OverrideNone =>
      }
    }

    // -------------------------------------------------------------------
    // Dialect builders

    method CreatePostgresUpsert(constants: seq<Constant>, insertSqlStart: Option<string>, useIgnore: bool)
      returns (r: SqlResult)
      ensures r == PostgresText(Current(), constants, insertSqlStart, useIgnore)
    {
      var s := Current();
      var keyCols := GetKeyColumns();
      if |keyCols| == 0 {
        return NoStatement;
      }
      var insert := CreateInsertStatement(constants, insertSqlStart);
      insert := insert + "\nON CONFLICT";
      if useIgnore {
        return Sql(insert + "\nDO NOTHING");
      }
      var keyList := QuotedList(keyCols);
      var sets, colCount := AppendExcluded(env, keyCols, targetColumns, 0);
      var more;
      more, colCount := AppendExcluded(env, keyCols, Map(ConstColumn, constants), colCount);
      JoinAppend(Map(ExcludedAssignment(env), Filter(NotInKeys(env, keyCols), targetColumns)),
                 Map(ExcludedAssignment(env), Filter(NotInKeys(env, keyCols), Map(ConstColumn, constants))), PgSetSeparator);
      MapAppend(ExcludedAssignment(env), Filter(NotInKeys(env, keyCols), targetColumns),
                Filter(NotInKeys(env, keyCols), Map(ConstColumn, constants)));
      sets := sets + more;
      r := Sql(insert + " (" + keyList + ")\nDO UPDATE\n  SET " + sets);
    }

    method CreateMySqlUpsert(constants: seq<Constant>, insertSqlStart: Option<string>, useIgnore: bool)
      returns (r: SqlResult)
      ensures r == MySqlText(Current(), constants, insertSqlStart, useIgnore)
    {
      var insert := CreateInsertStatement(constants, insertSqlStart);
      insert := insert + "\nON DUPLICATE KEY UPDATE \n  ";
      if useIgnore {
        if |targetColumns| == 0 {
          // reading the first target column throws
          return Failure;
        }
        var colname := env.quote(targetColumns[0].displayName);
        return Sql(insert + " " + colname + " = " + colname);
      }
      var sets := "";
      for i := 0 to |targetColumns|
        invariant sets == Join(Map(ValuesAssignment(env), targetColumns[..i]), ",\n  ")
      {
        MapPrefixStep(ValuesAssignment(env), targetColumns, i);
        var colname := env.quote(targetColumns[i].displayName);
        var piece := colname + " = VALUES(" + colname + ")";
        JoinSnoc(Map(ValuesAssignment(env), targetColumns[..i]), piece, ",\n  ");
        if i > 0 {
          sets := sets + ",\n  ";
        }
        sets := sets + piece;
      }
      assert targetColumns[..|targetColumns|] == targetColumns;
      r := Sql(insert + sets);
    }

    method CreateOracleInsertIgnore(constants: seq<Constant>) returns (r: string)
      ensures r == OracleIgnoreText(Current(), constants)
    {
      var keyCols := GetKeyColumns();
      var names := "";
      for i := 0 to |keyCols|
        invariant names == Join(Map(DisplayName, keyCols[..i]), ",")
      {
        MapPrefixStep(DisplayName, keyCols, i);
        JoinSnoc(Map(DisplayName, keyCols[..i]), keyCols[i].displayName, ",");
        if i > 0 {
          names := names + ",";
        }
        names := names + keyCols[i].displayName;
      }
      assert keyCols[..|keyCols|] == keyCols;
      var start := "INSERT /*+ IGNORE_ROW_ON_DUPKEY_INDEX (" + env.rawTableName + " (" + names + ")) */ INTO ";
      r := CreateInsertStatement(constants, Some(start));
    }

    method CreateHanaUpsert(constants: seq<Constant>) returns (r: SqlResult)
      ensures r == HanaText(Current(), constants)
    {
      var keys := GetKeyColumns();
      if |keys| == 0 {
        return NoStatement;
      }
      var insert := CreateInsertStatement(constants, Some("UPSERT "));
      r := Sql(insert + " WITH PRIMARY KEY");
    }

    method CreateH2Upsert(constants: seq<Constant>) returns (r: string)
      ensures r == H2Text(Current(), constants)
    {
      var insert := CreateInsertStatement(constants, None);
      r := Replace(insert, "INSERT INTO", "MERGE INTO");
    }

    method CreateFirebirdUpsert(constants: seq<Constant>) returns (r: string)
      ensures r == FirebirdText(Current(), constants)
    {
      var insert := CreateInsertStatement(constants, None);
      insert := Replace(insert, "INSERT INTO", "UPDATE OR INSERT INTO");
      var keyCols := GetKeyColumns();
      if |keyCols| > 0 {
        var keyList := QuotedList(keyCols);
        insert := insert + "\nMATCHING (" + keyList + ")";
      }
      r := insert;
    }

    method CreateSqlAnywhereStatement(constants: seq<Constant>, useIgnore: bool) returns (r: string)
      ensures r == SqlAnywhereText(Current(), constants, useIgnore)
    {
      var insert := CreateInsertStatement(constants, None);
      if useIgnore {
        r := Replace(insert, ") VALUES (", ") ON EXISTING SKIP VALUES (");
      } else {
        r := Replace(insert, ") VALUES (", ") ON EXISTING UPDATE VALUES (");
      }
    }

    /** The SQL Anywhere statement as evidently intended: ON EXISTING right before the value clause. */
    method CreateSqlAnywhereStatementCorrected(constants: seq<Constant>, useIgnore: bool) returns (r: string)
      ensures r == SqlAnywhereTextCorrected(Current(), constants, useIgnore)
    {
      var clause := if useIgnore then "ON EXISTING SKIP " else "ON EXISTING UPDATE ";
      r := InsertStatementWith(constants, None, clause + ValuesKeyword);
    }

    // -------------------------------------------------------------------
    // MERGE

    method CreateStandardMerge(constants: seq<Constant>, insertOnly: bool, usingKeyword: string) returns (r: string)
      ensures r == StandardMergeText(Current(), constants, insertOnly, usingKeyword)
    {
      var row := "";
      var colIndex := 0;
      for i := 0 to |targetColumns|
        invariant colIndex == i
        invariant row == Join(MergeRowAsWritten(constants, i), ",")
      {
        var value: string;
        if i < |constants| && constants[i].functionLiteral.Some? {
          value := constants[i].functionLiteral.value;
        } else {
          value := "?";
        }
        JoinSnoc(MergeRowAsWritten(constants, i), value, ",");
        if colIndex > 0 {
          row := row + ",";
        }
        row := row + value;
        colIndex := colIndex + 1;
      }
      var valsCols := QuotedList(targetColumns);
      var keyCols := GetKeyColumns();
      var conditions := KeyConditions(keyCols);
      var section := MergeMatchClauses(insertOnly, constants);
      r := "MERGE INTO " + env.tableName + " AS tg\n" + usingKeyword + "(\n  VALUES (" + row
        + ")\n) AS vals (" + valsCols + ")\n  ON " + conditions + section;
    }

    /** The standard MERGE as evidently intended: the constants' values and names travel in the source row. */
    method CreateStandardMergeCorrected(constants: seq<Constant>, insertOnly: bool, usingKeyword: string) returns (r: string)
      ensures r == StandardMergeTextCorrected(Current(), constants, insertOnly, usingKeyword)
    {
      var row := CorrectedMergeRow(constants);
      var valsCols := CorrectedMergeVals(constants);
      var keyCols := GetKeyColumns();
      var conditions := KeyConditions(keyCols);
      var section := MergeMatchClauses(insertOnly, constants);
      r := "MERGE INTO " + env.tableName + " AS tg\n" + usingKeyword + "(\n  VALUES (" + row
        + ")\n) AS vals (" + valsCols + ")\n  ON " + conditions + section;
    }

    /** A marker per target, then each constant's value. */
    method CorrectedMergeRow(constants: seq<Constant>) returns (r: string)
      ensures r == Join(MergeRowCorrected(Current(), constants), ",")
    {
      var row := "";
      for i := 0 to |targetColumns|
        invariant row == Join(Map(Placeholder, targetColumns[..i]), ",")
      {
        MapPrefixStep(Placeholder, targetColumns, i);
        JoinSnoc(Map(Placeholder, targetColumns[..i]), "?", ",");
        if i > 0 {
          row := row + ",";
        }
        row := row + "?";
      }
      assert targetColumns[..|targetColumns|] == targetColumns;
      var constRow := "";
      for i := 0 to |constants|
        invariant constRow == JoinOnto(Map(ConstValue, constants[..i]), ",", |targetColumns| > 0)
      {
        MapPrefixStep(ConstValue, constants, i);
        var value: string;
        if constants[i].functionLiteral.Some? {
          value := constants[i].functionLiteral.value;
        } else {
          value := "?";
        }
        JoinOntoSnoc(Map(ConstValue, constants[..i]), value, ",", |targetColumns| > 0);
        if i > 0 || |targetColumns| > 0 {
          constRow := constRow + ",";
        }
        constRow := constRow + value;
      }
      assert constants[..|constants|] == constants;
      JoinAppend(Map(Placeholder, targetColumns), Map(ConstValue, constants), ",");
      r := row + constRow;
    }

    /** The `vals` column names: quoted target display names, then quoted constant column names. */
    method CorrectedMergeVals(constants: seq<Constant>) returns (r: string)
      ensures r == Join(MergeValsCorrected(Current(), constants), ",")
    {
      var valsCols := QuotedList(targetColumns);
      var constCols := "";
      ghost var cs := Map(ConstColumn, constants);
      for i := 0 to |constants|
        invariant constCols == JoinOnto(Map(NameQuoted(env), cs[..i]), ",", |targetColumns| > 0)
      {
        MapPrefixStep(ConstColumn, constants, i);
        MapPrefixStep(NameQuoted(env), cs, i);
        var colname := env.quote(constants[i].column.columnName);
        JoinOntoSnoc(Map(NameQuoted(env), cs[..i]), colname, ",", |targetColumns| > 0);
        if i > 0 || |targetColumns| > 0 {
          constCols := constCols + ",";
        }
        constCols := constCols + colname;
      }
      assert cs[..|constants|] == cs;
      JoinAppend(Map(DisplayQuoted(env), targetColumns), Map(NameQuoted(env), cs), ",");
      r := valsCols + constCols;
    }

    /** The key conditions `tg.k = vals.k`, in key order, joined by AND. */
    method KeyConditions(keyCols: seq<Column>) returns (r: string)
      ensures r == Join(Map(OnCondition(env), keyCols), " AND ")
    {
      r := "";
      var colIndex := 0;
      for i := 0 to |keyCols|
        invariant colIndex == i
        invariant r == Join(Map(OnCondition(env), keyCols[..i]), " AND ")
      {
        MapPrefixStep(OnCondition(env), keyCols, i);
        var colname := env.quote(keyCols[i].displayName);
        var piece := "tg." + colname + " = vals." + colname;
        JoinSnoc(Map(OnCondition(env), keyCols[..i]), piece, " AND ");
        if colIndex > 0 {
          r := r + " AND ";
        }
        r := r + piece;
        colIndex := colIndex + 1;
      }
      assert keyCols[..|keyCols|] == keyCols;
    }

    /** `appendMergeMatchSection`: WHEN MATCHED (unless insert-only) and WHEN NOT MATCHED. */
    method MergeMatchClauses(insertOnly: bool, constants: seq<Constant>) returns (r: string)
      ensures r == MergeMatchSection(Current(), constants, insertOnly)
    {
      var matched := "";
      if !insertOnly {
        var sets := MergeSetList(constants);
        matched := "\nWHEN MATCHED THEN UPDATE\n  SET " + sets;
      }
      var insertCols, valueCols, colIndex := AppendInsertNames(targetColumns, DisplayQuoted(env), 0);
      var moreCols, moreValues;
      moreCols, moreValues, colIndex := AppendInsertNames(Map(ConstColumn, constants), NameQuoted(env), colIndex);
      ghost var a := Map(DisplayQuoted(env), targetColumns);
      ghost var b := Map(NameQuoted(env), Map(ConstColumn, constants));
      JoinAppend(a, b, ", ");
      JoinAppend(Map(ValsReference, a), Map(ValsReference, b), ", ");
      MapAppend(ValsReference, a, b);
      insertCols := insertCols + moreCols;
      valueCols := valueCols + moreValues;
      r := matched + "\nWHEN NOT MATCHED THEN INSERT\n  (" + insertCols + ")\nVALUES\n  (" + valueCols + ")";
    }

    /** The SET list of WHEN MATCHED: every non-key target, then every non-key constant column. */
    method MergeSetList(constants: seq<Constant>) returns (r: string)
      ensures r == Join(Map(MergeAssignment, MergeSetNames(Current(), constants)), PgSetSeparator)
    {
      var colIndex, more;
      r, colIndex := AppendSetAssignments(Current(), targetColumns, DisplayQuoted(env), 0);
      more, colIndex := AppendSetAssignments(Current(), Map(ConstColumn, constants), NameQuoted(env), colIndex);
      ghost var a := Map(DisplayQuoted(env), Filter(NotKeyColumn(Current()), targetColumns));
      ghost var b := Map(NameQuoted(env), Filter(NotKeyColumn(Current()), Map(ConstColumn, constants)));
      JoinAppend(Map(MergeAssignment, a), Map(MergeAssignment, b), PgSetSeparator);
      MapAppend(MergeAssignment, a, b);
      r := r + more;
    }

    method CreateOracleMerge(constants: seq<Constant>) returns (r: string)
      ensures r == OracleMergeText(Current(), constants)
    {
      var select := "";
      for i := 0 to |targetColumns|
        invariant select == Join(Map(SelectAs(env), targetColumns[..i]), ",")
      {
        MapPrefixStep(SelectAs(env), targetColumns, i);
        var piece := "? AS " + env.quote(targetColumns[i].displayName);
        JoinSnoc(Map(SelectAs(env), targetColumns[..i]), piece, ",");
        if i > 0 {
          select := select + ",";
        }
        select := select + piece;
      }
      assert targetColumns[..|targetColumns|] == targetColumns;
      var constSelect := "";
      for i := 0 to |constants|
        invariant constSelect == PrefixEach(Map(ConstSelectAs(env), constants[..i]), ",")
      {
        MapPrefixStep(ConstSelectAs(env), constants, i);
        var value: string;
        if constants[i].functionLiteral.Some? {
          value := constants[i].functionLiteral.value;
        } else {
          value := "?";
        }
        var piece := value + " AS " + env.quote(constants[i].column.columnName);
        assert piece == ConstSelectAs(env)(constants[i]);
        PrefixEachSnoc(Map(ConstSelectAs(env), constants[..i]), piece, ",");
        constSelect := constSelect + "," + piece;
      }
      assert constants[..|constants|] == constants;
      var keyCols := GetKeyColumns();
      var conditions := KeyConditions(keyCols);
      var section := MergeMatchClauses(false, constants);
      r := "MERGE INTO " + env.tableName + " tg\n USING (\n  SELECT " + select + constSelect
        + " FROM DUAL\n) vals ON (" + conditions + ")" + section;
    }

    // -------------------------------------------------------------------
    // Dispatch

    /** `createInsertIgnore`. */
    method CreateInsertIgnore(constants: seq<Constant>, insertSqlStart: Option<string>) returns (r: SqlResult)
      ensures r == InsertIgnoreText(Current(), constants, insertSqlStart)
    {
      match env.server.dialect {
        case Postgres =>
          if AtLeast(env.server, 9, 5) {
            r := CreatePostgresUpsert(constants, insertSqlStart, true);
          } else {
            // no return in this case: control reaches the MySQL case
            r := CreateMySqlUpsert(constants, insertSqlStart, true);
          }
        case MySql =>
          r := CreateMySqlUpsert(constants, insertSqlStart, true);
        case MariaDb =>
          r := CreateMySqlUpsert(constants, insertSqlStart, true);
        case Cubrid =>
          r := CreateMySqlUpsert(constants, insertSqlStart, true);
        case Oracle =>
          var t := CreateOracleInsertIgnore(constants);
          r := Sql(t);
        case HsqlDb | Db2Luw | Db2Zos | SqlServer | SQLite | SqlAnywhere =>
          var t := InsertIgnoreStatement(constants);
          r := Sql(t);
        case _ =>
          r := NoStatement;
      }
    }

    /** The cases of `createInsertIgnore` that build a MERGE or an INSERT with a clause. */
    method InsertIgnoreStatement(constants: seq<Constant>) returns (t: string)
      requires env.server.dialect in {HsqlDb, Db2Luw, Db2Zos, SqlServer, SQLite, SqlAnywhere}
      ensures InsertIgnoreText(Current(), constants, None) == Sql(t)
    {
      IgnoreMergeCases(Current(), constants, None, false);
      IgnoreInsertCases(Current(), constants, None, false);
      match env.server.dialect {
        case HsqlDb =>
          t := CreateStandardMerge(constants, true, "USING ");
        case Db2Luw =>
          t := CreateStandardMerge(constants, true, "USING TABLE");
        case Db2Zos =>
          t := CreateStandardMerge(constants, true, "USING ");
        case SqlServer =>
          t := CreateStandardMerge(constants, true, "USING ");
          t := t + ";";
        case SQLite =>
          t := CreateInsertStatement(constants, Some("INSERT OR IGNORE "));
        case SqlAnywhere =>
          t := CreateSqlAnywhereStatement(constants, true);
      }
    }

    /** `createUpsertStatement`. */
    method CreateUpsertStatement(constants: seq<Constant>, insertSqlStart: Option<string>) returns (r: SqlResult)
      ensures r == UpsertText(Current(), constants, insertSqlStart)
    {
      match env.server.dialect {
        case Postgres =>
          if AtLeast(env.server, 9, 5) {
            r := CreatePostgresUpsert(constants, insertSqlStart, false);
          } else {
            // no return in this case: control reaches the MySQL case
            r := CreateMySqlUpsert(constants, insertSqlStart, false);
          }
        case MySql =>
          r := CreateMySqlUpsert(constants, insertSqlStart, false);
        case MariaDb =>
          r := CreateMySqlUpsert(constants, insertSqlStart, false);
        case H2 =>
          var t := CreateH2Upsert(constants);
          r := Sql(t);
        case Firebird =>
          var t := CreateFirebirdUpsert(constants);
          r := Sql(t);
        case Hana =>
          r := CreateHanaUpsert(constants);
        case Cubrid =>
          r := CreateMySqlUpsert(constants, None, false);
        case Oracle =>
          var t := CreateOracleMerge(constants);
          r := Sql(t);
        case HsqlDb | Db2Luw | Db2Zos | SqlServer | SQLite | SqlAnywhere =>
          var t := UpsertMergeStatement(constants);
          r := Sql(t);
        case _ =>
          r := NoStatement;
      }
    }

    /** The cases of `createUpsertStatement` that build a MERGE or an INSERT with a clause. */
    method UpsertMergeStatement(constants: seq<Constant>) returns (t: string)
      requires env.server.dialect in {HsqlDb, Db2Luw, Db2Zos, SqlServer, SQLite, SqlAnywhere}
      ensures UpsertText(Current(), constants, None) == Sql(t)
    {
      UpsertMergeCases(Current(), constants, None, false);
      UpsertInsertCases(Current(), constants, None, false);
      match env.server.dialect {
        case HsqlDb =>
          t := CreateStandardMerge(constants, false, "USING ");
        case Db2Luw =>
          t := CreateStandardMerge(constants, false, "USING TABLE");
        case Db2Zos =>
          t := CreateStandardMerge(constants, false, "USING ");
        case SqlServer =>
          t := CreateStandardMerge(constants, false, "USING ");
          t := t + ";";
        case SQLite =>
          t := CreateInsertStatement(constants, Some("INSERT OR REPLACE "));
        case SqlAnywhere =>
          t := CreateSqlAnywhereStatement(constants, false);
      }
    }
  }

  // ---------------------------------------------------------------------
  // Accumulation loops shared by the builders

  /**
   * The `col = EXCLUDED.col` assignments for the columns of `cols` not among the keys, as appended
   * after `count0` earlier ones: the separator precedes every assignment but the very first.
   */
  method AppendExcluded(env: Env, keyCols: seq<Column>, cols: seq<Column>, count0: nat) returns (part: string, colCount: nat)
    ensures part == JoinOnto(Map(ExcludedAssignment(env), Filter(NotInKeys(env, keyCols), cols)), PgSetSeparator, count0 > 0)
    ensures colCount == count0 + |Filter(NotInKeys(env, keyCols), cols)|
  {
    var notKey := NotInKeys(env, keyCols);
    part := "";
    colCount := count0;
    ghost var updated: seq<Column> := [];
    ghost var pieces: seq<string> := [];
    for i := 0 to |cols|
      invariant updated == Filter(notKey, cols[..i])
      invariant pieces == Map(ExcludedAssignment(env), updated)
      invariant colCount == count0 + |pieces|
      invariant part == JoinOnto(pieces, PgSetSeparator, count0 > 0)
    {
      FilterPrefixStep(notKey, cols, i);
      var col := cols[i];
      if !notKey(col) {
        continue;
      }
      var piece := ExcludedAssignment(env)(col);
      var sep := if colCount > 0 then PgSetSeparator else "";
      MapSnoc(ExcludedAssignment(env), updated, col);
      JoinOntoSnoc(pieces, piece, PgSetSeparator, count0 > 0);
      part := part + sep + piece;
      colCount := colCount + 1;
      updated := updated + [col];
      pieces := pieces + [piece];
    }
    assert cols[..|cols|] == cols;
  }

  /** Each column's quoted name for the INSERT list and `vals.` plus that name for the VALUES list. */
  method AppendInsertNames(cols: seq<Column>, quoted: Column -> string, count0: nat)
    returns (insertCols: string, valueCols: string, colIndex: nat)
    ensures insertCols == JoinOnto(Map(quoted, cols), ", ", count0 > 0)
    ensures valueCols == JoinOnto(Map(ValsReference, Map(quoted, cols)), ", ", count0 > 0)
    ensures colIndex == count0 + |cols|
  {
    insertCols, valueCols := "", "";
    colIndex := count0;
    ghost var names: seq<string> := [];
    for i := 0 to |cols|
      invariant names == Map(quoted, cols[..i]) && |names| == i
      invariant colIndex == count0 + i
      invariant insertCols == JoinOnto(names, ", ", count0 > 0)
      invariant valueCols == JoinOnto(Map(ValsReference, names), ", ", count0 > 0)
    {
      MapPrefixStep(quoted, cols, i);
      var colname := quoted(cols[i]);
      var sep := if colIndex > 0 then ", " else "";
      NamesStep(names, colname, count0 > 0, insertCols, valueCols, sep);
      insertCols := insertCols + sep + colname;
      valueCols := valueCols + sep + ("vals." + colname);
      colIndex := colIndex + 1;
      names := names + [colname];
    }
    assert cols[..|cols|] == cols;
  }

  /** One more name in both lists. */
  lemma NamesStep(names: seq<string>, colname: string, started: bool, insertCols: string, valueCols: string, sep: string)
    requires insertCols == JoinOnto(names, ", ", started)
    requires valueCols == JoinOnto(Map(ValsReference, names), ", ", started)
    requires sep == if started || |names| > 0 then ", " else ""
    ensures insertCols + sep + colname == JoinOnto(names + [colname], ", ", started)
    ensures valueCols + sep + ("vals." + colname) == JoinOnto(Map(ValsReference, names + [colname]), ", ", started)
  {
    MapSnoc(ValsReference, names, colname);
    JoinOntoSnoc(names, colname, ", ", started);
    JoinOntoSnoc(Map(ValsReference, names), ValsReference(colname), ", ", started);
  }

  /** The `tg.c = vals.c` assignments for the columns of `cols` that are not key columns, after `count0` earlier ones. */
  method AppendSetAssignments(s: Setup, cols: seq<Column>, quoted: Column -> string, count0: nat)
    returns (sets: string, colIndex: nat)
    ensures sets == JoinOnto(Map(MergeAssignment, Map(quoted, Filter(NotKeyColumn(s), cols))), PgSetSeparator, count0 > 0)
    ensures colIndex == count0 + |Filter(NotKeyColumn(s), cols)|
  {
    sets := "";
    colIndex := count0;
    ghost var updated: seq<Column> := [];
    ghost var pieces: seq<string> := [];
    for i := 0 to |cols|
      invariant updated == Filter(NotKeyColumn(s), cols[..i])
      invariant pieces == Map(MergeAssignment, Map(quoted, updated))
      invariant colIndex == count0 + |pieces|
      invariant sets == JoinOnto(pieces, PgSetSeparator, count0 > 0)
    {
      FilterPrefixStep(NotKeyColumn(s), cols, i);
      var col := cols[i];
      if IsKeyColumn(s, col) {
        continue;
      }
      var colname := quoted(col);
      var piece := "tg." + colname + " = vals." + colname;
      var sep := if colIndex > 0 then PgSetSeparator else "";
      MapSnoc(quoted, updated, col);
      MapSnoc(MergeAssignment, Map(quoted, updated), colname);
      JoinOntoSnoc(pieces, piece, PgSetSeparator, count0 > 0);
      sets := sets + sep + piece;
      colIndex := colIndex + 1;
      updated := updated + [col];
      pieces := pieces + [piece];
    }
    assert cols[..|cols|] == cols;
  }
}
