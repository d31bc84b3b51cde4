/**
 * The import DML statement builder: for a target table, its ordered columns
 * (with primary-key flags), optional explicit key columns, optional constant
 * columns and an optional identity-override mode it produces one
 * parameterised INSERT, "insert ignore" or "upsert" statement in the dialect
 * of the connected DBMS.
 *
 * The statements are first described by functions over a `Setup` value
 * (the builder's fields plus its collaborators); the class
 * `ImportDmlStatementBuilder` then builds the same text with the loops of the
 * original and is proved to produce exactly those functions' results.
 */
module ImportDml {
  import opened Text
  import opened Seqs
  import opened ImportGates

  /** `ColumnIdentifier`: the name shown (and quoted) in statements, the plain column name, the PK flag. */
  datatype Column = Column(displayName: string, columnName: string, isPk: bool)

  /** One entry of `ConstantColumnValues`: the column and, for a function call, its SQL literal. */
  datatype Constant = Constant(column: Column, functionLiteral: Option<string>)

  datatype OverrideIdentity = OverrideNone | OverrideSystem | OverrideUser

  datatype ImportMode = Insert | Update | InsertUpdate | UpdateInsert | InsertIgnore | Upsert

  /** A built statement, `null`, or a runtime exception. */
  datatype SqlResult = Sql(text: string) | NoStatement | Failure

  /**
   * The collaborators of the builder: the server, `QuoteHandler.quoteObjectname`,
   * `DmlExpressionBuilder.getDmlExpression(col, Import)`, `ColumnIdentifier.equals`,
   * the table's qualified and raw names and `DbSettings.getInsertForImport`.
   */
  datatype Env = Env(
    server: Server,
    quote: string -> string,
    dmlExpression: Column -> string,
    sameColumn: (Column, Column) -> bool,
    tableName: string,
    rawTableName: string,
    insertForImport: Option<string>)

  /** The builder's state: collaborators, target columns, explicit keys, column expressions, override mode. */
  datatype Setup = Setup(
    env: Env,
    targets: seq<Column>,
    keyColumns: seq<Column>,
    expressions: map<string, string>,
    overrideIdentity: Option<OverrideIdentity>)

  // ---------------------------------------------------------------------
  // Keys

  function IsPk(c: Column): bool { c.isPk }

  /** `getPKColumns`: the PK-flagged targets in target order. */
  function PkColumns(targets: seq<Column>): seq<Column>
  {
    Filter(IsPk, targets)
  }

  /** `getKeyColumns`: the explicit keys, or the PK columns when there are none. */
  function ResolvedKeys(s: Setup): seq<Column>
  {
    if |s.keyColumns| == 0 then PkColumns(s.targets) else s.keyColumns
  }

  /** `hasRealPK` over a key list: non-empty and every key is PK-flagged. */
  predicate HasRealPk(keys: seq<Column>)
  {
    |keys| > 0 && forall i :: 0 <= i < |keys| ==> keys[i].isPk
  }

  /** `List.contains`, with `ColumnIdentifier.equals` as the equality. */
  predicate ContainsColumn(env: Env, keys: seq<Column>, col: Column)
  {
    exists i :: 0 <= i < |keys| && env.sameColumn(col, keys[i])
  }

  /** `isKeyColumn`: PK-flagged, or contained in the resolved keys. */
  predicate IsKeyColumn(s: Setup, col: Column)
  {
    col.isPk || ContainsColumn(s.env, ResolvedKeys(s), col)
  }

  // ---------------------------------------------------------------------
  // Capability of this builder

  /** `supportsUpsert()`: PK-requiring dialects need a real PK, the others keys and server support. */
  predicate SupportsUpsertHere(s: Setup)
  {
    if UpsertRequiresPK(s.env.server.dialect) then HasRealPk(ResolvedKeys(s))
    else |ResolvedKeys(s)| > 0 && SupportsUpsert(Some(s.env.server))
  }

  /** `isModeSupported`. */
  predicate ModeSupported(s: Setup, mode: ImportMode)
  {
    match mode
    case InsertIgnore =>
      if IgnoreRequiresPK(s.env.server.dialect) then HasRealPk(ResolvedKeys(s))
      else SupportsInsertIgnore(Some(s.env.server))
    case InsertUpdate => SupportsUpsertHere(s)
    case UpdateInsert => SupportsUpsertHere(s)
    case Upsert => SupportsUpsertHere(s)
    case _ => false
  }

  // ---------------------------------------------------------------------
  // Column expressions: a map with case-insensitive keys

  /** The `TreeMap` with case-insensitive ordering after `putAll(entries)`: later equal keys replace the value. */
  function CaseInsensitiveMap(entries: seq<(string, string)>): map<string, string>
  {
    if |entries| == 0 then map[]
    else CaseInsensitiveMap(entries[..|entries| - 1])[Lower(entries[|entries| - 1].0) := entries[|entries| - 1].1]
  }

  function Lookup(m: map<string, string>, key: string): Option<string>
  {
    if Lower(key) in m then Some(m[Lower(key)]) else None
  }

  // ---------------------------------------------------------------------
  // Per-column pieces

  function DisplayQuoted(env: Env): Column -> string
  {
    (c: Column) => env.quote(c.displayName)
  }

  function NameQuoted(env: Env): Column -> string
  {
    (c: Column) => env.quote(c.columnName)
  }

  function DisplayName(c: Column): string { c.displayName }

  function ConstColumn(k: Constant): Column { k.column }

  function ConstColumnName(k: Constant): string { k.column.columnName }

  /** A constant's value: its function literal, or a parameter marker. */
  function ConstValue(k: Constant): string
  {
    if k.functionLiteral.Some? then k.functionLiteral.value else "?"
  }

  /** A target's value: its non-blank column expression (looked up by quoted name), otherwise the DML expression. */
  function TargetValue(s: Setup): Column -> string
  {
    (c: Column) =>
      var e := Lookup(s.expressions, s.env.quote(c.displayName));
      if e.Some? && !IsBlank(e.value) then e.value else s.env.dmlExpression(c)
  }

  // ---------------------------------------------------------------------
  // Plain INSERT

  const ValuesKeyword := "VALUES \n("

  function InsertPrefix(s: Setup, start: Option<string>): string
  {
    FirstNonBlank([start, s.env.insertForImport], "INSERT INTO")
  }

  function InsertHead(s: Setup, start: Option<string>): string
  {
    InsertPrefix(s, start) + " " + s.env.tableName + " ("
  }

  /** `appendOverride`. */
  function OverrideText(o: Option<OverrideIdentity>): string
  {
    match o
    case Some(OverrideSystem) => "OVERRIDING SYSTEM VALUE \n"
    case Some(OverrideUser) => "OVERRIDING USER VALUE \n"
    case _ => ""
  }

  /** The column list: quoted targets joined by `,`, then each constant's plain name after a `,`. */
  function InsertColumnsText(s: Setup, ks: seq<Constant>): string
  {
    Join(Map(DisplayQuoted(s.env), s.targets), ",") + PrefixEach(Map(ConstColumnName, ks), ",")
  }

  /** The value list, built the same way. */
  function InsertValuesText(s: Setup, ks: seq<Constant>): string
  {
    Join(Map(TargetValue(s), s.targets), ",") + PrefixEach(Map(ConstValue, ks), ",")
  }

  /** An INSERT whose value clause opens with `values` (the plain one uses `ValuesKeyword`). */
  function InsertTextWith(s: Setup, ks: seq<Constant>, start: Option<string>, values: string): string
  {
    InsertHead(s, start) + InsertColumnsText(s, ks) + ")\n" + OverrideText(s.overrideIdentity)
      + values + InsertValuesText(s, ks) + ")"
  }

  /** `createInsertStatement`. */
  function InsertText(s: Setup, ks: seq<Constant>, start: Option<string>): string
  {
    InsertTextWith(s, ks, start, ValuesKeyword)
  }

  // ---------------------------------------------------------------------
  // Postgres: INSERT ... ON CONFLICT

  function NotInKeys(env: Env, keys: seq<Column>): Column -> bool
  {
    (c: Column) => !ContainsColumn(env, keys, c)
  }

  function ExcludedAssignment(env: Env): Column -> string
  {
    (c: Column) => env.quote(c.displayName) + " = EXCLUDED." + env.quote(c.displayName)
  }

  /** The columns Postgres updates: targets, then constant columns, none contained in the keys. */
  function PostgresUpdated(s: Setup, ks: seq<Constant>): seq<Column>
  {
    var keys := ResolvedKeys(s);
    Filter(NotInKeys(s.env, keys), s.targets) + Filter(NotInKeys(s.env, keys), Map(ConstColumn, ks))
  }

  const PgSetSeparator := ",\n      "

  /** `createPostgresUpsert`. */
  function PostgresText(s: Setup, ks: seq<Constant>, start: Option<string>, ignore: bool): SqlResult
  {
    var keys := ResolvedKeys(s);
    if |keys| == 0 then NoStatement
    else
      var insert := InsertText(s, ks, start) + "\nON CONFLICT";
      if ignore then Sql(insert + "\nDO NOTHING")
      else Sql(insert + " (" + Join(Map(DisplayQuoted(s.env), keys), ",") + ")\nDO UPDATE\n  SET "
               + Join(Map(ExcludedAssignment(s.env), PostgresUpdated(s, ks)), PgSetSeparator))
  }

  // ---------------------------------------------------------------------
  // MySQL / MariaDB / Cubrid: INSERT ... ON DUPLICATE KEY UPDATE

  function ValuesAssignment(env: Env): Column -> string
  {
    (c: Column) => env.quote(c.displayName) + " = VALUES(" + env.quote(c.displayName) + ")"
  }

  /** `createMySQLUpsert`; the ignore form reads the first target column, which throws when there is none. */
  function MySqlText(s: Setup, ks: seq<Constant>, start: Option<string>, ignore: bool): SqlResult
  {
    var insert := InsertText(s, ks, start) + "\nON DUPLICATE KEY UPDATE \n  ";
    if ignore then
      if |s.targets| == 0 then Failure
      else
        var q := s.env.quote(s.targets[0].displayName);
        Sql(insert + " " + q + " = " + q)
    else Sql(insert + Join(Map(ValuesAssignment(s.env), s.targets), ",\n  "))
  }

  // ---------------------------------------------------------------------
  // Oracle insert-ignore hint, HANA, H2, Firebird, SQL Anywhere

  /** The Oracle hint: raw table name and the unquoted key names joined by `,`. */
  function OracleHint(s: Setup): string
  {
    "INSERT /*+ IGNORE_ROW_ON_DUPKEY_INDEX (" + s.env.rawTableName + " ("
      + Join(Map(DisplayName, ResolvedKeys(s)), ",") + ")) */ INTO "
  }

  /** `createOracleInsertIgnore`. */
  function OracleIgnoreText(s: Setup, ks: seq<Constant>): string
  {
    InsertText(s, ks, Some(OracleHint(s)))
  }

  /** `createHanaUpsert`. */
  function HanaText(s: Setup, ks: seq<Constant>): SqlResult
  {
    if |ResolvedKeys(s)| == 0 then NoStatement
    else Sql(InsertText(s, ks, Some("UPSERT ")) + " WITH PRIMARY KEY")
  }

  /** `createH2Upsert`. */
  function H2Text(s: Setup, ks: seq<Constant>): string
  {
    Replace(InsertText(s, ks, None), "INSERT INTO", "MERGE INTO")
  }

  /** `createFirebirdUpsert`. */
  function FirebirdText(s: Setup, ks: seq<Constant>): string
  {
    var insert := Replace(InsertText(s, ks, None), "INSERT INTO", "UPDATE OR INSERT INTO");
    var keys := ResolvedKeys(s);
    if |keys| > 0 then insert + "\nMATCHING (" + Join(Map(DisplayQuoted(s.env), keys), ",") + ")"
    else insert
  }

  const AnywhereFragment := ") VALUES ("

  /** `createSQLAnywhereStatement`, as written: rewrites the fragment `) VALUES (`. */
  function SqlAnywhereText(s: Setup, ks: seq<Constant>, ignore: bool): string
  {
    Replace(InsertText(s, ks, None), AnywhereFragment,
            if ignore then ") ON EXISTING SKIP VALUES (" else ") ON EXISTING UPDATE VALUES (")
  }

  /** The SQL Anywhere statement as evidently intended: the ON EXISTING clause right before VALUES. */
  function SqlAnywhereTextCorrected(s: Setup, ks: seq<Constant>, ignore: bool): string
  {
    InsertTextWith(s, ks, None, (if ignore then "ON EXISTING SKIP " else "ON EXISTING UPDATE ") + ValuesKeyword)
  }

  // ---------------------------------------------------------------------
  // MERGE statements

  function OnCondition(env: Env): Column -> string
  {
    (c: Column) => "tg." + env.quote(c.displayName) + " = vals." + env.quote(c.displayName)
  }

  function MergeAssignment(q: string): string { "tg." + q + " = vals." + q }

  function ValsReference(q: string): string { "vals." + q }

  function NotKeyColumn(s: Setup): Column -> bool
  {
    (c: Column) => !IsKeyColumn(s, c)
  }

  /** The SET targets of WHEN MATCHED: non-key target display names, then non-key constant column names, quoted. */
  function MergeSetNames(s: Setup, ks: seq<Constant>): seq<string>
  {
    Map(DisplayQuoted(s.env), Filter(NotKeyColumn(s), s.targets))
      + Map(NameQuoted(s.env), Filter(NotKeyColumn(s), Map(ConstColumn, ks)))
  }

  /** The INSERT column list of WHEN NOT MATCHED: every target, then every constant column. */
  function MergeInsertNames(s: Setup, ks: seq<Constant>): seq<string>
  {
    Map(DisplayQuoted(s.env), s.targets) + Map(NameQuoted(s.env), Map(ConstColumn, ks))
  }

  /** `appendMergeMatchSection`. */
  function MergeMatchSection(s: Setup, ks: seq<Constant>, insertOnly: bool): string
  {
    (if insertOnly then ""
     else "\nWHEN MATCHED THEN UPDATE\n  SET " + Join(Map(MergeAssignment, MergeSetNames(s, ks)), PgSetSeparator))
    + "\nWHEN NOT MATCHED THEN INSERT\n  (" + Join(MergeInsertNames(s, ks), ", ")
    + ")\nVALUES\n  (" + Join(Map(ValsReference, MergeInsertNames(s, ks)), ", ") + ")"
  }

  /** Entry `i` of the standard MERGE's VALUES row, as written: constant `i`'s literal when it is a function call. */
  function RowEntryAsWritten(ks: seq<Constant>, i: nat): string
  {
    if i < |ks| && ks[i].functionLiteral.Some? then ks[i].functionLiteral.value else "?"
  }

  /** The VALUES row of the standard MERGE: one entry per target column. */
  function MergeRowAsWritten(ks: seq<Constant>, n: nat): (r: seq<string>)
    ensures |r| == n
  {
    if n == 0 then [] else MergeRowAsWritten(ks, n - 1) + [RowEntryAsWritten(ks, n - 1)]
  }

  /** `createStandardMerge`. */
  function StandardMergeText(s: Setup, ks: seq<Constant>, insertOnly: bool, using: string): string
  {
    "MERGE INTO " + s.env.tableName + " AS tg\n" + using + "(\n  VALUES ("
      + Join(MergeRowAsWritten(ks, |s.targets|), ",")
      + ")\n) AS vals (" + Join(Map(DisplayQuoted(s.env), s.targets), ",")
      + ")\n  ON " + Join(Map(OnCondition(s.env), ResolvedKeys(s)), " AND ")
      + MergeMatchSection(s, ks, insertOnly)
  }

  function Placeholder(c: Column): string { "?" }

  /** The VALUES row as evidently intended: a marker per target, then each constant's value. */
  function MergeRowCorrected(s: Setup, ks: seq<Constant>): seq<string>
  {
    Map(Placeholder, s.targets) + Map(ConstValue, ks)
  }

  /** The `vals (...)` names as evidently intended: targets, then constant columns. */
  function MergeValsCorrected(s: Setup, ks: seq<Constant>): seq<string>
  {
    MergeInsertNames(s, ks)
  }

  /** The standard MERGE with constants carried through the source row. */
  function StandardMergeTextCorrected(s: Setup, ks: seq<Constant>, insertOnly: bool, using: string): string
  {
    "MERGE INTO " + s.env.tableName + " AS tg\n" + using + "(\n  VALUES ("
      + Join(MergeRowCorrected(s, ks), ",")
      + ")\n) AS vals (" + Join(MergeValsCorrected(s, ks), ",")
      + ")\n  ON " + Join(Map(OnCondition(s.env), ResolvedKeys(s)), " AND ")
      + MergeMatchSection(s, ks, insertOnly)
  }

  function SelectAs(env: Env): Column -> string
  {
    (c: Column) => "? AS " + env.quote(c.displayName)
  }

  function ConstSelectAs(env: Env): Constant -> string
  {
    (k: Constant) => ConstValue(k) + " AS " + env.quote(k.column.columnName)
  }

  /** `createOracleMerge`. */
  function OracleMergeText(s: Setup, ks: seq<Constant>): string
  {
    "MERGE INTO " + s.env.tableName + " tg\n USING (\n  SELECT "
      + Join(Map(SelectAs(s.env), s.targets), ",") + PrefixEach(Map(ConstSelectAs(s.env), ks), ",")
      + " FROM DUAL\n) vals ON (" + Join(Map(OnCondition(s.env), ResolvedKeys(s)), " AND ") + ")"
      + MergeMatchSection(s, ks, false)
  }

  // ---------------------------------------------------------------------
  // Dispatch

  /** The standard MERGE, as written or corrected. */
  function MergeStatement(s: Setup, ks: seq<Constant>, insertOnly: bool, using: string, corrected: bool): string
  {
    if corrected then StandardMergeTextCorrected(s, ks, insertOnly, using) else StandardMergeText(s, ks, insertOnly, using)
  }

  /** The SQL Anywhere statement, as written or corrected. */
  function AnywhereStatement(s: Setup, ks: seq<Constant>, ignore: bool, corrected: bool): string
  {
    if corrected then SqlAnywhereTextCorrected(s, ks, ignore) else SqlAnywhereText(s, ks, ignore)
  }

  /**
   * The switch of `createInsertIgnore`, with the standard MERGE and the SQL
   * Anywhere statement as written or corrected. Postgres before 9.5 reaches
   * the MySQL case.
   */
  function InsertIgnoreDispatch(s: Setup, ks: seq<Constant>, start: Option<string>, corrected: bool): SqlResult
  {
    match s.env.server.dialect
    case Postgres =>
      if AtLeast(s.env.server, 9, 5) then PostgresText(s, ks, start, true)
      else MySqlText(s, ks, start, true)
    case MySql => MySqlText(s, ks, start, true)
    case MariaDb => MySqlText(s, ks, start, true)
    case Cubrid => MySqlText(s, ks, start, true)
    case Oracle => Sql(OracleIgnoreText(s, ks))
    case HsqlDb => Sql(MergeStatement(s, ks, true, "USING ", corrected))
    case Db2Luw => Sql(MergeStatement(s, ks, true, "USING TABLE", corrected))
    case Db2Zos => Sql(MergeStatement(s, ks, true, "USING ", corrected))
    case SqlServer => Sql(MergeStatement(s, ks, true, "USING ", corrected) + ";")
    case SQLite => Sql(InsertText(s, ks, Some("INSERT OR IGNORE ")))
    case SqlAnywhere => Sql(AnywhereStatement(s, ks, true, corrected))
    case _ => NoStatement
  }

  /** `createInsertIgnore` as written. */
  function InsertIgnoreText(s: Setup, ks: seq<Constant>, start: Option<string>): SqlResult
  {
    InsertIgnoreDispatch(s, ks, start, false)
  }

  /** `createInsertIgnore` with the corrected MERGE and SQL Anywhere statements. */
  function InsertIgnoreTextCorrected(s: Setup, ks: seq<Constant>, start: Option<string>): SqlResult
  {
    InsertIgnoreDispatch(s, ks, start, true)
  }

  /**
   * The switch of `createUpsertStatement`, with the standard MERGE and the
   * SQL Anywhere statement as written or corrected. Postgres before 9.5
   * again reaches the MySQL case; Cubrid drops the start text.
   */
  function UpsertDispatch(s: Setup, ks: seq<Constant>, start: Option<string>, corrected: bool): SqlResult
  {
    match s.env.server.dialect
    case Postgres =>
      if AtLeast(s.env.server, 9, 5) then PostgresText(s, ks, start, false)
      else MySqlText(s, ks, start, false)
    case MySql => MySqlText(s, ks, start, false)
    case MariaDb => MySqlText(s, ks, start, false)
    case H2 => Sql(H2Text(s, ks))
    case HsqlDb => Sql(MergeStatement(s, ks, false, "USING ", corrected))
    case Firebird => Sql(FirebirdText(s, ks))
    case Db2Luw => Sql(MergeStatement(s, ks, false, "USING TABLE", corrected))
    case Db2Zos => Sql(MergeStatement(s, ks, false, "USING ", corrected))
    case Hana => HanaText(s, ks)
    case Cubrid => MySqlText(s, ks, None, false)
    case Oracle => Sql(OracleMergeText(s, ks))
    case SqlServer => Sql(MergeStatement(s, ks, false, "USING ", corrected) + ";")
    case SQLite => Sql(InsertText(s, ks, Some("INSERT OR REPLACE ")))
    case SqlAnywhere => Sql(AnywhereStatement(s, ks, false, corrected))
    case _ => NoStatement
  }

  /** `createUpsertStatement` as written. */
  function UpsertText(s: Setup, ks: seq<Constant>, start: Option<string>): SqlResult
  {
    UpsertDispatch(s, ks, start, false)
  }

  /** `createUpsertStatement` with the corrected MERGE and SQL Anywhere statements. */
  function UpsertTextCorrected(s: Setup, ks: seq<Constant>, start: Option<string>): SqlResult
  {
    UpsertDispatch(s, ks, start, true)
  }

  /** The cases of `createInsertIgnore` that build a MERGE. */
  lemma IgnoreMergeCases(s: Setup, ks: seq<Constant>, start: Option<string>, corrected: bool)
    ensures s.env.server.dialect == HsqlDb ==> InsertIgnoreDispatch(s, ks, start, corrected) == Sql(MergeStatement(s, ks, true, "USING ", corrected))
    ensures s.env.server.dialect == Db2Luw ==> InsertIgnoreDispatch(s, ks, start, corrected) == Sql(MergeStatement(s, ks, true, "USING TABLE", corrected))
    ensures s.env.server.dialect == Db2Zos ==> InsertIgnoreDispatch(s, ks, start, corrected) == Sql(MergeStatement(s, ks, true, "USING ", corrected))
    ensures s.env.server.dialect == SqlServer ==> InsertIgnoreDispatch(s, ks, start, corrected) == Sql(MergeStatement(s, ks, true, "USING ", corrected) + ";")
  {
    var d := s.env.server.dialect;
    if d == HsqlDb {
    } else if d == Db2Luw {
    } else if d == Db2Zos {
    } else if d == SqlServer {
    }
  }

  /** The cases of `createInsertIgnore` that build an INSERT. */
  lemma IgnoreInsertCases(s: Setup, ks: seq<Constant>, start: Option<string>, corrected: bool)
    ensures s.env.server.dialect == SQLite ==> InsertIgnoreDispatch(s, ks, start, corrected) == Sql(InsertText(s, ks, Some("INSERT OR IGNORE ")))
    ensures s.env.server.dialect == SqlAnywhere ==> InsertIgnoreDispatch(s, ks, start, corrected) == Sql(AnywhereStatement(s, ks, true, corrected))
  {
    var d := s.env.server.dialect;
    if d == SQLite {
    } else if d == SqlAnywhere {
    }
  }

  /** The cases of `createUpsertStatement` that build a MERGE. */
  lemma UpsertMergeCases(s: Setup, ks: seq<Constant>, start: Option<string>, corrected: bool)
    ensures s.env.server.dialect == HsqlDb ==> UpsertDispatch(s, ks, start, corrected) == Sql(MergeStatement(s, ks, false, "USING ", corrected))
    ensures s.env.server.dialect == Db2Luw ==> UpsertDispatch(s, ks, start, corrected) == Sql(MergeStatement(s, ks, false, "USING TABLE", corrected))
    ensures s.env.server.dialect == Db2Zos ==> UpsertDispatch(s, ks, start, corrected) == Sql(MergeStatement(s, ks, false, "USING ", corrected))
    ensures s.env.server.dialect == SqlServer ==> UpsertDispatch(s, ks, start, corrected) == Sql(MergeStatement(s, ks, false, "USING ", corrected) + ";")
  {
    var d := s.env.server.dialect;
    if d == HsqlDb || d == Db2Zos {
      UpsertPlainMerge(s, ks, start, corrected);
    } else if d == Db2Luw {
      UpsertTableMerge(s, ks, start, corrected);
    } else if d == SqlServer {
      UpsertServerMerge(s, ks, start, corrected);
    }
  }

  /** HSQLDB and DB2 z/OS upserts: the MERGE with a plain USING. */
  lemma UpsertPlainMerge(s: Setup, ks: seq<Constant>, start: Option<string>, corrected: bool)
    requires s.env.server.dialect == HsqlDb || s.env.server.dialect == Db2Zos
    ensures UpsertDispatch(s, ks, start, corrected) == Sql(MergeStatement(s, ks, false, "USING ", corrected))
  {
  }

  /** DB2 LUW upserts: the MERGE with USING TABLE. */
  lemma UpsertTableMerge(s: Setup, ks: seq<Constant>, start: Option<string>, corrected: bool)
    requires s.env.server.dialect == Db2Luw
    ensures UpsertDispatch(s, ks, start, corrected) == Sql(MergeStatement(s, ks, false, "USING TABLE", corrected))
  {
  }

  /** SQL Server upserts: the MERGE ended by a semicolon. */
  lemma UpsertServerMerge(s: Setup, ks: seq<Constant>, start: Option<string>, corrected: bool)
    requires s.env.server.dialect == SqlServer
    ensures UpsertDispatch(s, ks, start, corrected) == Sql(MergeStatement(s, ks, false, "USING ", corrected) + ";")
  {
  }

  /** The cases of `createUpsertStatement` that build an INSERT. */
  lemma UpsertInsertCases(s: Setup, ks: seq<Constant>, start: Option<string>, corrected: bool)
    ensures s.env.server.dialect == SQLite ==> UpsertDispatch(s, ks, start, corrected) == Sql(InsertText(s, ks, Some("INSERT OR REPLACE ")))
    ensures s.env.server.dialect == SqlAnywhere ==> UpsertDispatch(s, ks, start, corrected) == Sql(AnywhereStatement(s, ks, false, corrected))
  {
    var d := s.env.server.dialect;
    if d == SQLite {
    } else if d == SqlAnywhere {
    }
  }
}
