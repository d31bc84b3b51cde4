/**
 * The table options DB2 for Linux, Unix and Windows shows after a table's
 * columns: the tablespaces, column organisation, compression, data
 * capture, the CCSID and the drop rule, read from one row of
 * `SYSCAT.TABLES`, together with the configuration settings recorded for
 * them; and the decisions which parts of a table's source the builder
 * adds itself. The catalogue query, the connection and the identifier
 * quoting are inputs.
 */
module Db2TableSources {
  import opened Text
  import ImportGates

  /** The columns of `SYSCAT.TABLES` the options come from, each `None` for SQL NULL. */
  datatype TableRow = TableRow(
    tbspace: Option<string>,
    indexTbspace: Option<string>,
    longTbspace: Option<string>,
    property: Option<string>,
    compression: Option<string>,
    rowCompMode: Option<string>,
    dataCapture: Option<string>,
    encodingScheme: Option<string>,
    dropRule: Option<string>)

  /** One `addConfigSetting` call. */
  datatype Setting = Setting(key: string, value: Option<string>)

  /**
   * The connection's `quoteObjectname`, applied to a name that may be
   * null, as it reads once appended to the text.
   */
  type Quote = Option<string> -> string

  // ---------------------------------------------------------------------
  // The option text

  /**
   * The tablespace line: `IN` and the table's tablespace, then ` INDEX IN`
   * with the index tablespace and ` LONG IN` with the long tablespace,
   * each only when that tablespace, trimmed, is not empty.
   */
  function SpaceLine(row: TableRow, quote: Quote): string
  {
    var long := LongSpace(row);
    if long.Some? then IndexLine(row, quote) + " LONG IN " + quote(long) else IndexLine(row, quote)
  }

  /** The tablespace line as the source writes it: ` LONG IN` quotes the index tablespace. */
  function SpaceLineAsWritten(row: TableRow, quote: Quote): string
  {
    var long := LongSpace(row);
    if long.Some? then IndexLine(row, quote) + " LONG IN " + quote(IndexSpace(row)) else IndexLine(row, quote)
  }

  /** The tablespace line up to the long tablespace. */
  function IndexLine(row: TableRow, quote: Quote): string
  {
    var idx := IndexSpace(row);
    if idx.Some? then "IN " + quote(row.tbspace) + " INDEX IN " + quote(idx) else "IN " + quote(row.tbspace)
  }

  /** A column-organised table: `PROPERTY` has more than 19 characters, the 20th being `Y`. */
  predicate ColumnOrganized(property: Option<string>)
  {
    property.Some? && |property.value| > 19 && property.value[19] == 'Y'
  }

  /** Row or value compression: `COMPRESSION` is `R` (rows) or `B` (both). */
  predicate Compressed(compression: Option<string>)
  {
    compression == Some("R") || compression == Some("B")
  }

  /**
   * The compression clause: `COMPRESS YES`, then ` ADAPTIVE` or ` STATIC`
   * for the row compression mode `A` or `S`, then ` VALUE COMPRESSION`
   * when values are compressed too.
   */
  function CompressClause(compression: Option<string>, rowMode: Option<string>): string
  {
    var mode := if rowMode == Some("A") then " ADAPTIVE" else if rowMode == Some("S") then " STATIC" else "";
    "COMPRESS YES" + mode + (if compression == Some("B") then " VALUE COMPRESSION" else "")
  }

  /** The clause starts with `COMPRESS YES` and ends with ` VALUE COMPRESSION` exactly when values are compressed. */
  lemma CompressClauseShape(compression: Option<string>, rowMode: Option<string>)
    ensures StartsWith(CompressClause(compression, rowMode), "COMPRESS YES")
    ensures EndsWith(CompressClause(compression, rowMode), " VALUE COMPRESSION") <==> compression == Some("B")
  {
    var c := CompressClause(compression, rowMode);
    assert c[..12] == "COMPRESS YES";
    if compression == Some("B") {
      assert c[|c| - 18..] == " VALUE COMPRESSION";
    } else if |c| >= 18 {
      assert c[|c| - 1] != 'N';
    }
  }

  /** A clause when `b` holds, nothing otherwise. */
  function When(b: bool, clause: string): seq<string>
  {
    if b then [clause] else []
  }

  /** The index and long tablespaces, trimmed, none when blank. */
  function IndexSpace(row: TableRow): Option<string> { TrimToNull(row.indexTbspace) }
  function LongSpace(row: TableRow): Option<string> { TrimToNull(row.longTbspace) }

  function OrganizeLines(row: TableRow): seq<string>
  {
    When(ColumnOrganized(row.property), "ORGANIZE BY COLUMN")
  }

  function CompressLines(row: TableRow): seq<string>
  {
    if Compressed(row.compression) then [CompressClause(row.compression, row.rowCompMode)] else []
  }

  function CaptureLines(row: TableRow): seq<string>
  {
    When(row.dataCapture == Some("Y"), "DATA CAPTURE CHANGES")
  }

  function CcsidLines(row: TableRow): seq<string>
  {
    When(row.encodingScheme == Some("A"), "CCSID ASCII") + When(row.encodingScheme == Some("U"), "CCSID UNICODE")
  }

  function DropRuleLines(row: TableRow): seq<string>
  {
    When(row.dropRule == Some("R"), "WITH RESTRICT ON DROP")
  }

  /** The lines after the tablespace line, in the order they are appended. */
  function ExtraLines(row: TableRow): seq<string>
  {
    OrganizeLines(row) + CompressLines(row) + CaptureLines(row) + CcsidLines(row) + DropRuleLines(row)
  }

  /** The table option text: the tablespace line, then every further clause on a line of its own. */
  function TableOption(row: TableRow, quote: Quote): string
  {
    SpaceLine(row, quote) + PrefixEach(ExtraLines(row), "\n")
  }

  /** The table option text as the source writes it, with its tablespace line. */
  function TableOptionAsWritten(row: TableRow, quote: Quote): string
  {
    SpaceLineAsWritten(row, quote) + PrefixEach(ExtraLines(row), "\n")
  }

  function SpaceSettings(row: TableRow): seq<Setting>
  {
    [Setting("tablespace", row.tbspace)]
      + (if IndexSpace(row).Some? then [Setting("index_tablespace", IndexSpace(row))] else [])
      + (if LongSpace(row).Some? then [Setting("long_tablespace", LongSpace(row))] else [])
  }

  function OrganizeSettings(row: TableRow): seq<Setting>
  {
    if ColumnOrganized(row.property) then [Setting("organize", Some("column"))] else []
  }

  function CompressSettings(row: TableRow): seq<Setting>
  {
    (if Compressed(row.compression) && row.rowCompMode == Some("A") then [Setting("compress", Some("adaptive"))]
     else if Compressed(row.compression) && row.rowCompMode == Some("S") then [Setting("compress", Some("static"))]
     else [])
    + (if row.compression == Some("B") then [Setting("value_compression", Some("y"))] else [])
  }

  function CaptureSettings(row: TableRow): seq<Setting>
  {
    if row.dataCapture == Some("Y") then [Setting("datacapture", Some("y"))] else []
  }

  function CcsidSettings(row: TableRow): seq<Setting>
  {
    (if row.encodingScheme == Some("A") then [Setting("ccsid", Some("ascii"))] else [])
    + (if row.encodingScheme == Some("U") then [Setting("ccsid", Some("unicode"))] else [])
  }

  function DropRuleSettings(row: TableRow): seq<Setting>
  {
    if row.dropRule == Some("R") then [Setting("droprule", Some("restrict"))] else []
  }

  /** The configuration settings recorded for a row, in the order they are recorded. */
  function Settings(row: TableRow): seq<Setting>
  {
    SpaceSettings(row) + OrganizeSettings(row) + CompressSettings(row)
      + CaptureSettings(row) + CcsidSettings(row) + DropRuleSettings(row)
  }

  // ---------------------------------------------------------------------
  // Building the text

  /** Appends a clause on a line of its own. */
  method AppendLine(buf0: string, ghost head: string, ghost lines: seq<string>, clause: string) returns (buf: string)
    requires buf0 == head + PrefixEach(lines, "\n")
    ensures buf == head + PrefixEach(lines + [clause], "\n")
  {
    buf := buf0 + "\n" + clause;
    PrefixEachSnoc(lines, clause, "\n");
  }

  /** The tablespace line, as written, and its settings. */
  method SpaceOptions(row: TableRow, quote: Quote) returns (addSql: string, settings: seq<Setting>)
    ensures addSql == SpaceLineAsWritten(row, quote)
    ensures settings == SpaceSettings(row)
  {
    var tbSpace := row.tbspace;
    var idxSpace := IndexSpace(row);
    var longSpace := LongSpace(row);
    settings := [Setting("tablespace", tbSpace)];
    addSql := "IN " + quote(tbSpace);
    if idxSpace.Some? {
      settings := settings + [Setting("index_tablespace", idxSpace)];
      addSql := addSql + " INDEX IN " + quote(idxSpace);
    }
    if longSpace.Some? {
      settings := settings + [Setting("long_tablespace", longSpace)];
      addSql := addSql + " LONG IN " + quote(idxSpace);
    }
  }

  /** `ORGANIZE BY COLUMN` when the 20th character of `PROPERTY` is `Y`. */
  method AppendOrganize(buf0: string, settings0: seq<Setting>, ghost head: string, ghost lines: seq<string>, row: TableRow)
    returns (buf: string, settings: seq<Setting>)
    requires buf0 == head + PrefixEach(lines, "\n")
    ensures buf == head + PrefixEach(lines + OrganizeLines(row), "\n")
    ensures settings == settings0 + OrganizeSettings(row)
  {
    buf, settings := buf0, settings0;
    var props := row.property;
    if props.Some? && |props.value| > 19 {
      var columnTable := props.value[19..20];
      if columnTable == "Y" {
        settings := settings + [Setting("organize", Some("column"))];
        buf := AppendLine(buf, head, lines, "ORGANIZE BY COLUMN");
        return;
      }
    }
    assert lines + OrganizeLines(row) == lines;
  }

  /** The compression clause and the settings recorded while it is built. */
  method CompressDefinition(compression: Option<string>, rowMode: Option<string>)
    returns (compressDef: string, settings: seq<Setting>)
    requires compression == Some("R") || compression == Some("B")
    ensures compressDef == CompressClause(compression, rowMode)
    ensures settings == CompressSettings(TableRow(None, None, None, None, compression, rowMode, None, None, None))
  {
    compressDef := "COMPRESS YES";
    settings := [];
    if rowMode == Some("A") {
      settings := settings + [Setting("compress", Some("adaptive"))];
      compressDef := compressDef + " ADAPTIVE";
    } else if rowMode == Some("S") {
      settings := settings + [Setting("compress", Some("static"))];
      compressDef := compressDef + " STATIC";
    }
    if compression == Some("B") {
      compressDef := compressDef + " VALUE COMPRESSION";
      settings := settings + [Setting("value_compression", Some("y"))];
    }
  }

  /** The compression clause for row or value compression. */
  method AppendCompress(buf0: string, settings0: seq<Setting>, ghost head: string, ghost lines: seq<string>, row: TableRow)
    returns (buf: string, settings: seq<Setting>)
    requires buf0 == head + PrefixEach(lines, "\n")
    ensures buf == head + PrefixEach(lines + CompressLines(row), "\n")
    ensures settings == settings0 + CompressSettings(row)
  {
    buf, settings := buf0, settings0;
    if row.compression == Some("R") || row.compression == Some("B") {
      var compressDef, more := CompressDefinition(row.compression, row.rowCompMode);
      settings := settings + more;
      buf := AppendLine(buf, head, lines, compressDef);
    } else {
      assert lines + CompressLines(row) == lines;
    }
  }

  /** `DATA CAPTURE CHANGES` when changes are captured. */
  method AppendCapture(buf0: string, settings0: seq<Setting>, ghost head: string, ghost lines: seq<string>, row: TableRow)
    returns (buf: string, settings: seq<Setting>)
    requires buf0 == head + PrefixEach(lines, "\n")
    ensures buf == head + PrefixEach(lines + CaptureLines(row), "\n")
    ensures settings == settings0 + CaptureSettings(row)
  {
    buf, settings := buf0, settings0;
    if row.dataCapture == Some("Y") {
      settings := settings + [Setting("datacapture", Some("y"))];
      buf := AppendLine(buf, head, lines, "DATA CAPTURE CHANGES");
    } else {
      assert lines + CaptureLines(row) == lines;
    }
  }

  /** `CCSID ASCII` or `CCSID UNICODE` for the encoding scheme `A` or `U`. */
  method AppendCcsid(buf0: string, settings0: seq<Setting>, ghost head: string, ghost lines: seq<string>, row: TableRow)
    returns (buf: string, settings: seq<Setting>)
    requires buf0 == head + PrefixEach(lines, "\n")
    ensures buf == head + PrefixEach(lines + CcsidLines(row), "\n")
    ensures settings == settings0 + CcsidSettings(row)
  {
    buf, settings := buf0, settings0;
    var encoding := row.encodingScheme;
    if encoding == Some("A") {
      settings := settings + [Setting("ccsid", Some("ascii"))];
      buf := AppendLine(buf, head, lines, "CCSID ASCII");
      assert lines + CcsidLines(row) == lines + ["CCSID ASCII"];
    }
    if encoding == Some("U") {
      settings := settings + [Setting("ccsid", Some("unicode"))];
      buf := AppendLine(buf, head, lines, "CCSID UNICODE");
      assert lines + CcsidLines(row) == lines + ["CCSID UNICODE"];
    }
    if encoding != Some("A") && encoding != Some("U") {
      assert lines + CcsidLines(row) == lines;
    }
  }

  /** `WITH RESTRICT ON DROP` for the drop rule `R`. */
  method AppendDropRule(buf0: string, settings0: seq<Setting>, ghost head: string, ghost lines: seq<string>, row: TableRow)
    returns (buf: string, settings: seq<Setting>)
    requires buf0 == head + PrefixEach(lines, "\n")
    ensures buf == head + PrefixEach(lines + DropRuleLines(row), "\n")
    ensures settings == settings0 + DropRuleSettings(row)
  {
    buf, settings := buf0, settings0;
    if row.dropRule == Some("R") {
      settings := settings + [Setting("droprule", Some("restrict"))];
      buf := AppendLine(buf, head, lines, "WITH RESTRICT ON DROP");
    } else {
      assert lines + DropRuleLines(row) == lines;
    }
  }

  /**
   * The text and settings of `readTablespaceInfo` for one row: the clauses
   * are appended one after another, each setting recorded as its clause is
   * written. The tablespace line is the one the source writes.
   */
  method TablespaceOptions(row: TableRow, quote: Quote) returns (addSql: string, settings: seq<Setting>)
    ensures addSql == TableOptionAsWritten(row, quote)
    ensures settings == Settings(row)
  {
    addSql, settings := SpaceOptions(row, quote);
    ghost var head := addSql;
    ghost var lines: seq<string> := [];
    addSql, settings := AppendOrganize(addSql, settings, head, lines, row);
    lines := lines + OrganizeLines(row);
    addSql, settings := AppendCompress(addSql, settings, head, lines, row);
    lines := lines + CompressLines(row);
    addSql, settings := AppendCapture(addSql, settings, head, lines, row);
    lines := lines + CaptureLines(row);
    addSql, settings := AppendCcsid(addSql, settings, head, lines, row);
    lines := lines + CcsidLines(row);
    addSql, settings := AppendDropRule(addSql, settings, head, lines, row);
    lines := lines + DropRuleLines(row);
    assert lines == ExtraLines(row);
  }

  /**
   * `readTablespaceInfo`: nothing when reading table options is switched
   * off or the catalogue has no row for the table; otherwise the option
   * text and the settings of that row.
   */
  method ReadTablespaceInfo(enabled: bool, row: Option<TableRow>, quote: Quote)
    returns (tableOption: Option<string>, settings: seq<Setting>)
    ensures tableOption.Some? <==> enabled && row.Some?
    ensures tableOption.Some? ==> tableOption.value == TableOptionAsWritten(row.value, quote) && settings == Settings(row.value)
    ensures tableOption.None? ==> settings == []
  {
    if !enabled || row.None? {
      return None, [];
    }
    var text;
    text, settings := TablespaceOptions(row.value, quote);
    tableOption := Some(text);
  }

  // ---------------------------------------------------------------------
  // Properties of the option text

  /** Both tablespace lines start with `IN` and the quoted tablespace. */
  lemma SpaceLineStartsWithIn(row: TableRow, quote: Quote)
    ensures StartsWith(SpaceLine(row, quote), "IN " + quote(row.tbspace))
    ensures StartsWith(SpaceLineAsWritten(row, quote), "IN " + quote(row.tbspace))
  {
    var a := "IN " + quote(row.tbspace);
    var idx := IndexSpace(row);
    var long := LongSpace(row);
    if idx.Some? {
      StartsWithConcat(a, " INDEX IN ");
      StartsWithExtend(a + " INDEX IN ", quote(idx), a);
    }
    if long.Some? {
      var line := IndexLine(row, quote);
      StartsWithExtend(line, " LONG IN ", a);
      StartsWithExtend(line + " LONG IN ", quote(long), a);
      StartsWithExtend(line + " LONG IN ", quote(idx), a);
    }
  }

  /** The text, as written and as intended, starts with `IN` and the quoted tablespace. */
  lemma OptionStartsWithIn(row: TableRow, quote: Quote)
    ensures StartsWith(TableOptionAsWritten(row, quote), "IN " + quote(row.tbspace))
    ensures StartsWith(TableOption(row, quote), "IN " + quote(row.tbspace))
  {
    SpaceLineStartsWithIn(row, quote);
    StartsWithExtend(SpaceLineAsWritten(row, quote), PrefixEach(ExtraLines(row), "\n"), "IN " + quote(row.tbspace));
    StartsWithExtend(SpaceLine(row, quote), PrefixEach(ExtraLines(row), "\n"), "IN " + quote(row.tbspace));
  }

  /**
   * ` INDEX IN` follows the tablespace exactly when the index tablespace,
   * trimmed, is not empty; otherwise the long tablespace clause, if any,
   * follows it directly.
   */
  lemma IndexInIff(row: TableRow, quote: Quote)
    ensures IndexSpace(row).Some? ==>
      StartsWith(SpaceLine(row, quote), "IN " + quote(row.tbspace) + " INDEX IN ")
    ensures IndexSpace(row).None? ==>
      SpaceLine(row, quote) == if LongSpace(row).Some? then "IN " + quote(row.tbspace) + " LONG IN " + quote(LongSpace(row))
        else "IN " + quote(row.tbspace)
  {
    var idx := IndexSpace(row);
    if idx.Some? {
      var a := "IN " + quote(row.tbspace) + " INDEX IN ";
      StartsWithConcat(a, quote(idx));
      if LongSpace(row).Some? {
        StartsWithExtend(a + quote(idx), " LONG IN ", a);
        StartsWithExtend(a + quote(idx) + " LONG IN ", quote(LongSpace(row)), a);
      }
    }
  }

  /** A line that does not start with `CO` is not the compression line. */
  lemma NotCompressLine(x: string, row: TableRow)
    requires |x| > 1 && (x[0] != 'C' || x[1] != 'O')
    ensures x !in CompressLines(row)
  {
    CompressClauseShape(row.compression, row.rowCompMode);
    if Compressed(row.compression) {
      var c := CompressClause(row.compression, row.rowCompMode);
      assert c[0] == "COMPRESS YES"[0] && c[1] == "COMPRESS YES"[1];
    }
  }

  /** A line is among the lines exactly when one of the clauses contributes it. */
  lemma InExtraLines(x: string, row: TableRow)
    ensures x in ExtraLines(row) <==>
      x in OrganizeLines(row) || x in CompressLines(row) || x in CaptureLines(row)
        || x in CcsidLines(row) || x in DropRuleLines(row)
  {
  }

  /** `ORGANIZE BY COLUMN` is among the lines exactly for a column-organised table. */
  lemma OrganizeIff(row: TableRow)
    ensures "ORGANIZE BY COLUMN" in ExtraLines(row) <==> ColumnOrganized(row.property)
  {
    var x := "ORGANIZE BY COLUMN";
    InExtraLines(x, row);
    NotCompressLine(x, row);
    assert x != "DATA CAPTURE CHANGES" && x != "CCSID ASCII" && x != "CCSID UNICODE" && x != "WITH RESTRICT ON DROP";
  }

  /** A compression line is among the lines exactly for row or value compression. */
  lemma CompressIff(row: TableRow)
    ensures (exists l :: l in ExtraLines(row) && StartsWith(l, "COMPRESS YES")) <==> Compressed(row.compression)
  {
    if Compressed(row.compression) {
      var c := CompressClause(row.compression, row.rowCompMode);
      CompressClauseShape(row.compression, row.rowCompMode);
      InExtraLines(c, row);
      assert c in ExtraLines(row);
    } else {
      forall l | l in ExtraLines(row)
        ensures !StartsWith(l, "COMPRESS YES")
      {
        InExtraLines(l, row);
        assert l in OrganizeLines(row) || l in CaptureLines(row) || l in CcsidLines(row) || l in DropRuleLines(row);
        assert l[0] != 'C' || l[1] != 'O';
      }
    }
  }

  /** `DATA CAPTURE CHANGES` is among the lines exactly when changes are captured. */
  lemma CaptureIff(row: TableRow)
    ensures "DATA CAPTURE CHANGES" in ExtraLines(row) <==> row.dataCapture == Some("Y")
  {
    var x := "DATA CAPTURE CHANGES";
    InExtraLines(x, row);
    NotCompressLine(x, row);
    assert x != "ORGANIZE BY COLUMN" && x != "CCSID ASCII" && x != "CCSID UNICODE" && x != "WITH RESTRICT ON DROP";
  }

  /** `CCSID ASCII` and `CCSID UNICODE` are among the lines exactly for the encoding scheme `A` and `U`. */
  lemma CcsidIff(row: TableRow)
    ensures "CCSID ASCII" in ExtraLines(row) <==> row.encodingScheme == Some("A")
    ensures "CCSID UNICODE" in ExtraLines(row) <==> row.encodingScheme == Some("U")
  {
    var x, y := "CCSID ASCII", "CCSID UNICODE";
    InExtraLines(x, row);
    InExtraLines(y, row);
    NotCompressLine(x, row);
    NotCompressLine(y, row);
    assert x != y && x != "ORGANIZE BY COLUMN" && x != "DATA CAPTURE CHANGES" && x != "WITH RESTRICT ON DROP";
    assert y != "ORGANIZE BY COLUMN" && y != "DATA CAPTURE CHANGES" && y != "WITH RESTRICT ON DROP";
  }

  /** `WITH RESTRICT ON DROP` is among the lines exactly for the drop rule `R`. */
  lemma DropRuleIff(row: TableRow)
    ensures "WITH RESTRICT ON DROP" in ExtraLines(row) <==> row.dropRule == Some("R")
  {
    var x := "WITH RESTRICT ON DROP";
    InExtraLines(x, row);
    NotCompressLine(x, row);
    assert x != "ORGANIZE BY COLUMN" && x != "DATA CAPTURE CHANGES" && x != "CCSID ASCII" && x != "CCSID UNICODE";
  }

  // ---------------------------------------------------------------------
  // Properties of the settings

  /** No key is recorded twice. */
  predicate DistinctKeys(ss: seq<Setting>)
  {
    forall i, j :: 0 <= i < j < |ss| ==> ss[i].key != ss[j].key
  }

  function KeySet(ss: seq<Setting>): set<string>
  {
    set s | s in ss :: s.key
  }

  /**
   * Two lists without repeated keys whose keys come from two disjoint sets
   * make one without repeated keys, its keys from their union.
   */
  lemma DistinctAppend(a: seq<Setting>, b: seq<Setting>, ka: set<string>, kb: set<string>)
    requires DistinctKeys(a) && DistinctKeys(b)
    requires KeySet(a) <= ka && KeySet(b) <= kb && ka !! kb
    ensures DistinctKeys(a + b)
    ensures KeySet(a + b) <= ka + kb
  {
    var ab := a + b;
    forall i, j | 0 <= i < j < |ab|
      ensures ab[i].key != ab[j].key
    {
      if j < |a| {
        assert ab[i] == a[i] && ab[j] == a[j];
      } else if |a| <= i {
        assert ab[i] == b[i - |a|] && ab[j] == b[j - |a|];
      } else {
        assert ab[i] == a[i] && ab[j] == b[j - |a|];
        assert a[i] in a && b[j - |a|] in b;
        assert a[i].key in KeySet(a) && b[j - |a|].key in KeySet(b);
      }
    }
    forall s | s in ab
      ensures s.key in ka + kb
    {
      if s in a {
        assert s.key in KeySet(a);
      } else {
        assert s in b;
        assert s.key in KeySet(b);
      }
    }
  }

  /** The keys each part records, none twice. */
  lemma PartKeys(row: TableRow)
    ensures DistinctKeys(SpaceSettings(row)) && KeySet(SpaceSettings(row)) <= {"tablespace", "index_tablespace", "long_tablespace"}
    ensures DistinctKeys(OrganizeSettings(row)) && KeySet(OrganizeSettings(row)) <= {"organize"}
    ensures DistinctKeys(CompressSettings(row)) && KeySet(CompressSettings(row)) <= {"compress", "value_compression"}
    ensures DistinctKeys(CaptureSettings(row)) && KeySet(CaptureSettings(row)) <= {"datacapture"}
    ensures DistinctKeys(CcsidSettings(row)) && KeySet(CcsidSettings(row)) <= {"ccsid"}
    ensures DistinctKeys(DropRuleSettings(row)) && KeySet(DropRuleSettings(row)) <= {"droprule"}
  {
  }

  /** Every setting key is recorded at most once, so the order of the calls does not matter. */
  lemma SettingKeysDistinct(row: TableRow)
    ensures DistinctKeys(Settings(row))
  {
    PartKeys(row);
    var k1: set<string> := {"tablespace", "index_tablespace", "long_tablespace"};
    var k2 := k1 + {"organize"};
    var k3 := k2 + {"compress", "value_compression"};
    var k4 := k3 + {"datacapture"};
    var k5 := k4 + {"ccsid"};
    var s1 := SpaceSettings(row);
    var s2 := s1 + OrganizeSettings(row);
    var s3 := s2 + CompressSettings(row);
    var s4 := s3 + CaptureSettings(row);
    var s5 := s4 + CcsidSettings(row);
    DistinctAppend(s1, OrganizeSettings(row), k1, {"organize"});
    DistinctAppend(s2, CompressSettings(row), k2, {"compress", "value_compression"});
    DistinctAppend(s3, CaptureSettings(row), k3, {"datacapture"});
    DistinctAppend(s4, CcsidSettings(row), k4, {"ccsid"});
    DistinctAppend(s5, DropRuleSettings(row), k5, {"droprule"});
  }

  /** Value compression is recorded exactly when values are compressed. */
  lemma ValueCompressionIff(row: TableRow)
    ensures Setting("value_compression", Some("y")) in Settings(row) <==> row.compression == Some("B")
  {
    PartKeys(row);
  }

  // ---------------------------------------------------------------------
  // The LONG IN clause

  /**
   * As written, the ` LONG IN` clause never depends on the long tablespace's
   * name: two rows that differ only in it give the same line, and without
   * an index tablespace the clause quotes a null name.
   */
  lemma LongInIgnoresLongSpace(row: TableRow, other: string, quote: Quote)
    requires LongSpace(row).Some? && !IsBlank(other)
    ensures SpaceLineAsWritten(row.(longTbspace := Some(other)), quote) == SpaceLineAsWritten(row, quote)
    ensures IndexSpace(row).None? ==> EndsWith(SpaceLineAsWritten(row, quote), " LONG IN " + quote(None))
  {
    var row' := row.(longTbspace := Some(other));
    assert LongSpace(row').Some?;
    assert IndexLine(row', quote) == IndexLine(row, quote);
    if IndexSpace(row).None? {
      var line := IndexLine(row, quote);
      assert SpaceLineAsWritten(row, quote) == line + (" LONG IN " + quote(None));
      EndsWithConcat(line, " LONG IN " + quote(None));
    }
  }

  /** The corrected line ends with ` LONG IN` and the quoted long tablespace, when there is one. */
  lemma LongInNamesLongSpace(row: TableRow, quote: Quote)
    requires LongSpace(row).Some?
    ensures EndsWith(SpaceLine(row, quote), " LONG IN " + quote(LongSpace(row)))
  {
    var line := IndexLine(row, quote);
    var tail := " LONG IN " + quote(LongSpace(row));
    assert SpaceLine(row, quote) == line + tail;
    EndsWithConcat(line, tail);
  }

  // ---------------------------------------------------------------------
  // What the builder adds itself

  /**
   * The builder's setup: whether `GENERATE_SQL` produces the source, the
   * explicit `generate_sql.table.includes.index` setting when there is one,
   * the server version, and the generic builder's own decisions.
   */
  datatype Builder = Builder(
    useSystemProc: bool,
    indexIncludedSetting: Option<bool>,
    version: ImportGates.Version,
    baseIndex: bool,
    baseFK: bool,
    baseGrants: bool,
    baseComment: bool)

  predicate AtLeast74(v: ImportGates.Version)
  {
    v.major > 7 || (v.major == 7 && v.minor >= 4)
  }

  /**
   * `shouldIncludeIndexInTableSource`: with `GENERATE_SQL`, the indexes are
   * added unless the setting says the procedure includes them or, without
   * a setting, the server is 7.4 or later (whose procedure includes them).
   */
  function ShouldIncludeIndex(b: Builder): (r: bool)
    ensures b.useSystemProc ==>
      (r <==> (b.indexIncludedSetting == Some(false) || (b.indexIncludedSetting.None? && !AtLeast74(b.version))))
    ensures !b.useSystemProc ==> r == b.baseIndex
  {
    if b.useSystemProc then
      if b.indexIncludedSetting.Some? then !b.indexIncludedSetting.value
      else if AtLeast74(b.version) then false
      else true
    else b.baseIndex
  }

  /** `shouldIncludeFKInTableSource`: never with `GENERATE_SQL`. */
  function ShouldIncludeFK(b: Builder): (r: bool)
    ensures r <==> !b.useSystemProc && b.baseFK
  {
    if b.useSystemProc then false else b.baseFK
  }

  /** `shouldIncludeGrantsInTableSource`: never with `GENERATE_SQL`. */
  function ShouldIncludeGrants(b: Builder): (r: bool)
    ensures r <==> !b.useSystemProc && b.baseGrants
  {
    if b.useSystemProc then false else b.baseGrants
  }

  /** `shouldIncludeCommentInTableSource` as written: without `GENERATE_SQL` it answers the grants question. */
  function ShouldIncludeCommentAsWritten(b: Builder): (r: bool)
    ensures r == ShouldIncludeGrants(b)
  {
    if b.useSystemProc then false else b.baseGrants
  }

  /** The comment decision as intended: never with `GENERATE_SQL`, else the generic builder's comment decision. */
  function ShouldIncludeComment(b: Builder): (r: bool)
    ensures r <==> !b.useSystemProc && b.baseComment
  {
    if b.useSystemProc then false else b.baseComment
  }

  /** As written, a builder that adds comments but not grants leaves the comments out. */
  lemma CommentsFollowGrants()
    ensures var b := Builder(false, None, ImportGates.Version(11, 5), true, true, false, true);
      ShouldIncludeComment(b) && !ShouldIncludeCommentAsWritten(b)
  {
  }

  /** The intended comment decision does not depend on the grants decision. */
  lemma CommentIndependentOfGrants(b: Builder, grants: bool)
    ensures ShouldIncludeComment(b.(baseGrants := grants)) == ShouldIncludeComment(b)
  {
  }
}
