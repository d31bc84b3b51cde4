/**
 * Which import statements a DBMS can take: the static capability tables of
 * `ImportDMLStatementBuilder`.  A connection is reduced to the DBMS, its
 * server version and the SQL Server 2008 test; a missing connection is `None`.
 */
module ImportGates {
  import opened Text

  datatype Dialect =
    | Postgres | Oracle | SqlServer | Db2Luw | Db2Zos | Cubrid | MySql | MariaDb
    | SQLite | HsqlDb | SqlAnywhere | H2 | Firebird | Hana | OtherDbms

  datatype Version = Version(major: nat, minor: nat)

  datatype Server = Server(dialect: Dialect, version: Version, isSqlServer2008: bool)

  /** `JdbcUtils.hasMinimumServerVersion(conn, "major.minor")`. */
  predicate AtLeast(s: Server, major: nat, minor: nat)
  {
    s.version.major > major || (s.version.major == major && s.version.minor >= minor)
  }

  /** Dialects whose upsert needs a real primary key, whatever the version. */
  predicate UpsertRequiresPK(d: Dialect)
  {
    d in {Cubrid, MySql, Hana, H2, SqlAnywhere, SQLite}
  }

  /** Dialects whose insert-ignore needs a real primary key, whatever the version. */
  predicate IgnoreRequiresPK(d: Dialect)
  {
    d in {Cubrid, MySql, SqlAnywhere, SQLite}
  }

  /** `hasNativeInsertIgnore`: a real "ignore duplicates" statement, not a simulated MERGE. */
  predicate HasNativeInsertIgnore(conn: Option<Server>)
  {
    conn.Some? &&
    match conn.value.dialect
    case Oracle => AtLeast(conn.value, 11, 2)
    case Postgres => AtLeast(conn.value, 9, 5)
    case SQLite => true
    case SqlAnywhere => AtLeast(conn.value, 10, 0)
    case _ => false
  }

  /** `supportsOverrideIdentity`: only Postgres 9.5 or later. */
  predicate SupportsOverrideIdentity(conn: Option<Server>)
  {
    conn.Some? && conn.value.dialect == Postgres && AtLeast(conn.value, 9, 5)
  }

  /** `supportsInsertIgnore(WbConnection)`. */
  predicate SupportsInsertIgnore(conn: Option<Server>)
  {
    conn.Some? &&
    var s := conn.value;
    match s.dialect
    case Postgres => AtLeast(s, 9, 5)
    case Oracle => AtLeast(s, 11, 2)
    case SqlServer => s.isSqlServer2008
    case Db2Luw => true
    case Cubrid => true
    case MySql => true
    case MariaDb => true
    case SQLite => true
    case HsqlDb => AtLeast(s, 2, 0)
    case Db2Zos => AtLeast(s, 10, 0)
    case SqlAnywhere => AtLeast(s, 10, 0)
    case _ => false
  }

  /** `supportsUpsert(WbConnection)`. */
  predicate SupportsUpsert(conn: Option<Server>)
  {
    conn.Some? &&
    var s := conn.value;
    match s.dialect
    case Oracle => true
    case Db2Luw => true
    case Cubrid => true
    case Hana => true
    case SQLite => true
    case H2 => true
    case MySql => true
    case MariaDb => true
    case Postgres => AtLeast(s, 9, 5)
    case Firebird => AtLeast(s, 2, 1)
    case Db2Zos => AtLeast(s, 10, 0)
    case SqlServer => s.isSqlServer2008
    case HsqlDb => AtLeast(s, 2, 0)
    case SqlAnywhere => AtLeast(s, 10, 0)
    case _ => false
  }

  /** A native insert-ignore is one of the supported ones. */
  lemma NativeIgnoreIsSupported(conn: Option<Server>)
    ensures HasNativeInsertIgnore(conn) ==> SupportsInsertIgnore(conn)
  {
  }

  /** Every DBMS that can ignore duplicates can also upsert. */
  lemma InsertIgnoreImpliesUpsert(conn: Option<Server>)
    ensures SupportsInsertIgnore(conn) ==> SupportsUpsert(conn)
  {
  }

  /** ... but not the other way round: H2, HANA and Firebird 2.1 upsert without any ignore mode. */
  lemma UpsertWithoutIgnore(v: Version)
    ensures forall d :: d in {H2, Hana} ==>
      SupportsUpsert(Some(Server(d, v, false))) && !SupportsInsertIgnore(Some(Server(d, v, false)))
    ensures SupportsUpsert(Some(Server(Firebird, Version(2, 1), false)))
    ensures !SupportsInsertIgnore(Some(Server(Firebird, Version(2, 1), false)))
  {
  }

  /** Overriding identity values is only offered where the native Postgres ignore is. */
  lemma OverrideIdentityOnlyPostgres(conn: Option<Server>)
    ensures SupportsOverrideIdentity(conn) <==> conn.Some? && conn.value.dialect == Postgres && HasNativeInsertIgnore(conn)
  {
  }

  /** The PK-required sets: the upsert one adds HANA and H2 to the ignore one. */
  lemma RequiresPKSets(d: Dialect)
    ensures IgnoreRequiresPK(d) ==> UpsertRequiresPK(d)
    ensures UpsertRequiresPK(d) && !IgnoreRequiresPK(d) <==> d == Hana || d == H2
  {
  }
}
