/**
 * The two tools the server exposes, composed from the parts above:
 * `run_sql_query` (guard, connect, execute, shape) and `get_database_schema`
 * (connect, describe). Every failure becomes reply text with a fixed prefix.
 * Each reply also records the parameters the driver's connect call received,
 * or None when the tool never called it.
 */
module Server {
  import opened Wrappers
  import opened QueryGuard
  import opened Connection
  import opened Schema
  import opened ResultShaper

  /** What executing the query on an open connection yields: its rows, or the engine's error text. */
  datatype QueryOutcome<Row> = Rows(rows: seq<Row>) | EngineError(message: string)

  const SqlErrorPrefix: string := "SQL Error: "
  const SchemaErrorPrefix: string := "Error getting schema: "

  /** The reply of `run_sql_query`, with what it did on the way. */
  datatype QueryReply = QueryReply(text: string, connectAttempt: Option<ConnParams>, executed: bool)

  predicate StartsWith(s: string, prefix: string) {
    |prefix| <= |s| && s[..|prefix|] == prefix
  }

  /**
   * `run_sql_query`. The guard comes first: a refused query is answered with
   * the fixed refusal and nothing else happens. A query the guard lets through
   * always reaches the connection step, and its reply is either the shaped
   * rows or an `SQL Error: ` text, never the refusal. The query runs only
   * over a connection that was actually opened with the configured credentials.
   */
  function RunSqlQuery<Row>(
    query: string, cfg: Config, outcome: ConnectOutcome,
    exec: QueryOutcome<Row>, render: seq<Row> -> string): (r: QueryReply)
    ensures IsMutating(query) ==> r == QueryReply(SafetyRefusal, None, false)
    ensures !IsMutating(query) ==> r.connectAttempt == Attempted(GetConnection(cfg, outcome))
    ensures r.executed <==> !IsMutating(query) && GetConnection(cfg, outcome).Success?
    ensures r.executed ==> IsSet(cfg.user) && IsSet(cfg.password) && r.connectAttempt.Some?
    ensures r.executed && exec.Rows? ==> r.text == ShapeResult(exec.rows, render)
    ensures !IsMutating(query) && !(r.executed && exec.Rows?) ==> StartsWith(r.text, SqlErrorPrefix)
    ensures !IsMutating(query) && GetConnection(cfg, outcome).Failure? ==>
      r.text == SqlErrorPrefix + GetConnection(cfg, outcome).error.Message()
    ensures r.executed && exec.EngineError? ==> r.text == SqlErrorPrefix + exec.message
  {
    if IsMutating(query) then
      QueryReply(SafetyRefusal, None, false)
    else
      var conn := GetConnection(cfg, outcome);
      match conn
      case Failure(e) => QueryReply(SqlErrorPrefix + e.Message(), Attempted(conn), false)
      case Success(c) =>
        match exec
        case Rows(rows) => QueryReply(ShapeResult(rows, render), Some(c.params), true)
        case EngineError(message) => QueryReply(SqlErrorPrefix + message, Some(c.params), true)
  }

  /**
   * With the guard passed, missing credentials are reported as an SQL error
   * and the driver is never called, whatever it would have done.
   */
  lemma MissingCredentialsNeverConnect<Row>(
    query: string, cfg: Config, outcome: ConnectOutcome,
    exec: QueryOutcome<Row>, render: seq<Row> -> string)
    requires !IsMutating(query)
    requires !IsSet(cfg.user) || !IsSet(cfg.password)
    ensures RunSqlQuery(query, cfg, outcome, exec, render)
      == QueryReply(SqlErrorPrefix + MissingCredentialsMessage, None, false)
  {
  }

  /** Past the guard, with credentials set and a connection opened, the reply is the shaped rows. */
  lemma ShapedReplyNeedsConnection<Row>(
    query: string, cfg: Config, outcome: ConnectOutcome,
    rows: seq<Row>, render: seq<Row> -> string)
    requires !IsMutating(query) && IsSet(cfg.user) && IsSet(cfg.password) && outcome.Connected?
    ensures RunSqlQuery(query, cfg, outcome, Rows(rows), render).text == ShapeResult(rows, render)
    ensures |rows| == 0 ==> RunSqlQuery(query, cfg, outcome, Rows(rows), render).text == NoResultsMarker
  {
  }

  /**
   * The empty marker and the truncation notice are reached only past the
   * guard, with credentials set and a connection opened: no refusal and no
   * error reply looks like either of them.
   */
  lemma ShapedReplyOnlyWhenConnected<Row>(
    query: string, cfg: Config, outcome: ConnectOutcome,
    exec: QueryOutcome<Row>, render: seq<Row> -> string)
    requires var text := RunSqlQuery(query, cfg, outcome, exec, render).text;
      text == NoResultsMarker || StartsWith(text, NoticeHead)
    ensures !IsMutating(query) && IsSet(cfg.user) && IsSet(cfg.password) && outcome.Connected?
    ensures RunSqlQuery(query, cfg, outcome, exec, render).executed
  {
    var r := RunSqlQuery(query, cfg, outcome, exec, render);
    assert r.text[0] == 'N' || r.text[0] == 'R' by {
      assert NoResultsMarker[0] == 'N' && NoticeHead[0] == 'R';
    }
    assert SafetyRefusal[0] == 'E' && SqlErrorPrefix[0] == 'S';
  }

  /**
   * `get_database_schema`: connect, then describe the catalog; a failed
   * connection gives `Error getting schema: ` and the exception text.
   */
  method GetDatabaseSchema(
    cfg: Config, outcome: ConnectOutcome,
    tables: seq<string>, columnsOf: string -> seq<Column>)
    returns (text: string, connectAttempt: Option<ConnParams>)
    ensures connectAttempt == Attempted(GetConnection(cfg, outcome))
    ensures GetConnection(cfg, outcome).Success? ==> text == SchemaText(tables, columnsOf)
    ensures GetConnection(cfg, outcome).Failure? ==>
      text == SchemaErrorPrefix + GetConnection(cfg, outcome).error.Message()
  {
    var conn := GetConnection(cfg, outcome);
    connectAttempt := Attempted(conn);
    match conn {
      case Failure(e) =>
        text := SchemaErrorPrefix + e.Message();
      case Success(_) =>
        text := DescribeSchema(tables, columnsOf);
    }
  }
}
