# Tennis Analyst query gateway, modelled in Dafny

`server.py` exposes a PostgreSQL database to an AI agent through two tools:
`get_database_schema`, which lists every table of the `public` schema with its
columns and types, and `run_sql_query`, which runs caller-supplied SQL after a
lexical read-only check and shapes the rows into a bounded reply. This project
models the deterministic core of those two tools:

- the **query guard**: the query is upper-cased and refused with a fixed message
  when one of INSERT, UPDATE, DELETE, DROP, ALTER, TRUNCATE, GRANT, REVOKE occurs in it
  as a substring (`guard.dfy`, module `QueryGuard`);
- the **schema text**: one `Table '<name>': c1 (t1), c2 (t2)` line per table, in
  catalog order, joined by newlines, built by a loop (`schema.dfy`, module `Schema`);
- the **result shaping**: `No results found.` for no rows, the rendered table for
  at most 100 rows, otherwise a notice with the true count and the first 100 rows
  (`shaper.dfy`, module `ResultShaper`);
- the **credential check** of `get_connection`: an unset or empty user or password
  fails before the driver is called (`connection.dfy`, module `Connection`);
- the two tools composed from these parts, with every failure turned into reply
  text (`server.dfy`, module `Server`).

Supporting modules: `Wrappers` (Option, Result), `Strings` (ASCII upper-casing,
substring containment, `str.join` and its inverse `str.split`) and `Decimal` (the
decimal spelling of the row count and its reading back).

The database is outside the model. What the driver's connect call does, the rows
(or the error) a query produces, the table list and the per-table column query
are inputs. The table renderer `DataFrame.to_markdown` is a parameter
`render: seq<Row> -> string` about which nothing is assumed. Each reply records
the parameters the connect call received, or `None` when the tool never called
it. That is how the model states that a refused query or missing credentials
never reach the database.

## Model

| member | source | states |
|---|---|---|
| `QueryGuard.IsMutating` | server.py:84 | defines the guard: some keyword is a substring of the ASCII-upper-cased query. Its contract says no text shorter than four characters (the length of DROP) is refused. `MutatingIffCaselessMatch` characterises it completely |
| `QueryGuard.MutatingIffCaselessMatch` | server.py:84 | a query is refused exactly when some keyword matches it at some position, character by character, ignoring ASCII case; both directions |
| `QueryGuard.GuardIgnoresCase` | server.py:84 | two queries that differ only in the case of ASCII letters get the same decision |
| `QueryGuard.RefusalMonotone` | server.py:84 | any text containing a refused query as a substring is refused too |
| `QueryGuard.KeywordAnywhereRefused` | server.py:84-85 | a keyword spelled in any letter case, with anything before or after it, refuses the query |
| `QueryGuard.UpdatedAtColumnRefused` | server.py:84 | `select updated_at from t` is refused: matching is by substring, not whole word |
| `QueryGuard.TrailingDropRefused` | server.py:84-85 | `SELECT * FROM players; DROP TABLE players;` is refused because DROP occurs in it |
| `QueryGuard.PlainSelectAccepted` | server.py:84 | `select 1` passes the guard, so the guard does not refuse everything |
| `Connection.GetConnection` | server.py:21-33 | the driver is called if and only if user and password are both set and non-empty; otherwise the result is the credentials error. When called, the driver gets exactly the configured host, port, database, user and password. The result is a connection exactly when the driver connects, and the driver's error otherwise |
| `Strings.Upper` | server.py:84 | defines `query.upper()` for ASCII. The result differs from the query only in letter case, holds no lower-case ASCII letter, and keeps every other character; together these fix it. `UpperIdempotent` and `GuardIgnoresCase` rely on it |
| `Strings.UpperIdempotent` | server.py:84 | upper-casing an upper-cased text changes nothing |
| `Strings.Join` | server.py:67-70 | defines `sep.join(parts)`. Its contract says an empty list joins to `""` and gives the length of a non-empty join: the offset of the last part plus that part's length. `JoinAt` gives the layout of a non-empty join |
| `Strings.JoinAt` | server.py:67-70 | `sep.join(parts)` lays out every part in order at its offset, with a separator after every part but the last and nothing after the last |
| `Strings.SplitJoin` | server.py:70 | splitting a newline-joined text at newlines gives back the parts, all of them in order, when no part contains a newline |
| `Schema.ColumnEntry` | server.py:67 | defines `f"{col[0]} ({col[1]})"`. Its contract says the entry is exactly three characters longer than the name and the type together. `ColumnEntryLayout` gives its layout |
| `Schema.ColumnEntryLayout` | server.py:67 | an entry is the column name, then ` (`, then the type, then `)` |
| `Schema.TableLine` | server.py:67-68 | defines one table's line. It starts with `Table '<name>': `, and it is that header alone exactly when the table has no columns. `TableLineLayout` characterises the rest |
| `Schema.SchemaText` | server.py:53-70 | defines the schema text: the table lines joined by newlines. The text is empty exactly when there are no tables. `OneLinePerTable` and `TwoTableExample` characterise it |
| `Schema.DescribeSchema` | server.py:53-70 | the loop that appends one line per fetched table computes exactly the schema text: the table lines, in table order, joined by newlines |
| `Schema.EmptySchema` | server.py:53-70 | no tables give the empty text, not a newline |
| `Schema.OneLinePerTable` | server.py:53-70 | given at least one table, and no newline in any table name, column name or type: the text has exactly one line per table, in fetched order, with no trailing newline, and line i is the line of table i. A quoted PostgreSQL identifier may contain a newline; for such names the source prints more lines than there are tables |
| `Schema.TableLineLayout` | server.py:58-68 | a table's line starts with `Table '<name>': `; then come its `name (type)` entries in ordinal order, each but the last followed by `, `, and the line ends with the last entry |
| `Schema.NoColumnsLine` | server.py:67-68 | a table without columns gives `Table '<name>': ` and nothing more |
| `Schema.TwoTableExample` | server.py:53-70 | tables `players(id integer, name text)` and `matches(id integer, winner_id integer)` give two lines, columns in declared order |
| `Decimal.NatToString` | server.py:98 | defines the decimal spelling of the row count, as `{len(df)}` writes it: at least one character, digits only, and no leading zero except for 0 itself. `ParseNatToString` reads it back |
| `Decimal.ParseNatToString` | server.py:98 | the decimal spelling of the row count reads back as the same number |
| `Decimal.NatToStringInjective` | server.py:98 | distinct counts have distinct spellings |
| `ResultShaper.Shape` | server.py:93-100 | no rows give the empty case. More than 100 rows give the truncated case: it keeps the true count and exactly the first 100 rows in order. Otherwise every row is kept unchanged |
| `ResultShaper.TruncationNotice` | server.py:98 | defines the notice. It is the fixed head `Result too large (`, then only digits with no leading zero unless the count is 0, then the fixed tail ` rows). Showing first 100:` and a newline, and those digits read back as the given count |
| `ResultShaper.ShapeResult` | server.py:93-100 | defines the reply for the rows of a successful query. Zero rows give `No results found.`. 1 to 100 rows give `render(rows)`. More rows give the notice with the true count, then `render` of the first 100 rows |
| `ResultShaper.NoRowsGiveMarker` | server.py:93-94 | zero rows give `No results found.` and not a rendered empty table |
| `ResultShaper.SmallResultComplete` | server.py:100 | 1 to 100 rows are rendered whole with no prefix |
| `ResultShaper.LargeResultTruncated` | server.py:97-98 | over 100 rows give the notice with the true count followed by the rendering of the first 100 rows |
| `ResultShaper.NoticeDeterminesCount` | server.py:98 | two notices are equal only for equal counts, so the notice reports the true count |
| `ResultShaper.HundredRowsComplete` | server.py:97-100 | exactly 100 rows are rendered whole, with no notice |
| `ResultShaper.HundredOneRowsTruncated` | server.py:97-98 | 101 rows give `Result too large (101 rows). Showing first 100:` and a newline, then the first 100 rows rendered |
| `Server.RunSqlQuery` | server.py:77-104 | a refused query gets the fixed refusal, with no connect call and no execution. A query the guard passes always reaches the connect step, and its reply is the shaped rows or an `SQL Error: ` text, never the refusal. A failed connect gives `SQL Error: ` plus the credentials message or the driver's message. An engine error gives `SQL Error: ` plus the engine's message. Execution happens only over a connection opened with set credentials |
| `Server.MissingCredentialsNeverConnect` | server.py:84-104 | past the guard, missing credentials give `SQL Error: ` plus the credentials message, with no connect call |
| `Server.ShapedReplyNeedsConnection` | server.py:84-100 | past the guard, with credentials set and a connection opened, the reply is the shaped rows, and zero rows give the empty marker |
| `Server.ShapedReplyOnlyWhenConnected` | server.py:84-100 | a reply that is the empty marker or starts with the truncation notice implies four things: the guard passed, the credentials were set, the connection opened and the query ran |
| `Server.GetDatabaseSchema` | server.py:36-74 | with a connection, the reply is the schema text. Without one, it is `Error getting schema: ` plus the error text. The connect call is made exactly as `get_connection` makes it |

## Left out

- The PostgreSQL driver (`psycopg2.connect`, cursors, `fetchall`) and the
  `information_schema` query texts (server.py:26-32, 46-64) are not modelled. The connect
  outcome, the table list and the per-table column query are inputs.
- The column query filters on `table_name` only, not on the schema. The model
  takes whatever rows that query returns for a name as `columnsOf(name)`, so
  same-named tables in other schemas are covered only through that input.
- An exception raised by a catalog query in the middle of the schema loop is
  not modelled. The schema tool's error path covers only failures to connect.
- `pd.read_sql_query` and `DataFrame.to_markdown` (server.py:91, 98, 100) are
  not modelled: the first is an input outcome, the second the parameter `render`.
  An exception from the renderer is not modelled.
- `ResultShaper.Shape`: decides on the row count only. The model has no columns,
  so `df.empty` for a result with rows but no columns is not captured (PostgreSQL
  allows `SELECT FROM t`, and the server would reply `No results found.`).
- `ResultShaper.ShapeResult`: for 1 to 100 rows without columns the server replies
  `No results found.`, where the model gives `render(rows)`, for the reason above.
- `Server.RunSqlQuery`: inherits the same gap through `ShapeResult`.
- `conn.close()` in the `finally` blocks (server.py:71-72, 101-102) is not
  modelled. Connections carry no lifecycle state here.
- Environment loading and the configuration globals (server.py:6-19) are not
  modelled. The configuration is a `Config` parameter. An unset variable is
  `None`; a variable set to the empty string is `Some("")`, which the check treats
  as unset, as Python's truthiness does.
- Only the PostgreSQL back end of `server.py` exists, and only it is modelled.
- A table, column or type name that contains a newline (PostgreSQL allows
  quoted identifiers with one) makes the schema text hold more lines than there
  are tables. `Schema.OneLinePerTable` is stated only for names without newlines.
- FastMCP tool registration and the stdio transport (server.py:1, 12, 35, 76, 121)
  are RPC plumbing and are not modelled.
- The start-up probe, its stderr messages and `sys.exit(1)` (server.py:106-120)
  are process-level I/O and are not modelled.
- `QueryGuard.MutatingIffCaselessMatch`: upper-casing is modelled for ASCII
  only. Python's `str.upper` also maps some non-ASCII letters to ASCII (dotless
  `ı` to `I`, long `s` to `S`) and `ß` to `SS`. The real guard therefore refuses
  every query the model refuses, and some more.
