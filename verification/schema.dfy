/**
 * The text `get_database_schema` builds from the two catalog fetches: one
 * line per table, `Table '<name>': c1 (t1), c2 (t2)`, the lines joined by
 * newlines. The list of table names and the per-table column query are
 * inputs; the column query is a function of the table name, as the source's
 * `WHERE table_name = %s` query is.
 */
module Schema {
  import opened Strings

  /** One row of the column query: column name and declared data type. */
  datatype Column = Column(name: string, dataType: string)

  /** `f"{col[0]} ({col[1]})"`: the name, a space, then the type in parentheses. */
  function ColumnEntry(c: Column): (r: string)
    ensures |r| == |c.name| + |c.dataType| + 3
  {
    c.name + " (" + c.dataType + ")"
  }

  /** An entry is the column name, ` (`, the type and `)`, in that order. */
  lemma ColumnEntryLayout(c: Column)
    ensures var r := ColumnEntry(c);
      r[..|c.name|] == c.name &&
      r[|c.name|..|c.name| + 2] == " (" &&
      r[|c.name| + 2..|r| - 1] == c.dataType &&
      r[|r| - 1] == ')'
  {
  }

  function ColumnEntries(cols: seq<Column>): (r: seq<string>)
    ensures |r| == |cols|
    ensures forall k :: 0 <= k < |cols| ==> r[k] == ColumnEntry(cols[k])
  {
    seq(|cols|, k requires 0 <= k < |cols| => ColumnEntry(cols[k]))
  }

  /** `", ".join(...)` over the column entries, in fetched order. */
  function ColumnList(cols: seq<Column>): string {
    Join(", ", ColumnEntries(cols))
  }

  function TableHeader(name: string): string {
    "Table '" + name + "': "
  }

  /**
   * The line for one table: it starts with the table's header, and it is the
   * header alone exactly when the table has no columns.
   */
  function TableLine(name: string, cols: seq<Column>): (r: string)
    ensures |TableHeader(name)| <= |r| && r[..|TableHeader(name)|] == TableHeader(name)
    ensures |r| == |TableHeader(name)| <==> cols == []
  {
    var entries := ColumnEntries(cols);
    assert cols != [] ==> |entries[|entries| - 1]| >= 3;
    TableHeader(name) + ColumnList(cols)
  }

  /** The lines of the schema text, one per fetched table, in fetched order. */
  function SchemaLines(tables: seq<string>, columnsOf: string -> seq<Column>): (r: seq<string>)
    ensures |r| == |tables|
    ensures forall i :: 0 <= i < |tables| ==> r[i] == TableLine(tables[i], columnsOf(tables[i]))
  {
    seq(|tables|, i requires 0 <= i < |tables| => TableLine(tables[i], columnsOf(tables[i])))
  }

  /** The whole schema text, `"\n".join(schema_info)`: empty exactly when there are no tables. */
  function SchemaText(tables: seq<string>, columnsOf: string -> seq<Column>): (r: string)
    ensures r == "" <==> tables == []
  {
    var lines := SchemaLines(tables, columnsOf);
    assert tables != [] ==> |lines[|lines| - 1]| >= |TableHeader(tables[|tables| - 1])|;
    Join("\n", lines)
  }

  /**
   * The loop of `get_database_schema`: for each table, in fetched order, fetch
   * its columns, format them and append the table's line; then join the lines.
   */
  method DescribeSchema(tables: seq<string>, columnsOf: string -> seq<Column>) returns (text: string)
    ensures text == SchemaText(tables, columnsOf)
  {
    var schemaInfo: seq<string> := [];
    for i := 0 to |tables|
      invariant |schemaInfo| == i
      invariant forall j :: 0 <= j < i ==> schemaInfo[j] == TableLine(tables[j], columnsOf(tables[j]))
    {
      var tableName := tables[i];
      var columns := columnsOf(tableName);
      var colStr := Join(", ", ColumnEntries(columns));
      schemaInfo := schemaInfo + ["Table '" + tableName + "': " + colStr];
    }
    assert schemaInfo == SchemaLines(tables, columnsOf);
    text := Join("\n", schemaInfo);
  }

  /** No table, no text: not even a newline. */
  lemma EmptySchema(columnsOf: string -> seq<Column>)
    ensures SchemaText([], columnsOf) == ""
  {
  }

  /** Neither a table name nor any of its column names or types holds a newline. */
  predicate NewlineFree(tables: seq<string>, columnsOf: string -> seq<Column>) {
    forall i :: 0 <= i < |tables| ==>
      '\n' !in tables[i] &&
      forall c :: c in columnsOf(tables[i]) ==> '\n' !in c.name && '\n' !in c.dataType
  }

  lemma TableLineNewlineFree(name: string, cols: seq<Column>)
    requires '\n' !in name
    requires forall c :: c in cols ==> '\n' !in c.name && '\n' !in c.dataType
    ensures '\n' !in TableLine(name, cols)
  {
    var entries := ColumnEntries(cols);
    forall k | 0 <= k < |entries| ensures '\n' !in entries[k] {
      assert cols[k] in cols;
    }
    JoinAvoids('\n', ", ", entries);
  }

  /**
   * Exactly one line per table, in fetched order, with no trailing newline:
   * splitting the text at its newlines gives back the table lines, unless a
   * name itself holds a newline.
   */
  lemma OneLinePerTable(tables: seq<string>, columnsOf: string -> seq<Column>)
    requires |tables| >= 1
    requires NewlineFree(tables, columnsOf)
    ensures |Split(SchemaText(tables, columnsOf), '\n')| == |tables|
    ensures forall i :: 0 <= i < |tables| ==>
      Split(SchemaText(tables, columnsOf), '\n')[i] == TableLine(tables[i], columnsOf(tables[i]))
  {
    var lines := SchemaLines(tables, columnsOf);
    forall i | 0 <= i < |lines| ensures '\n' !in lines[i] {
      TableLineNewlineFree(tables[i], columnsOf(tables[i]));
    }
    assert "\n" == ['\n'];
    SplitJoin('\n', lines);
  }

  /**
   * A table's line starts with `Table '<name>': ` and then lists its columns
   * as `name (type)` entries in fetched order, each but the last followed by
   * `, `; the line ends with the last entry, or with the header when the table
   * has no columns.
   */
  lemma TableLineLayout(name: string, cols: seq<Column>, k: nat)
    requires k < |cols|
    ensures var line := TableLine(name, cols);
      var at := |TableHeader(name)| + Offset(", ", ColumnEntries(cols), k);
      var entry := ColumnEntry(cols[k]);
      line[..|TableHeader(name)|] == TableHeader(name) &&
      at + |entry| <= |line| &&
      line[at..at + |entry|] == entry &&
      (k + 1 < |cols| ==> at + |entry| + 2 <= |line| && line[at + |entry|..at + |entry| + 2] == ", ") &&
      (k + 1 == |cols| ==> |line| == at + |entry|)
  {
    var entries := ColumnEntries(cols);
    var header := TableHeader(name);
    var o := Offset(", ", entries, k);
    JoinAt(", ", entries, k);
    SliceAfter(header, ColumnList(cols), o, o + |entries[k]|);
    if k + 1 < |cols| {
      SliceAfter(header, ColumnList(cols), o + |entries[k]|, o + |entries[k]| + 2);
    }
  }

  /** A table without columns gives its header alone. */
  lemma NoColumnsLine(name: string)
    ensures TableLine(name, []) == "Table '" + name + "': "
  {
  }

  /** The column query of a database holding the tables `players` and `matches`. */
  function TennisColumns(table: string): seq<Column> {
    if table == "players" then [Column("id", "integer"), Column("name", "text")]
    else if table == "matches" then [Column("id", "integer"), Column("winner_id", "integer")]
    else []
  }

  lemma PlayersLine()
    ensures TableLine("players", TennisColumns("players"))
      == "Table 'players': " + "id (integer)" + ", " + "name (text)"
  {
    var cols := TennisColumns("players");
    assert ColumnEntry(cols[0]) == "id (integer)";
    assert ColumnEntry(cols[1]) == "name (text)";
    assert ColumnEntries(cols) == ["id (integer)", "name (text)"];
    JoinTwo(", ", "id (integer)", "name (text)");
  }

  lemma MatchesColumns()
    ensures TennisColumns("matches") == [Column("id", "integer"), Column("winner_id", "integer")]
  {
    assert "matches"[0] != "players"[0];
  }

  lemma MatchesLine()
    ensures TableLine("matches", TennisColumns("matches"))
      == "Table 'matches': " + "id (integer)" + ", " + "winner_id (integer)"
  {
    MatchesColumns();
    var cols := TennisColumns("matches");
    assert ColumnEntry(cols[0]) == "id (integer)";
    assert ColumnEntry(cols[1]) == "winner_id (integer)";
    assert ColumnEntries(cols) == ["id (integer)", "winner_id (integer)"];
    JoinTwo(", ", "id (integer)", "winner_id (integer)");
  }

  lemma JoinTwo(sep: string, a: string, b: string)
    ensures Join(sep, [a, b]) == a + sep + b
  {
    assert [a, b][1..] == [b];
  }

  /** Two tables give two lines, each listing its columns in declared order with their declared types. */
  lemma TwoTableExample()
    ensures SchemaText(["players", "matches"], TennisColumns)
      == "Table 'players': " + "id (integer)" + ", " + "name (text)"
       + "\n"
       + "Table 'matches': " + "id (integer)" + ", " + "winner_id (integer)"
  {
    var l1 := "Table 'players': " + "id (integer)" + ", " + "name (text)";
    var l2 := "Table 'matches': " + "id (integer)" + ", " + "winner_id (integer)";
    PlayersLine();
    MatchesLine();
    assert SchemaLines(["players", "matches"], TennisColumns) == [l1, l2];
    JoinTwo("\n", l1, l2);
  }
}
