/**
 * How `run_sql_query` turns the rows of a successful query into its reply:
 * a fixed marker for no rows, the rows rendered as a table when there are at
 * most 100, and otherwise a notice with the true row count followed by the
 * first 100 rows rendered. The table renderer is a library call outside the
 * model, so it is a parameter `render`.
 */
module ResultShaper {
  import opened Decimal

  /** The most rows a reply ever renders. */
  const RowCap: nat := 100

  const NoResultsMarker: string := "No results found."

  /** Which of the three replies a result set gets, and the rows that reply renders. */
  datatype Shaped<Row> = NoRows | Truncated(total: nat, shown: seq<Row>) | Complete(shown: seq<Row>)

  /**
   * The decision on `len(df)`: empty, over the cap (keep the first 100 rows in
   * order, remember the true count) or within it (keep every row).
   */
  function Shape<Row>(rows: seq<Row>): (s: Shaped<Row>)
    ensures s.NoRows? <==> |rows| == 0
    ensures s.Truncated? <==> |rows| > RowCap
    ensures s.Complete? <==> 1 <= |rows| <= RowCap
    ensures s.Truncated? ==>
      s.total == |rows| && |s.shown| == RowCap &&
      forall i :: 0 <= i < RowCap ==> s.shown[i] == rows[i]
    ensures s.Complete? ==> s.shown == rows
  {
    if |rows| == 0 then NoRows
    else if |rows| > RowCap then Truncated(|rows|, rows[..RowCap])
    else Complete(rows)
  }

  const NoticeHead: string := "Result too large ("
  const NoticeTail: string := " rows). Showing first 100:\n"

  /**
   * `f"Result too large ({len(df)} rows). Showing first 100:\n"`: between its
   * fixed head and tail the notice holds only digits, with no leading zero
   * unless the count is 0, and they read back as the count it was given.
   */
  function TruncationNotice(total: nat): (r: string)
    ensures |NoticeHead| + |NoticeTail| < |r|
    ensures r[..|NoticeHead|] == NoticeHead && r[|r| - |NoticeTail|..] == NoticeTail
    ensures var digits := r[|NoticeHead|..|r| - |NoticeTail|];
      (forall i :: 0 <= i < |digits| ==> IsDigit(digits[i])) && ParseNat(digits) == total
    ensures r[|NoticeHead|] == '0' ==> total == 0
  {
    var digits := NatToString(total);
    var r := NoticeHead + digits + NoticeTail;
    assert r[|NoticeHead|..|r| - |NoticeTail|] == digits;
    ParseNatToString(total);
    r
  }

  /**
   * The reply `run_sql_query` gives for the rows of a successful query:
   * the marker for none, the notice and the first 100 rendered for more
   * than 100, and all of them rendered otherwise.
   */
  function ShapeResult<Row>(rows: seq<Row>, render: seq<Row> -> string): (r: string)
    ensures |rows| == 0 ==> r == NoResultsMarker
    ensures 1 <= |rows| <= RowCap ==> r == render(rows)
    ensures |rows| > RowCap ==> r == TruncationNotice(|rows|) + render(rows[..RowCap])
  {
    match Shape(rows)
    case NoRows => NoResultsMarker
    case Truncated(total, shown) => TruncationNotice(total) + render(shown)
    case Complete(shown) => render(shown)
  }

  /** Zero rows give the marker, not a rendered empty table. */
  lemma NoRowsGiveMarker<Row>(render: seq<Row> -> string)
    ensures ShapeResult([], render) == NoResultsMarker
  {
  }

  /** Up to and including 100 rows, every row is rendered and no notice is added. */
  lemma SmallResultComplete<Row>(rows: seq<Row>, render: seq<Row> -> string)
    requires 1 <= |rows| <= RowCap
    ensures ShapeResult(rows, render) == render(rows)
  {
  }

  /** Over 100 rows, the notice with the true count precedes the first 100 rows, in order. */
  lemma LargeResultTruncated<Row>(rows: seq<Row>, render: seq<Row> -> string)
    requires |rows| > RowCap
    ensures ShapeResult(rows, render) == TruncationNotice(|rows|) + render(rows[..RowCap])
  {
  }

  /** The notice reports the count faithfully: different counts give different notices. */
  lemma NoticeDeterminesCount(n: nat, m: nat)
    requires TruncationNotice(n) == TruncationNotice(m)
    ensures n == m
  {
  }

  /** The boundary case: exactly 100 rows are shown whole. */
  lemma HundredRowsComplete<Row>(rows: seq<Row>, render: seq<Row> -> string)
    requires |rows| == 100
    ensures ShapeResult(rows, render) == render(rows)
  {
  }

  /** One more row and the reply says so: "Result too large (101 rows)". */
  lemma HundredOneRowsTruncated<Row>(rows: seq<Row>, render: seq<Row> -> string)
    requires |rows| == 101
    ensures ShapeResult(rows, render) ==
      "Result too large (" + "101" + " rows). Showing first 100:\n" + render(rows[..100])
  {
    assert NatToString(101) == "101" by {
      assert NatToString(10) == "10";
    }
  }
}
